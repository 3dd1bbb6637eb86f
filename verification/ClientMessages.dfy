/** JSON trees as the Android client writes and takes them. */
module ClientMessages {
  import opened Wrappers
  import opened Timestamp
  import opened TimestampLaws
  import opened ClientTime
  import opened Messages
  import opened Visitors

  // ----- what the client takes

  /** What a property is to the client's decoder. */
  datatype Field = Absent | IsText(text: string) | NotText

  function FieldOf(t: Tree, key: string): Field {
    var child := Find(t, key);
    if child.None? then Absent
    else if child.value.children == [] then IsText(child.value.data)
    else NotText
  }

  /** A property that is absent is left null; one that is not text cannot be decoded. */
  function Nullable(f: Field): Option<string> {
    if f.IsText? then Some(f.text) else None
  }

  /** The visit method that is called; its argument is null if there is no object, as are absent properties of it. */
  datatype ClientOutcome =
    | LoginSeen(time: Option<int>, username: Option<string>)
    | MessageSeen(time: Option<int>, originator: Option<string>, content: Option<string>)
    | NullLogin
    | NullMessage
    | Throws

  /** The inherited properties and the given ones decode: the timestamp can be read, the rest are texts. */
  predicate Decodes(obj: Tree, keys: seq<string>) {
    && obj.children != []
    && (match FieldOf(obj, "datetime")
        case Absent => true
        case IsText(text) => ClientTimeOf(text).Some?
        case NotText => false)
    && !FieldOf(obj, "sender").NotText?
    && forall k :: 0 <= k < |keys| ==> !FieldOf(obj, keys[k]).NotText?
  }

  function TimeSeen(obj: Tree): Option<int> {
    var f := FieldOf(obj, "datetime");
    if f.IsText? then ClientTimeOf(f.text) else None
  }

  /** Two response types are visited; any other type, and any object that does not decode, is an exception. */
  function ClientVisit(json: Tree): ClientOutcome {
    var typ := FieldOf(json, "type");
    var obj := Find(json, "object");
    if !typ.IsText? then Throws
    else if typ.text == LOGIN_RESPONSE then
      if obj.None? then NullLogin
      else if Decodes(obj.value, ["joiningUsername"]) then
        LoginSeen(TimeSeen(obj.value), Nullable(FieldOf(obj.value, "joiningUsername")))
      else Throws
    else if typ.text == MESSAGE_RESPONSE then
      if obj.None? then NullMessage
      else if Decodes(obj.value, ["originator", "content"]) then
        MessageSeen(TimeSeen(obj.value), Nullable(FieldOf(obj.value, "originator")), Nullable(FieldOf(obj.value, "content")))
      else Throws
    else Throws
  }

  /**
    What becomes of everything the server can write. The client takes login and message responses whose
    printed seconds are plain, with their contents and the server's instant to the millisecond. It throws
    on the others, on error replies and on requests.
   */
  lemma ClientSeesReplies(fp: Fp, tol: real, m: Instance)
    requires Sound(fp, tol) && Printable(fp, m)
    ensures var time := Some(ComesBackAs(fp, m.time) / NS_PER_MS);
            ClientVisit(JsonOf(fp, m)) ==
            if !SecondsArePlain(fp.seconds(IntoMinute(m.time))) then Throws
            else match m
                 case LoginResponse(_, _, username) => LoginSeen(time, Some(username))
                 case MessageResponse(_, _, originator, content) => MessageSeen(time, Some(originator), Some(content))
                 case _ => Throws
  {
    hide JsonOf, Properties, Printable, Sound, SecondsArePlain, ComesBackAs, ClientTimeOf, StampText, InRange, IntoMinute,
         Find, FieldOf, ClientVisit, LOGIN_REQUEST, MESSAGE_REQUEST, LOGIN_RESPONSE, MESSAGE_RESPONSE, SERVER_ERROR;
    PrintableTime(fp, m);
    ClientReadsServer(fp, tol, m.time);
    TagReadsBack(fp, m);
    var (json, obj) := (JsonOf(fp, m), Node([], Properties(fp, m)));
    if m.LoginResponse? {
      LoginFields(fp, m);
      VisitsLogin(json, obj, StampText(fp, m.time, 0), m.username);
    } else if m.MessageResponse? {
      MessageFields(fp, m);
      VisitsMessage(json, obj, StampText(fp, m.time, 0), m.originator, m.content);
    } else {
      TypeNamesDiffer();
      OtherTypes(json, TypeName(m));
    }
  }

  lemma PrintableTime(fp: Fp, m: Instance)
    requires Printable(fp, m)
    ensures m.time >= 0 && InRange(m.time, 0) && fp.seconds(IntoMinute(m.time)) >= 0.0
  {
  }

  lemma VisitsLogin(json: Tree, obj: Tree, stamp: string, username: string)
    requires FieldOf(json, "type") == IsText(LOGIN_RESPONSE) && Find(json, "object") == Some(obj) && obj.children != []
    requires FieldOf(obj, "datetime") == IsText(stamp) && FieldOf(obj, "sender").IsText?
    requires FieldOf(obj, "joiningUsername") == IsText(username)
    ensures ClientVisit(json) ==
            if ClientTimeOf(stamp).Some? then LoginSeen(ClientTimeOf(stamp), Some(username)) else Throws
  {
    hide Find, FieldOf, ClientTimeOf, LOGIN_RESPONSE;
  }

  lemma VisitsMessage(json: Tree, obj: Tree, stamp: string, originator: string, content: string)
    requires FieldOf(json, "type") == IsText(MESSAGE_RESPONSE) && Find(json, "object") == Some(obj) && obj.children != []
    requires FieldOf(obj, "datetime") == IsText(stamp) && FieldOf(obj, "sender").IsText?
    requires FieldOf(obj, "originator") == IsText(originator) && FieldOf(obj, "content") == IsText(content)
    ensures ClientVisit(json) ==
            if ClientTimeOf(stamp).Some? then MessageSeen(ClientTimeOf(stamp), Some(originator), Some(content)) else Throws
  {
    TypeNamesDiffer();
    hide Find, FieldOf, ClientTimeOf, LOGIN_RESPONSE, MESSAGE_RESPONSE;
  }

  lemma OtherTypes(json: Tree, typ: string)
    requires FieldOf(json, "type") == IsText(typ) && typ != LOGIN_RESPONSE && typ != MESSAGE_RESPONSE
    ensures ClientVisit(json) == Throws
  {
  }

  lemma TagReadsBack(fp: Fp, m: Instance)
    requires Printable(fp, m)
    ensures FieldOf(JsonOf(fp, m), "type") == IsText(TypeName(m))
    ensures Find(JsonOf(fp, m), "object") == Some(Node([], Properties(fp, m)))
  {
    hide Properties, Printable, TypeName;
    FirstIs(JsonOf(fp, m).children, "type", 0);
    FirstIs(JsonOf(fp, m).children, "object", 1);
  }

  lemma LoginFields(fp: Fp, m: Instance)
    requires Printable(fp, m) && m.LoginResponse?
    ensures var obj := Node([], Properties(fp, m));
            && obj.children != [] && FieldOf(obj, "datetime") == IsText(StampText(fp, m.time, 0))
            && FieldOf(obj, "sender").IsText? && FieldOf(obj, "joiningUsername") == IsText(m.username)
  {
    hide StampText, InRange, IntoMinute, IndexOf, Find;
    TextReadsBack(fp, m, "datetime", 0);
    TextReadsBack(fp, m, "sender", 1);
    TextReadsBack(fp, m, "joiningUsername", 2);
  }

  lemma MessageFields(fp: Fp, m: Instance)
    requires Printable(fp, m) && m.MessageResponse?
    ensures var obj := Node([], Properties(fp, m));
            && obj.children != [] && FieldOf(obj, "datetime") == IsText(StampText(fp, m.time, 0))
            && FieldOf(obj, "sender").IsText? && FieldOf(obj, "originator") == IsText(m.originator)
            && FieldOf(obj, "content") == IsText(m.content)
  {
    hide StampText, InRange, IntoMinute, IndexOf, Find;
    TextReadsBack(fp, m, "datetime", 0);
    TextReadsBack(fp, m, "sender", 1);
    TextReadsBack(fp, m, "originator", 2);
    TextReadsBack(fp, m, "content", 3);
  }

  // ----- what the client writes

  /** A request at a millisecond, written in a zone `zone` minutes east of UTC. */
  predicate IsClientRequest(m: Instance, ms: nat, zone: int) {
    (m.LoginRequest? || m.MessageRequest?) && m.time == ms * NS_PER_MS && InRange(ms * NS_PER_MS, zone)
  }

  /** Its own properties come before the inherited ones. */
  function ClientProperties(m: Instance, ms: nat, zone: int): seq<(string, Tree)>
    requires IsClientRequest(m, ms, zone)
  {
    (if m.MessageRequest? then [("content", Leaf(m.content))] else [])
    + [("datetime", Leaf(ClientText(ms, zone))), ("sender", Leaf(m.from))]
  }

  function ClientJson(m: Instance, ms: nat, zone: int): Tree
    requires IsClientRequest(m, ms, zone)
  {
    Node([], [("type", Leaf(TypeName(m))), ("object", Node([], ClientProperties(m, ms, zone)))])
  }

  /** Every request the client writes, in any zone, reaches the server's visit method of its type unchanged. */
  lemma ServerSeesRequests(fp: Fp, tol: real, m: Instance, ms: nat, zone: int)
    requires Sound(fp, tol) && IsClientRequest(m, ms, zone)
    ensures RequestOutcome(fp, ClientJson(m, ms, zone)) == if m.LoginRequest? then LoginVisited(m) else MessageVisited(m)
  {
    hide ClientJson, ClientProperties, IsClientRequest, InRange, Sound, TimePointOf, ClientText, Find, RequestOutcome,
         LOGIN_REQUEST, MESSAGE_REQUEST;
    ClientRequestTime(m, ms, zone);
    ServerReadsClient(fp, tol, ms, zone);
    ClientTag(m, ms, zone);
    ClientFields(m, ms, zone);
    var (json, obj) := (ClientJson(m, ms, zone), Node([], ClientProperties(m, ms, zone)));
    if m.LoginRequest? {
      VisitsLoginRequest(fp, json, obj, ClientText(ms, zone), m.from);
    } else {
      VisitsMessageRequest(fp, json, obj, ClientText(ms, zone), m.from, m.content);
    }
  }

  lemma ClientRequestTime(m: Instance, ms: nat, zone: int)
    requires IsClientRequest(m, ms, zone)
    ensures InRange(ms * NS_PER_MS, zone) && m.time == ms * NS_PER_MS && (m.LoginRequest? || m.MessageRequest?)
  {
  }

  lemma VisitsLoginRequest(fp: Fp, json: Tree, obj: Tree, stamp: string, from: string)
    requires Find(json, "type") == Some(Leaf(LOGIN_REQUEST)) && Find(json, "object") == Some(obj)
    requires Find(obj, "datetime") == Some(Leaf(stamp)) && Find(obj, "sender") == Some(Leaf(from))
    requires TimePointOf(fp, stamp).Some?
    ensures RequestOutcome(fp, json) == LoginVisited(LoginRequest(TimePointOf(fp, stamp).value, from))
  {
    hide Find, TimePointOf, LOGIN_REQUEST, MESSAGE_REQUEST;
    TypeNamesDiffer();
  }

  lemma VisitsMessageRequest(fp: Fp, json: Tree, obj: Tree, stamp: string, from: string, content: string)
    requires Find(json, "type") == Some(Leaf(MESSAGE_REQUEST)) && Find(json, "object") == Some(obj)
    requires Find(obj, "datetime") == Some(Leaf(stamp)) && Find(obj, "sender") == Some(Leaf(from))
    requires Find(obj, "content") == Some(Leaf(content)) && TimePointOf(fp, stamp).Some?
    ensures RequestOutcome(fp, json) == MessageVisited(MessageRequest(TimePointOf(fp, stamp).value, from, content))
  {
    hide Find, TimePointOf, LOGIN_REQUEST, MESSAGE_REQUEST;
    TypeNamesDiffer();
  }

  lemma ClientTag(m: Instance, ms: nat, zone: int)
    requires IsClientRequest(m, ms, zone)
    ensures Find(ClientJson(m, ms, zone), "type") == Some(Leaf(TypeName(m)))
    ensures Find(ClientJson(m, ms, zone), "object") == Some(Node([], ClientProperties(m, ms, zone)))
  {
    hide ClientProperties, TypeName;
    FirstIs(ClientJson(m, ms, zone).children, "type", 0);
    FirstIs(ClientJson(m, ms, zone).children, "object", 1);
  }

  lemma ClientFields(m: Instance, ms: nat, zone: int)
    requires IsClientRequest(m, ms, zone)
    ensures var obj := Node([], ClientProperties(m, ms, zone));
            && Find(obj, "datetime") == Some(Leaf(ClientText(ms, zone))) && Find(obj, "sender") == Some(Leaf(m.from))
            && (m.MessageRequest? ==> Find(obj, "content") == Some(Leaf(m.content)))
  {
    hide ClientText, InRange;
    var children := ClientProperties(m, ms, zone);
    if m.MessageRequest? {
      FirstIs(children, "content", 0);
      FirstIs(children, "datetime", 1);
      FirstIs(children, "sender", 2);
    } else {
      FirstIs(children, "datetime", 0);
      FirstIs(children, "sender", 1);
    }
  }
}
