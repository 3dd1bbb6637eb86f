/** The five message types and their JSON trees. */
module Messages {
  import opened Wrappers
  import opened Decimal
  import opened Timestamp
  import opened TimestampLaws

  // ----- trees

  /** A property tree: data of its own and named children, in order. */
  datatype Tree = Node(data: string, children: seq<(string, Tree)>)

  function Leaf(data: string): Tree {
    Node(data, [])
  }

  /** Position of the first child with the key, or the number of children. */
  function IndexOf(children: seq<(string, Tree)>, key: string): (i: nat)
    ensures i <= |children|
    ensures i < |children| ==> children[i].0 == key
    ensures forall j :: 0 <= j < i ==> children[j].0 != key
  {
    if children == [] then 0
    else if children[0].0 == key then 0
    else 1 + IndexOf(children[1..], key)
  }

  function Find(t: Tree, key: string): Option<Tree> {
    var i := IndexOf(t.children, key);
    if i < |t.children| then Some(t.children[i].1) else None
  }

  /** Sets the data of the first child with the key, adding the child if there is none. */
  function Put(t: Tree, key: string, data: string): Tree {
    var i := IndexOf(t.children, key);
    if i < |t.children| then t.(children := t.children[i := (key, t.children[i].1.(data := data))])
    else t.(children := t.children + [(key, Leaf(data))])
  }

  function PutChild(t: Tree, key: string, child: Tree): Tree {
    var i := IndexOf(t.children, key);
    if i < |t.children| then t.(children := t.children[i := (key, child)])
    else t.(children := t.children + [(key, child)])
  }

  /** What was put is found, and nothing else changes. */
  lemma FindAfterPut(t: Tree, key: string, data: string, other: string)
    ensures Find(Put(t, key, data), key).Some? && Find(Put(t, key, data), key).value.data == data
    ensures other != key ==> Find(Put(t, key, data), other) == Find(t, other)
  {
    var t' := Put(t, key, data);
    var (i, i') := (IndexOf(t.children, key), IndexOf(t'.children, key));
    if i < |t.children| {
      FirstIs(t'.children, key, i);
    } else {
      FirstIs(t'.children, key, |t.children|);
    }
    if other != key {
      var j := IndexOf(t.children, other);
      if j < |t.children| {
        FirstIs(t'.children, other, j);
      }
    }
  }

  lemma FirstIs(children: seq<(string, Tree)>, key: string, i: nat)
    requires i < |children| && children[i].0 == key
    requires forall j :: 0 <= j < i ==> children[j].0 != key
    ensures IndexOf(children, key) == i
  {
  }

  // ----- messages

  /** Times are nanoseconds since the epoch. */
  datatype Instance =
    | LoginRequest(time: int, from: string)
    | MessageRequest(time: int, from: string, content: string)
    | LoginResponse(time: int, from: string, username: string)
    | MessageResponse(time: int, from: string, originator: string, content: string)
    | ErrorResponse(time: int, from: string, originator: string, code: nat, text: string)
  {
    /** Login responses always claim to come from the server. */
    function Sender(): string {
      if LoginResponse? then SERVER_SENDER else from
    }
  }

  const SERVER_SENDER := "@server"
  const UNKNOWN_SENDER := "@unknown"

  const LOGIN_REQUEST := "ca.uwo.eng.se3313.lab4.network.request.LoginRequest"
  const MESSAGE_REQUEST := "ca.uwo.eng.se3313.lab4.network.request.MessageRequest"
  const LOGIN_RESPONSE := "ca.uwo.eng.se3313.lab4.network.response.LoginResponse"
  const MESSAGE_RESPONSE := "ca.uwo.eng.se3313.lab4.network.response.MessageResponse"
  const SERVER_ERROR := "ca.uwo.eng.se3313.lab4.network.response.ServerError"

  function TypeName(m: Instance): string {
    match m
    case LoginRequest(_, _) => LOGIN_REQUEST
    case MessageRequest(_, _, _) => MESSAGE_REQUEST
    case LoginResponse(_, _, _) => LOGIN_RESPONSE
    case MessageResponse(_, _, _, _) => MESSAGE_RESPONSE
    case ErrorResponse(_, _, _, _, _) => SERVER_ERROR
  }

  /** Messages whose time the printer covers and whose error code is one of the 16-bit codes. */
  ghost predicate Printable(fp: Fp, m: Instance) {
    && 0 <= m.time && InRange(m.time, 0) && fp.seconds(IntoMinute(m.time)) >= 0.0
    && (m.ErrorResponse? ==> m.code < 65536)
  }

  /** The children of the object tree, spelled out. */
  function Properties(fp: Fp, m: Instance): seq<(string, Tree)>
    requires Printable(fp, m)
  {
    [("datetime", Leaf(StampText(fp, m.time, 0))), ("sender", Leaf(m.Sender()))]
    + match m
      case LoginRequest(_, _) => []
      case MessageRequest(_, _, content) => [("content", Leaf(content))]
      case LoginResponse(_, _, username) => [("joiningUsername", Leaf(username))]
      case MessageResponse(_, _, originator, content) => [("originator", Leaf(originator)), ("content", Leaf(content))]
      case ErrorResponse(_, _, originator, code, text) =>
        [("code", Leaf(NatText(code))), ("message", Leaf(text)), ("originator", Leaf(originator))]
  }

  function JsonOf(fp: Fp, m: Instance): Tree
    requires Printable(fp, m)
  {
    Node([], [("type", Leaf(TypeName(m))), ("object", Node([], Properties(fp, m)))])
  }

  /** A fresh key goes to the end. */
  lemma PutFresh(t: Tree, key: string, data: string)
    requires forall j :: 0 <= j < |t.children| ==> t.children[j].0 != key
    ensures Put(t, key, data) == t.(children := t.children + [(key, Leaf(data))])
  {
  }

  method BaseJson(fp: Fp, m: Instance) returns (json: Tree)
    requires Printable(fp, m)
    ensures json == Node([], [("datetime", Leaf(StampText(fp, m.time, 0))), ("sender", Leaf(m.Sender()))])
  {
    var time := PrintTimePoint(fp, m.time, 0);
    hide StampText, InRange, IntoMinute, Put;
    json := Leaf([]);
    PutFresh(json, "datetime", time);
    json := Put(json, "datetime", time);
    PutFresh(json, "sender", m.Sender());
    json := Put(json, "sender", m.Sender());
  }

  /** `baseJson`, then what each message type adds. */
  method SubToJson(fp: Fp, m: Instance) returns (json: Tree)
    requires Printable(fp, m)
    ensures json == Node([], Properties(fp, m))
  {
    hide StampText, InRange, IntoMinute, Put, NatText;
    json := BaseJson(fp, m);
    match m {
      case LoginRequest(_, _) =>
      case MessageRequest(_, _, content) =>
        json := PutText(json, "content", content);
      case LoginResponse(_, _, username) =>
        json := PutText(json, "joiningUsername", username);
      case MessageResponse(_, _, originator, content) =>
        json := PutText(json, "originator", originator);
        json := PutText(json, "content", content);
      case ErrorResponse(_, _, originator, code, text) =>
        json := PutText(json, "code", NatText(code));
        json := PutText(json, "message", text);
        json := PutText(json, "originator", originator);
    }
  }

  method PutText(json: Tree, key: string, data: string) returns (r: Tree)
    requires forall j :: 0 <= j < |json.children| ==> json.children[j].0 != key
    ensures r == json.(children := json.children + [(key, Leaf(data))])
  {
    PutFresh(json, key, data);
    r := Put(json, key, data);
  }

  method ToJson(fp: Fp, m: Instance) returns (json: Tree)
    requires Printable(fp, m)
    ensures json == JsonOf(fp, m)
  {
    hide StampText, InRange, IntoMinute, Properties;
    var sub := SubToJson(fp, m);
    json := Leaf([]);
    json := Put(json, "type", TypeName(m));
    json := PutChild(json, "object", sub);
  }

  // ----- decoding

  /** The type tag and the object, if both are there. */
  function ExtractFrom(json: Tree): Option<(string, Tree)> {
    var typ := Find(json, "type");
    var obj := Find(json, "object");
    if typ.None? || obj.None? then None else Some((typ.value.data, obj.value))
  }

  /** A decoder returns a pointer to a message or to nothing, or throws. */
  datatype Decoded = Got(m: Instance) | Null | Thrown

  /** Time and sender; an unreadable time leaves the epoch, without an error. */
  function CommonParams(fp: Fp, obj: Tree): Option<(int, string)> {
    var time := Find(obj, "datetime");
    var sender := Find(obj, "sender");
    if time.None? || sender.None? then None else
    var t := TimePointOf(fp, time.value.data);
    Some((if t.Some? then t.value else 0, sender.value.data))
  }

  function Text(obj: Tree, key: string): Option<string> {
    var child := Find(obj, key);
    if child.None? then None else Some(child.value.data)
  }

  /** A 16-bit code in decimal. */
  function CodeOf(obj: Tree): Option<nat> {
    var child := Find(obj, "code");
    if child.Some? && child.value.data != [] && AllDigits(child.value.data) && Value(child.value.data) < 65536
    then Some(Value(child.value.data)) else None
  }

  function DecodeLoginRequest(fp: Fp, obj: Tree): Decoded {
    var c := CommonParams(fp, obj);
    if c.None? then Thrown else Got(LoginRequest(c.value.0, c.value.1))
  }

  function DecodeMessageRequest(fp: Fp, obj: Tree): Decoded {
    var c := CommonParams(fp, obj);
    var content := Text(obj, "content");
    if c.None? || content.None? then Thrown else Got(MessageRequest(c.value.0, c.value.1, content.value))
  }

  function DecodeLoginResponse(fp: Fp, obj: Tree): Decoded {
    var c := CommonParams(fp, obj);
    var username := Text(obj, "joiningUsername");
    if c.None? || username.None? then Thrown else Got(LoginResponse(c.value.0, c.value.1, username.value))
  }

  function DecodeMessageResponse(fp: Fp, obj: Tree): Decoded {
    var c := CommonParams(fp, obj);
    var content := Text(obj, "content");
    var originator := Text(obj, "originator");
    if c.None? || content.None? || originator.None? then Thrown
    else Got(MessageResponse(c.value.0, c.value.1, originator.value, content.value))
  }

  function DecodeError(fp: Fp, obj: Tree): Decoded {
    var c := CommonParams(fp, obj);
    var code := CodeOf(obj);
    var text := Text(obj, "message");
    var originator := Text(obj, "originator");
    if c.None? || code.None? || text.None? || originator.None? then Thrown
    else Got(ErrorResponse(c.value.0, c.value.1, originator.value, code.value, text.value))
  }

  /** `T::fromJson` of the type the tag names. */
  function Decode(fp: Fp, typeName: string, obj: Tree): Decoded {
    if typeName == LOGIN_REQUEST then DecodeLoginRequest(fp, obj)
    else if typeName == MESSAGE_REQUEST then DecodeMessageRequest(fp, obj)
    else if typeName == LOGIN_RESPONSE then DecodeLoginResponse(fp, obj)
    else if typeName == MESSAGE_RESPONSE then DecodeMessageResponse(fp, obj)
    else if typeName == SERVER_ERROR then DecodeError(fp, obj)
    else Thrown
  }

  // ----- round trips

  /** The message as the other side sees it: the time to the nearest microsecond, the sender as shown. */
  function AsReceived(fp: Fp, m: Instance): Instance
    requires Printable(fp, m)
  {
    m.(time := ComesBackAs(fp, m.time), from := m.Sender())
  }

  lemma TypeNamesDiffer()
    ensures LOGIN_REQUEST != MESSAGE_REQUEST && LOGIN_REQUEST != LOGIN_RESPONSE && LOGIN_REQUEST != MESSAGE_RESPONSE
    ensures LOGIN_REQUEST != SERVER_ERROR && MESSAGE_REQUEST != LOGIN_RESPONSE && MESSAGE_REQUEST != MESSAGE_RESPONSE
    ensures MESSAGE_REQUEST != SERVER_ERROR && LOGIN_RESPONSE != MESSAGE_RESPONSE && LOGIN_RESPONSE != SERVER_ERROR
    ensures MESSAGE_RESPONSE != SERVER_ERROR
  {
    assert |LOGIN_REQUEST| != |MESSAGE_REQUEST|;
  }

  lemma ExtractReadsBack(fp: Fp, m: Instance)
    requires Printable(fp, m)
    ensures ExtractFrom(JsonOf(fp, m)) == Some((TypeName(m), Node([], Properties(fp, m))))
  {
    hide Properties, Printable;
    var json := JsonOf(fp, m);
    FirstIs(json.children, "type", 0);
    FirstIs(json.children, "object", 1);
  }

  lemma CommonReadsBack(fp: Fp, tol: real, m: Instance)
    requires Sound(fp, tol) && Printable(fp, m)
    ensures CommonParams(fp, Node([], Properties(fp, m))) == Some((ComesBackAs(fp, m.time), m.Sender()))
  {
    hide StampText, TimePointOf, ComesBackAs, IndexOf, Sound, NatText;
    var children := Properties(fp, m);
    FirstIs(children, "datetime", 0);
    FirstIs(children, "sender", 1);
    PrintedIsRead(fp, tol, m.time, 0);
  }

  lemma TextReadsBack(fp: Fp, m: Instance, key: string, i: nat)
    requires Printable(fp, m) && i < |Properties(fp, m)| && Properties(fp, m)[i].0 == key
    requires forall j :: 0 <= j < i ==> Properties(fp, m)[j].0 != key
    ensures Text(Node([], Properties(fp, m)), key) == Some(Properties(fp, m)[i].1.data)
    ensures Find(Node([], Properties(fp, m)), key) == Some(Properties(fp, m)[i].1)
  {
    hide Properties;
    FirstIs(Properties(fp, m), key, i);
  }

  /** Every message type survives encoding, extraction and decoding. */
  lemma CodecRoundTrip(fp: Fp, tol: real, m: Instance)
    requires Sound(fp, tol) && Printable(fp, m)
    ensures ExtractFrom(JsonOf(fp, m)) == Some((TypeName(m), Node([], Properties(fp, m))))
    ensures Decode(fp, TypeName(m), Node([], Properties(fp, m))) == Got(AsReceived(fp, m))
  {
    hide *;
    ExtractReadsBack(fp, m);
    CommonReadsBack(fp, tol, m);
    var obj := Node([], Properties(fp, m));
    DecodeByType(fp, m, obj);
    PropertiesReadBack(fp, m);
    DecodeFromProperties(fp, m, obj);
  }

  /** The decoder the type name selects. */
  function DecodeAs(fp: Fp, m: Instance, obj: Tree): Decoded {
    match m
    case LoginRequest(_, _) => DecodeLoginRequest(fp, obj)
    case MessageRequest(_, _, _) => DecodeMessageRequest(fp, obj)
    case LoginResponse(_, _, _) => DecodeLoginResponse(fp, obj)
    case MessageResponse(_, _, _, _) => DecodeMessageResponse(fp, obj)
    case ErrorResponse(_, _, _, _, _) => DecodeError(fp, obj)
  }

  lemma DecodeByType(fp: Fp, m: Instance, obj: Tree)
    ensures Decode(fp, TypeName(m), obj) == DecodeAs(fp, m, obj)
  {
    TypeNamesDiffer();
    hide DecodeLoginRequest, DecodeMessageRequest, DecodeLoginResponse, DecodeMessageResponse, DecodeError;
    hide LOGIN_REQUEST, MESSAGE_REQUEST, LOGIN_RESPONSE, MESSAGE_RESPONSE, SERVER_ERROR;
  }

  /** The properties beyond time and sender, as the decoder looks them up. */
  predicate HasProperties(m: Instance, obj: Tree) {
    match m
    case LoginRequest(_, _) => true
    case MessageRequest(_, _, content) => Text(obj, "content") == Some(content)
    case LoginResponse(_, _, username) => Text(obj, "joiningUsername") == Some(username)
    case MessageResponse(_, _, originator, content) =>
      Text(obj, "originator") == Some(originator) && Text(obj, "content") == Some(content)
    case ErrorResponse(_, _, originator, code, text) =>
      CodeOf(obj) == Some(code) && Text(obj, "message") == Some(text) && Text(obj, "originator") == Some(originator)
  }

  lemma PropertiesReadBack(fp: Fp, m: Instance)
    requires Printable(fp, m)
    ensures HasProperties(m, Node([], Properties(fp, m)))
  {
    hide StampText, InRange, IntoMinute, IndexOf, Find, Text, NatText, Value;
    match m {
      case LoginRequest(_, _) =>
      case MessageRequest(_, _, _) =>
        TextReadsBack(fp, m, "content", 2);
      case LoginResponse(_, _, _) =>
        TextReadsBack(fp, m, "joiningUsername", 2);
      case MessageResponse(_, _, _, _) =>
        TextReadsBack(fp, m, "originator", 2);
        TextReadsBack(fp, m, "content", 3);
      case ErrorResponse(_, _, _, code, _) =>
        TextReadsBack(fp, m, "code", 2);
        TextReadsBack(fp, m, "message", 3);
        TextReadsBack(fp, m, "originator", 4);
        NatTextValue(code);
    }
  }

  lemma DecodeFromProperties(fp: Fp, m: Instance, obj: Tree)
    requires Printable(fp, m) && HasProperties(m, obj)
    requires CommonParams(fp, obj) == Some((ComesBackAs(fp, m.time), m.Sender()))
    ensures DecodeAs(fp, m, obj) == Got(AsReceived(fp, m))
  {
    hide CommonParams, ComesBackAs, Text, CodeOf;
  }

  /** The accessors of the decoded message: everything but the time exactly, the time within a microsecond. */
  lemma AccessorsKept(fp: Fp, tol: real, m: Instance)
    requires Sound(fp, tol) && Printable(fp, m)
    ensures var m' := AsReceived(fp, m);
            && TypeName(m') == TypeName(m) && m'.Sender() == m.Sender()
            && -1000 < m'.time - m.time < 1000 && (tol <= 1.0 ==> -500 <= m'.time - m.time <= 500)
            && (m.time % 1000 == 0 ==> m'.time == m.time)
            && m'.(time := m.time, from := m.from) == m
  {
    RoundTripLoss(fp, tol, m.time);
    hide ComesBackAs;
  }
}
