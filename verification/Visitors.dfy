/** Dispatch of a received tree on its type tag, on the server. */
module Visitors {
  import opened Timestamp
  import opened Messages

  datatype Handler = OnLogin | OnMessage

  /** What one visit comes to: a visit method called, an error reply asked for, or an exception. */
  datatype Outcome = LoginVisited(m: Instance) | MessageVisited(m: Instance) | NoType | BadObject | Propagated

  const HANDLERS: map<string, Handler> := map[LOGIN_REQUEST := OnLogin, MESSAGE_REQUEST := OnMessage]

  function Handle(fp: Fp, h: Handler, obj: Tree): Outcome {
    match h
    case OnLogin => (
      match DecodeLoginRequest(fp, obj)
      case Got(m) => LoginVisited(m)
      case Null => BadObject
      case Thrown => Propagated)
    case OnMessage => (
      match DecodeMessageRequest(fp, obj)
      case Got(m) => MessageVisited(m)
      case Null => BadObject
      case Thrown => Propagated)
  }

  function RequestOutcome(fp: Fp, json: Tree): Outcome {
    var params := ExtractFrom(json);
    if params.None? || params.value.0 !in HANDLERS then NoType
    else Handle(fp, HANDLERS[params.value.0], params.value.1)
  }

  /** The visitor the server derives from. */
  class RequestVisitor {
    var propMap: map<string, Handler>

    constructor ()
      ensures propMap == HANDLERS
    {
      TypeNamesDiffer();
      propMap := map[];
      new;
      propMap := propMap[LOGIN_REQUEST := OnLogin];
      propMap := propMap[MESSAGE_REQUEST := OnMessage];
    }

    method Visit(fp: Fp, json: Tree) returns (o: Outcome)
      requires propMap == HANDLERS
      ensures o == RequestOutcome(fp, json)
    {
      var params := ExtractFrom(json);
      if params.None? {
        return NoType;
      }
      var (typ, obj) := params.value;
      if typ in propMap {
        return Handle(fp, propMap[typ], obj);
      }
      return NoType;
    }
  }

  /** Every request the codec writes reaches the visit method of its type, with that request. */
  lemma RequestsDispatch(fp: Fp, tol: real, m: Instance)
    requires Sound(fp, tol) && Printable(fp, m)
    ensures m.LoginRequest? ==> RequestOutcome(fp, JsonOf(fp, m)) == LoginVisited(AsReceived(fp, m))
    ensures m.MessageRequest? ==> RequestOutcome(fp, JsonOf(fp, m)) == MessageVisited(AsReceived(fp, m))
    ensures !m.LoginRequest? && !m.MessageRequest? ==> RequestOutcome(fp, JsonOf(fp, m)) == NoType
  {
    hide JsonOf, Decode, AsReceived, Sound, Printable, Properties, ExtractFrom, DecodeLoginRequest, DecodeMessageRequest;
    CodecRoundTrip(fp, tol, m);
    TypeNamesDiffer();
    DecodeByType(fp, m, Node([], Properties(fp, m)));
    hide LOGIN_REQUEST, MESSAGE_REQUEST, LOGIN_RESPONSE, MESSAGE_RESPONSE, SERVER_ERROR;
  }

  /**
    Over all trees: the no-type error is exactly for a missing tag, a missing object or an unknown tag;
    the bad-object error never happens; a known tag with a property missing is an exception.
   */
  lemma OutcomeByShape(fp: Fp, json: Tree)
    ensures var (typ, obj) := (Text(json, "type"), Find(json, "object"));
            var known := typ.Some? && obj.Some? && typ.value in {LOGIN_REQUEST, MESSAGE_REQUEST};
            && (RequestOutcome(fp, json) == NoType <==> !known)
            && RequestOutcome(fp, json) != BadObject
            && (RequestOutcome(fp, json) == Propagated <==>
                  known && (|| Text(obj.value, "datetime").None? || Text(obj.value, "sender").None?
                            || (typ.value == MESSAGE_REQUEST && Text(obj.value, "content").None?)))
  {
    TypeNamesDiffer();
    hide Find, TimePointOf, LOGIN_REQUEST, MESSAGE_REQUEST;
  }
}
