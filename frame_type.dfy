/** The nine STOMP frame kinds and their canonical names
    (`client/include/FrameType.h`). */
module FrameTypes {
  import opened Wrappers

  datatype FrameType =
    | CONNECT | CONNECTED | SEND | SUBSCRIBE | UNSUBSCRIBE
    | DISCONNECT | MESSAGE | RECEIPT | ERROR

  /** `frameTypeToString`: the canonical name, which is the wire text of the
      frame's first line. No name is empty or holds a newline or a colon, so
      a name line can never be mistaken for the blank line that ends the
      headers, nor split into a header. */
  function ToString(t: FrameType): (s: string)
    ensures s != [] && '\n' !in s && ':' !in s
  {
    match t
    case CONNECT => "CONNECT"
    case CONNECTED => "CONNECTED"
    case SEND => "SEND"
    case SUBSCRIBE => "SUBSCRIBE"
    case UNSUBSCRIBE => "UNSUBSCRIBE"
    case DISCONNECT => "DISCONNECT"
    case MESSAGE => "MESSAGE"
    case RECEIPT => "RECEIPT"
    case ERROR => "ERROR"
  }

  /** `stringToFrameType`: the kind whose name is exactly `s`; `None` stands
      for the `runtime_error` it throws on any other text. */
  function FromString(s: string): (r: Option<FrameType>)
    ensures r.Some? ==> ToString(r.value) == s
  {
    if s == "CONNECT" then Some(CONNECT)
    else if s == "CONNECTED" then Some(CONNECTED)
    else if s == "SEND" then Some(SEND)
    else if s == "SUBSCRIBE" then Some(SUBSCRIBE)
    else if s == "UNSUBSCRIBE" then Some(UNSUBSCRIBE)
    else if s == "DISCONNECT" then Some(DISCONNECT)
    else if s == "MESSAGE" then Some(MESSAGE)
    else if s == "RECEIPT" then Some(RECEIPT)
    else if s == "ERROR" then Some(ERROR)
    else None
  }

  /** Every kind survives the trip through its name. */
  lemma FromStringOfToString(t: FrameType)
    ensures FromString(ToString(t)) == Some(t)
  {
  }

  /** Every text that is not one of the nine names is rejected. */
  lemma FromStringRejects(s: string)
    ensures FromString(s).None? <==> forall t :: ToString(t) != s
  {
    if FromString(s).None? {
      forall t ensures ToString(t) != s {
        FromStringOfToString(t);
      }
    }
  }

  /** The nine names are pairwise distinct. */
  lemma ToStringInjective(a: FrameType, b: FrameType)
    ensures ToString(a) == ToString(b) ==> a == b
  {
    FromStringOfToString(a);
    FromStringOfToString(b);
  }
}
