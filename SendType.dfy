/** The kind of a telemetry record (SendType.java): a two-constant enum carrying a type name and a description. */
module SendType {
  import opened Wrappers

  datatype SendType = DATA | SHUTDOWN {

    /** getType(): the type string given in the constant's declaration. */
    function GetType(): (s: string)
      ensures s == "DATA" || s == "SHUTDOWN"
      ensures (s == "DATA") == DATA?
    {
      match this
      case DATA => "DATA"
      case SHUTDOWN => "SHUTDOWN"
    }

    /** getDesc(): the description given in the constant's declaration, which is never the type string. */
    function GetDesc(): (d: string)
      ensures d == "데이터 전송" || d == "디바이스 셧다운"
      ensures (d == "데이터 전송") == DATA?
      ensures d != GetType()
    {
      match this
      case DATA => "데이터 전송"
      case SHUTDOWN => "디바이스 셧다운"
    }
  }

  /** The constant whose type string is s, if any. */
  function FromType(s: string): (r: Option<SendType>)
    ensures r.Some? ==> r.value.GetType() == s
    ensures r.None? ==> forall t: SendType :: t.GetType() != s
  {
    if s == "DATA" then Some(DATA)
    else if s == "SHUTDOWN" then Some(SHUTDOWN)
    else None
  }

  /** The type string identifies the constant: reading it back gives the constant. */
  lemma TypeRoundTrip(t: SendType)
    ensures FromType(t.GetType()) == Some(t)
  {
  }

  /** The type and description strings are those of the declarations, and they tell the constants apart. */
  lemma TypesDistinct()
    ensures DATA.GetType() == "DATA" && SHUTDOWN.GetType() == "SHUTDOWN"
    ensures DATA.GetDesc() == "데이터 전송" && SHUTDOWN.GetDesc() == "디바이스 셧다운"
    ensures DATA.GetType() != SHUTDOWN.GetType()
    ensures DATA.GetDesc() != SHUTDOWN.GetDesc()
  {
  }

  /** The enum has exactly the two constants DATA and SHUTDOWN. */
  lemma ExactlyTwoConstants(t: SendType)
    ensures t == DATA || t == SHUTDOWN
  {
  }
}
