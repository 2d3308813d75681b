/** The raw event a sensor publishes, as the listener hands it to the analyzer. */
module Events {
  import opened Text

  /**
   * ProcessEvent(label, payload, qos, receivedAt); `label` is a Dafny keyword,
   * so the field is called eventLabel. The arrival instant is
   * kept as epoch milliseconds.
   */
  datatype ProcessEvent = ProcessEvent(eventLabel: string, payload: string, qos: int, receivedAt: int)

  /** Text of an arrival instant; decimal milliseconds stand in for Instant.toString. */
  function InstantText(t: int): (r: string)
    ensures r != []
    ensures forall i :: 0 <= i < |r| ==> IsDigit(r[i]) || r[i] == '-'
  {
    IntText(t)
  }
}
