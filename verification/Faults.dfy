/** How an awaited step can go wrong in a process that may stop anywhere. */
module Faults {
  import opened Prelude

  /** How an awaited step fails: the process stops, the step reports an error, something cannot be read back, or it refuses. */
  datatype Fault = Crashed | IoFailed | Unread | Refused

  /** Let a step fail or be the last one, where that is possible at all. */
  method Disturb(faulty: bool) returns (o: Outcome<Fault>)
    ensures !faulty ==> o.Pass?
    ensures o.Fail? ==> o.error == Crashed || o.error == IoFailed
  {
    o := Pass;
    if faulty {
      if * {
        o := Fail(Crashed);
      } else if * {
        o := Fail(IoFailed);
      }
    }
  }

  /** The same for reading back what an earlier step may have written. */
  method DisturbRead(faulty: bool) returns (o: Outcome<Fault>)
    ensures !faulty ==> o.Pass?
    ensures o.Fail? ==> o.error == Crashed || o.error == Unread
  {
    o := Disturb(faulty);
    if o == Fail(IoFailed) {
      o := Fail(Unread);
    }
  }
}
