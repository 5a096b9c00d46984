/** The profiler's stack-walk failure taxonomy: the twelve `ticks_*` codes a failed
    AsyncGetCallTrace walk reports in place of a frame count, and the `_failures` counter
    slots they are tallied in. */
module Ticks {
  import opened Machine

  /** Number of failure kinds, and the length of the `_failures` counter array. */
  const FAILURE_TYPES: nat := 12

  datatype TickCode =
    | NoJavaFrame
    | NoClassLoad
    | GcActive
    | UnknownNotJava
    | NotWalkableNotJava
    | UnknownJava
    | NotWalkableJava
    | UnknownState
    | ThreadExit
    | Deopt
    | Safepoint
    | Skipped

  /** The enumerator value of each code: 0 down to -11; its negation is the code's slot in
      the failure counters. */
  function Value(t: TickCode): (v: int)
    ensures -(FAILURE_TYPES as int) < v <= 0
  {
    match t
    case NoJavaFrame => 0
    case NoClassLoad => -1
    case GcActive => -2
    case UnknownNotJava => -3
    case NotWalkableNotJava => -4
    case UnknownJava => -5
    case NotWalkableJava => -6
    case UnknownState => -7
    case ThreadExit => -8
    case Deopt => -9
    case Safepoint => -10
    case Skipped => -11
  }

  /** Reads a walk result back as a failure code: defined exactly on 0..-11. */
  function FromValue(v: int): (r: Option<TickCode>)
    ensures r.Some? <==> -(FAILURE_TYPES as int) < v <= 0
    ensures r.Some? ==> Value(r.value) == v
  {
    if v == 0 then Some(NoJavaFrame)
    else if v == -1 then Some(NoClassLoad)
    else if v == -2 then Some(GcActive)
    else if v == -3 then Some(UnknownNotJava)
    else if v == -4 then Some(NotWalkableNotJava)
    else if v == -5 then Some(UnknownJava)
    else if v == -6 then Some(NotWalkableJava)
    else if v == -7 then Some(UnknownState)
    else if v == -8 then Some(ThreadExit)
    else if v == -9 then Some(Deopt)
    else if v == -10 then Some(Safepoint)
    else if v == -11 then Some(Skipped)
    else None
  }

  /** Reading a code's value back gives the same code. */
  lemma FromValueOfValue(t: TickCode)
    ensures FromValue(Value(t)) == Some(t)
  {
  }

  /** The twelve codes carry pairwise distinct values. */
  lemma ValuesDistinct(t1: TickCode, t2: TickCode)
    ensures Value(t1) == Value(t2) <==> t1 == t2
  {
    FromValueOfValue(t1);
    FromValueOfValue(t2);
  }

  /** The counter slot a code is tallied in: its negated value. */
  function FailureSlot(t: TickCode): (i: nat)
    ensures i < FAILURE_TYPES
  {
    -Value(t)
  }

  /** Distinct codes are tallied in distinct slots. */
  lemma SlotsDistinct(t1: TickCode, t2: TickCode)
    ensures FailureSlot(t1) == FailureSlot(t2) <==> t1 == t2
  {
    ValuesDistinct(t1, t2);
  }

  /** Every one of the FAILURE_TYPES slots belongs to some code, so the twelve codes fill the
      failure counters exactly. */
  lemma SlotHasCode(i: nat)
    requires i < FAILURE_TYPES
    ensures exists t :: FailureSlot(t) == i
  {
    var t := FromValue(-(i as int)).value;
    assert FailureSlot(t) == i;
  }
}
