/**
 * The hang detector: a verdict over two snapshots of the watched process's
 * threads, together with the baseline the monitor should keep for the next
 * comparison (none, or the current snapshot).
 */
module HangDetector {
  import opened Types

  /** Every thread is in interruptible sleep ('S'). */
  predicate AllSleeping(s: Snapshot) {
    forall i :: 0 <= i < |s| ==> s[i].state == 'S'
  }

  /**
   * `after > before + 1` with the addition done in unsigned long, which wraps
   * to 0 when `before` is ULONG_MAX.
   */
  predicate Advanced(before: ulong, after: ulong) {
    after > (before + 1) % ULONG_MODULUS
  }

  /** The same thread sits at this index and neither of its clocks moved by more than a tick. */
  predicate Idle(old_state: ThreadState, new_state: ThreadState) {
    old_state.pid == new_state.pid
    && !Advanced(old_state.utime, new_state.utime)
    && !Advanced(old_state.stime, new_state.stime)
  }

  /** Position by position, every thread of `current` is idle relative to `previous`. */
  predicate NoProgress(previous: Snapshot, current: Snapshot)
    requires |previous| == |current|
  {
    forall i :: 0 <= i < |current| ==> Idle(previous[i], current[i])
  }

  /** The detector's two results: the verdict and the baseline to keep (NULL is None). */
  datatype Verdict = Verdict(hung: bool, next: Option<ListRef>)

  /**
   * process_looks_hung: any thread awake drops the baseline; with no
   * comparable baseline the current snapshot becomes it; any progress drops
   * it; otherwise the process looks hung and the current snapshot is kept.
   */
  function LooksHung(previous: Option<ListRef>, current: ListRef): Verdict {
    if !AllSleeping(current.states) then Verdict(false, None)
    else if previous.None? || |previous.value.states| != |current.states| then Verdict(false, Some(current))
    else if !NoProgress(previous.value.states, current.states) then Verdict(false, None)
    else Verdict(true, Some(current))
  }

  /**
   * process_looks_hung as the source writes it: a scan for a thread that is
   * not sleeping, the baseline check, then a positional scan for progress.
   */
  method ProcessLooksHung(previous: Option<ListRef>, current: ListRef) returns (hung: bool, next: Option<ListRef>)
    ensures Verdict(hung, next) == LooksHung(previous, current)
  {
    var states := current.states;
    var i := 0;
    while i < |states|
      invariant 0 <= i <= |states|
      invariant forall j :: 0 <= j < i ==> states[j].state == 'S'
    {
      if states[i].state != 'S' {
        return false, None;
      }
      i := i + 1;
    }
    if previous.None? || |previous.value.states| != |states| {
      return false, Some(current);
    }
    var olds := previous.value.states;
    i := 0;
    while i < |states|
      invariant 0 <= i <= |states|
      invariant forall j :: 0 <= j < i ==> Idle(olds[j], states[j])
    {
      var old_state, new_state := olds[i], states[i];
      if old_state.pid != new_state.pid
         || new_state.utime > (old_state.utime + 1) % ULONG_MODULUS
         || new_state.stime > (old_state.stime + 1) % ULONG_MODULUS
      {
        return false, None;
      }
      i := i + 1;
    }
    return true, Some(current);
  }

  /** The baseline handed back is never anything but NULL or the current snapshot. */
  lemma NextIsNoneOrCurrent(previous: Option<ListRef>, current: ListRef)
    ensures var v := LooksHung(previous, current);
      v.next == None || v.next == Some(current)
  {
  }

  /** A thread that is not sleeping: not hung, and the baseline is dropped. */
  lemma AwakeThreadDropsBaseline(previous: Option<ListRef>, current: ListRef, i: int)
    requires 0 <= i < |current.states| && current.states[i].state != 'S'
    ensures LooksHung(previous, current) == Verdict(false, None)
  {
  }

  /** With no baseline, or one of another length, a sleeping snapshot becomes the baseline. */
  lemma NoComparableBaseline(previous: Option<ListRef>, current: ListRef)
    requires AllSleeping(current.states)
    requires previous.None? || |previous.value.states| != |current.states|
    ensures LooksHung(previous, current) == Verdict(false, Some(current))
  {
  }

  /** The first sample, with no baseline, is never hung. */
  lemma FirstSampleNeverHung(current: ListRef)
    ensures !LooksHung(None, current).hung
  {
  }

  /**
   * Hung exactly when all threads sleep, the lengths match and every thread
   * at the same index has the same pid and advanced at most a tick in each clock;
   * and then the current snapshot becomes the baseline.
   */
  lemma HungIff(previous: Option<ListRef>, current: ListRef)
    ensures LooksHung(previous, current).hung <==>
      AllSleeping(current.states) && previous.Some?
      && |previous.value.states| == |current.states|
      && NoProgress(previous.value.states, current.states)
    ensures LooksHung(previous, current).hung ==> LooksHung(previous, current).next == Some(current)
  {
  }

  /** A different pid at some index, or a clock that moved by more than a tick, is progress. */
  lemma ProgressDropsBaseline(previous: ListRef, current: ListRef, i: int)
    requires AllSleeping(current.states) && |previous.states| == |current.states|
    requires 0 <= i < |current.states|
    requires previous.states[i].pid != current.states[i].pid
      || Advanced(previous.states[i].utime, current.states[i].utime)
      || Advanced(previous.states[i].stime, current.states[i].stime)
    ensures LooksHung(Some(previous), current) == Verdict(false, None)
  {
  }

  /** Away from the top of the counter range, "advanced" means by more than one tick. */
  lemma AdvancedWithoutWrap(before: ulong, after: ulong)
    requires before < ULONG_MAX
    ensures Advanced(before, after) <==> after > before + 1
  {
  }

  /**
   * At ULONG_MAX the unsigned `before + 1` wraps to 0, so any nonzero later
   * reading counts as progress, even the counter staying where it was.
   */
  lemma AdvancedAtWrap(after: ulong)
    ensures Advanced(ULONG_MAX, after) <==> after != 0
  {
  }

  /** Clocks that go backwards never count as progress. */
  lemma DecreaseIsIdle(before: ulong, after: ulong)
    requires after <= before < ULONG_MAX
    ensures !Advanced(before, after)
  {
  }

  /** Two empty snapshots: vacuously all asleep and idle, so hung. */
  lemma EmptySnapshotsHung(a: nat, b: nat)
    ensures LooksHung(Some(ListRef(a, [])), ListRef(b, [])) == Verdict(true, Some(ListRef(b, [])))
  {
  }

  /** A counter below the top of its range: one tick more does not wrap. */
  predicate BelowTop(s: Snapshot) {
    forall i :: 0 <= i < |s| ==> s[i].utime < ULONG_MAX && s[i].stime < ULONG_MAX
  }

  /** Comparing a sleeping snapshot with an identical one is always a hang. */
  lemma SelfComparisonHung(previous: ListRef, current: ListRef)
    requires previous.states == current.states
    requires AllSleeping(current.states) && BelowTop(current.states)
    ensures LooksHung(Some(previous), current) == Verdict(true, Some(current))
  {
  }

  /** Counters of the test fixtures: three sleeping threads. */
  const ThreeSleeping: Snapshot := [
    ThreadState(10007, 'S', 3217, 3259),
    ThreadState(10009, 'S', 6733, 5333),
    ThreadState(10037, 'S', 0, 0)]

  /** test_previous_is_null_next_sleeping */
  lemma NoPreviousKeepsCurrent()
    ensures LooksHung(None, ListRef(1, ThreeSleeping)) == Verdict(false, Some(ListRef(1, ThreeSleeping)))
  {
  }

  /** test_next_not_sleeping: the middle thread is running */
  lemma OneAwake()
    ensures var c := ThreeSleeping[1 := ThreadState(10009, 'R', 6733, 5333)];
      LooksHung(Some(ListRef(0, ThreeSleeping)), ListRef(1, c)) == Verdict(false, None)
  {
    var c := ThreeSleeping[1 := ThreadState(10009, 'R', 6733, 5333)];
    AwakeThreadDropsBaseline(Some(ListRef(0, ThreeSleeping)), ListRef(1, c), 1);
  }

  /** test_all_sleeping_different_length: a fourth thread appeared */
  lemma ThreadAppeared()
    ensures var c := ThreeSleeping + [ThreadState(10039, 'S', 0, 0)];
      LooksHung(Some(ListRef(0, ThreeSleeping)), ListRef(1, c)) == Verdict(false, Some(ListRef(1, c)))
  {
  }

  /** test_times_increment_by_only_one: every clock moved by exactly one tick */
  lemma IncrementByOneIsHung()
    ensures var c := [
        ThreadState(10007, 'S', 3218, 3260),
        ThreadState(10009, 'S', 6734, 5334),
        ThreadState(10037, 'S', 1, 1)];
      LooksHung(Some(ListRef(0, ThreeSleeping)), ListRef(1, c)) == Verdict(true, Some(ListRef(1, c)))
  {
  }

  /** test_sleeping_times_increment_by_17: one system clock moved by 17 ticks */
  lemma IncrementBy17IsProgress()
    ensures var c := ThreeSleeping[2 := ThreadState(10037, 'S', 1, 17)];
      LooksHung(Some(ListRef(0, ThreeSleeping)), ListRef(1, c)) == Verdict(false, None)
  {
    var c := ThreeSleeping[2 := ThreadState(10037, 'S', 1, 17)];
    ProgressDropsBaseline(ListRef(0, ThreeSleeping), ListRef(1, c), 2);
  }
}
