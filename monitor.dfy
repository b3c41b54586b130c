/**
 * monitor_child_for_hang: while the child exists, sleep, take a snapshot of
 * its threads, ask the hang detector, and escalate SIGTERM then SIGKILL over
 * consecutive hung verdicts, keeping at most one snapshot as the baseline and
 * releasing every other one.
 */
module Monitor {
  import opened Types
  import opened HangDetector

  /**
   * The operating system as the monitor sees it. The child answers the
   * existence probe while there is a snapshot left in `script`; the k-th
   * get_states call returns the list at address k holding `script[k]`.
   * Everything the monitor does to the world is recorded.
   */
  class Env {
    const script: seq<Snapshot>
    var probes: nat
    var gets: nat
    var sleeps: seq<nat>
    var sent: seq<Signal>
    var freed: seq<nat>

    constructor (script: seq<Snapshot>)
      ensures this.script == script
      ensures probes == 0 && gets == 0 && sleeps == [] && sent == [] && freed == []
    {
      this.script := script;
      probes, gets := 0, 0;
      sleeps, sent, freed := [], [], [];
    }

    /** kill(pid, 0): 0 while the child exists, -1 once it is gone */
    method Probe() returns (r: int)
      modifies this
      ensures r == (if old(gets) < |script| then 0 else -1)
      ensures probes == old(probes) + 1
      ensures gets == old(gets) && sleeps == old(sleeps) && sent == old(sent) && freed == old(freed)
    {
      probes := probes + 1;
      r := if gets < |script| then 0 else -1;
    }

    /** sleep(seconds) */
    method Sleep(seconds: nat)
      modifies this
      ensures sleeps == old(sleeps) + [seconds]
      ensures probes == old(probes) && gets == old(gets) && sent == old(sent) && freed == old(freed)
    {
      sleeps := sleeps + [seconds];
    }

    /** get_states: a fresh list; empty once the child's threads are gone */
    method GetStates() returns (l: ListRef)
      modifies this
      ensures l == ListRef(old(gets), if old(gets) < |script| then script[old(gets)] else [])
      ensures gets == old(gets) + 1
      ensures probes == old(probes) && sleeps == old(sleeps) && sent == old(sent) && freed == old(freed)
    {
      l := ListRef(gets, if gets < |script| then script[gets] else []);
      gets := gets + 1;
    }

    /** free_states: NULL is ignored, a list is recorded by address */
    method FreeStates(l: Option<ListRef>)
      modifies this
      ensures freed == old(freed) + (if l.Some? then [l.value.addr] else [])
      ensures probes == old(probes) && gets == old(gets) && sleeps == old(sleeps) && sent == old(sent)
    {
      if l.Some? {
        freed := freed + [l.value.addr];
      }
    }

    /** kill(pid, sig) with a real signal: delivered, returns 0 */
    method Kill(sig: Signal) returns (r: int)
      modifies this
      ensures r == 0 && sent == old(sent) + [sig]
      ensures probes == old(probes) && gets == old(gets) && sleeps == old(sleeps) && freed == old(freed)
    {
      sent := sent + [sig];
      r := 0;
    }
  }

  /** The two variables the loop carries: hang_count and the retained thread_states. */
  datatype MonitorState = MonitorState(hangCount: nat, baseline: Option<ListRef>)

  /** One comparison: count a hung verdict, reset on anything else; keep what the detector hands back. */
  function Next(s: MonitorState, current: ListRef): MonitorState {
    var v := LooksHung(s.baseline, current);
    MonitorState(if v.hung then s.hangCount + 1 else 0, v.next)
  }

  /** The list returned by the k-th get_states call. */
  function Sample(script: seq<Snapshot>, k: nat): ListRef
    requires k < |script|
  {
    ListRef(k, script[k])
  }

  /** The loop state after the first k iterations. */
  function Run(script: seq<Snapshot>, k: nat): MonitorState
    requires k <= |script|
  {
    if k == 0 then MonitorState(0, None) else Next(Run(script, k - 1), Sample(script, k - 1))
  }

  /** The verdict of iteration k. */
  predicate HungAt(script: seq<Snapshot>, k: nat)
    requires k < |script|
  {
    LooksHung(Run(script, k).baseline, Sample(script, k)).hung
  }

  /** The escalation rule: SIGTERM while the count is at most max_hangs, SIGKILL after. */
  function Escalation(hangCount: nat, maxHangs: nat): Signal {
    if hangCount <= maxHangs then SIGTERM else SIGKILL
  }

  /** The signals sent by the first k iterations, in order. */
  function SignalsUpTo(script: seq<Snapshot>, k: nat, maxHangs: nat): seq<Signal>
    requires k <= |script|
  {
    if k == 0 then []
    else (SignalsUpTo(script, k - 1, maxHangs)
          + if HungAt(script, k - 1) then [Escalation(Run(script, k).hangCount, maxHangs)] else [])
  }

  /** The sleeps of the first k iterations: the interval, then the short yield after a signal. */
  function SleepsUpTo(script: seq<Snapshot>, k: nat, interval: nat, yieldSeconds: nat): seq<nat>
    requires k <= |script|
  {
    if k == 0 then []
    else (SleepsUpTo(script, k - 1, interval, yieldSeconds)
          + [interval] + if HungAt(script, k - 1) then [yieldSeconds] else [])
  }

  /** Each of the addresses 0 .. n-1 once. */
  function Ids(n: nat): multiset<nat> {
    if n == 0 then multiset{} else Ids(n - 1) + multiset{n - 1}
  }

  function Held(l: Option<ListRef>): multiset<nat> {
    if l.Some? then multiset{l.value.addr} else multiset{}
  }

  /** The retained baseline, when there is one, is the latest snapshot. */
  lemma {:induction false} BaselineIsLatest(script: seq<Snapshot>, k: nat)
    requires k <= |script|
    ensures Run(script, k).baseline.Some? ==> k > 0 && Run(script, k).baseline.value == Sample(script, k - 1)
  {
    if k > 0 {
      NextIsNoneOrCurrent(Run(script, k - 1).baseline, Sample(script, k - 1));
    }
  }

  /**
   * One pass of the monitor's loop body: sleep the interval, sample, ask the
   * detector, signal and yield on a hung verdict, then release the previous
   * baseline and the current list unless it was retained.
   */
  method CheckOnce(env: Env, hangCount: nat, threadStates: Option<ListRef>,
                   maxHangs: nat, interval: nat, yieldSeconds: nat)
    returns (hangCount': nat, threadStates': Option<ListRef>)
    requires env.gets < |env.script|
    requires threadStates.Some? ==> threadStates.value.addr < env.gets
    modifies env
    ensures var current := Sample(env.script, old(env.gets));
      var v := LooksHung(threadStates, current);
      MonitorState(hangCount', threadStates') == Next(MonitorState(hangCount, threadStates), current)
      && env.sent == old(env.sent) + (if v.hung then [Escalation(hangCount', maxHangs)] else [])
      && env.sleeps == old(env.sleeps) + [interval] + (if v.hung then [yieldSeconds] else [])
    ensures multiset(env.freed) + Held(threadStates') == multiset(old(env.freed)) + Held(threadStates) + multiset{old(env.gets)}
    ensures env.gets == old(env.gets) + 1 && env.probes == old(env.probes)
  {
    env.Sleep(interval);
    var previous := threadStates;
    var current := env.GetStates();
    var hung;
    hung, threadStates' := ProcessLooksHung(previous, current);
    if hung {
      hangCount' := hangCount + 1;
      var sig := if hangCount' <= maxHangs then SIGTERM else SIGKILL;
      var _ := env.Kill(sig);
      env.Sleep(yieldSeconds);
    } else {
      hangCount' := 0;
    }
    env.FreeStates(previous);
    NextIsNoneOrCurrent(previous, current);
    if threadStates' != Some(current) {
      env.FreeStates(Some(current));
    }
  }

  /**
   * monitor_child_for_hang over the environment. `yieldSeconds` is the
   * sleep after a signal: 0 in src/yoyo.c, 1 in yoyo.c.
   */
  method MonitorChildForHang(env: Env, maxHangs: nat, interval: nat, yieldSeconds: nat)
    requires env.probes == 0 && env.gets == 0
    requires env.sleeps == [] && env.sent == [] && env.freed == []
    modifies env
    ensures env.probes == |env.script| + 1 && env.gets == |env.script|
    ensures env.sent == SignalsUpTo(env.script, |env.script|, maxHangs)
    ensures env.sleeps == SleepsUpTo(env.script, |env.script|, interval, yieldSeconds)
    ensures multiset(env.freed) == Ids(|env.script|)
  {
    var hangCount: nat := 0;
    var threadStates: Option<ListRef> := None;
    var alive := env.Probe();
    while alive == 0
      invariant env.gets <= |env.script|
      invariant env.probes == env.gets + 1
      invariant alive == 0 <==> env.gets < |env.script|
      invariant MonitorState(hangCount, threadStates) == Run(env.script, env.gets)
      invariant env.sent == SignalsUpTo(env.script, env.gets, maxHangs)
      invariant env.sleeps == SleepsUpTo(env.script, env.gets, interval, yieldSeconds)
      invariant multiset(env.freed) + Held(threadStates) == Ids(env.gets)
      decreases |env.script| - env.gets
    {
      BaselineIsLatest(env.script, env.gets);
      hangCount, threadStates := CheckOnce(env, hangCount, threadStates, maxHangs, interval, yieldSeconds);
      alive := env.Probe();
    }
    env.FreeStates(threadStates);
  }

  /** The count after k iterations is the length of the run of hung verdicts that ends there. */
  lemma {:induction false} HangCountIsRunLength(script: seq<Snapshot>, k: nat)
    requires k <= |script|
    ensures var h := Run(script, k).hangCount;
      h <= k
      && (forall j :: k - h <= j < k ==> HungAt(script, j))
      && (h < k ==> !HungAt(script, k - h - 1))
  {
    if k > 0 {
      HangCountIsRunLength(script, k - 1);
    }
  }

  /** The first iteration has no baseline, so it never signals. */
  lemma FirstIterationSilent(script: seq<Snapshot>, maxHangs: nat)
    requires |script| >= 1
    ensures !HungAt(script, 0)
    ensures SignalsUpTo(script, 1, maxHangs) == []
  {
  }

  /** The escalation sent at the i-th consecutive hung verdict (counting from 0). */
  function EscalationRun(m: nat, maxHangs: nat): (r: seq<Signal>)
    ensures |r| == m
  {
    seq(m, i requires 0 <= i < m => if i < maxHangs then SIGTERM else SIGKILL)
  }

  /**
   * A run of m hung verdicts starting from a zero count sends SIGTERM for the
   * first max_hangs of them and SIGKILL for the rest, one signal each.
   */
  lemma {:induction false} EscalationOrder(script: seq<Snapshot>, j: nat, m: nat, maxHangs: nat)
    requires j + m <= |script|
    requires Run(script, j).hangCount == 0
    requires forall i :: j <= i < j + m ==> HungAt(script, i)
    ensures SignalsUpTo(script, j + m, maxHangs) == SignalsUpTo(script, j, maxHangs) + EscalationRun(m, maxHangs)
    ensures Run(script, j + m).hangCount == m
  {
    if m > 0 {
      EscalationOrder(script, j, m - 1, maxHangs);
      assert HungAt(script, j + m - 1);
      assert EscalationRun(m, maxHangs) == EscalationRun(m - 1, maxHangs) + [Escalation(m, maxHangs)];
    }
  }

  function CountTerms(s: seq<Signal>): (n: nat)
    ensures n <= |s|
  {
    if s == [] then 0 else CountTerms(s[..|s| - 1]) + (if s[|s| - 1] == SIGTERM then 1 else 0)
  }

  /** Within such a run, min(m, max_hangs) SIGTERMs go out, and the rest are SIGKILLs. */
  lemma {:induction false} EscalationRunCounts(m: nat, maxHangs: nat)
    ensures CountTerms(EscalationRun(m, maxHangs)) == if m <= maxHangs then m else maxHangs
  {
    if m > 0 {
      assert EscalationRun(m, maxHangs)[..m - 1] == EscalationRun(m - 1, maxHangs);
      EscalationRunCounts(m - 1, maxHangs);
    }
  }

  /** Every iteration sleeps the interval once, plus the yield once per signal. */
  lemma {:induction false} SleepsMatchSignals(script: seq<Snapshot>, k: nat, maxHangs: nat, interval: nat, yieldSeconds: nat)
    requires k <= |script|
    ensures |SleepsUpTo(script, k, interval, yieldSeconds)| == k + |SignalsUpTo(script, k, maxHangs)|
  {
    if k > 0 {
      SleepsMatchSignals(script, k - 1, maxHangs, interval, yieldSeconds);
    }
  }

  /** A snapshot with a thread that is not asleep: no signal at that iteration, and the count resets. */
  lemma AwakeIterationResets(script: seq<Snapshot>, k: nat, maxHangs: nat)
    requires k < |script| && !AllSleeping(script[k])
    ensures !HungAt(script, k)
    ensures Run(script, k + 1) == MonitorState(0, None)
    ensures SignalsUpTo(script, k + 1, maxHangs) == SignalsUpTo(script, k, maxHangs)
  {
  }

  /**
   * A process frozen in sleep, the same snapshot every time: from the second
   * sample on every verdict is hung, so the signals are the escalation run.
   */
  lemma {:induction false} FrozenProcess(script: seq<Snapshot>, k: nat, maxHangs: nat)
    requires 1 <= k <= |script|
    requires forall i :: 0 <= i < |script| ==> script[i] == script[0]
    requires AllSleeping(script[0]) && BelowTop(script[0])
    ensures Run(script, k) == MonitorState(k - 1, Some(Sample(script, k - 1)))
    ensures SignalsUpTo(script, k, maxHangs) == EscalationRun(k - 1, maxHangs)
  {
    if k > 1 {
      FrozenProcess(script, k - 1, maxHangs);
      SelfComparisonHung(Sample(script, k - 2), Sample(script, k - 1));
      assert EscalationRun(k - 1, maxHangs) == EscalationRun(k - 2, maxHangs) + [Escalation(k - 1, maxHangs)];
    }
  }

  /**
   * The samples of the requires-SIGKILL fixture. Its fake sleep bumps one
   * counter of the template per sleep until the first signal (a stime at
   * even get counts, a utime at odd ones, cycling over len + 2 positions),
   * and marks every thread asleep once more than two lists have been taken.
   */
  const SigkillAwake1: Snapshot := [
    ThreadState(10007, 'S', 3217, 3259), ThreadState(10009, 'R', 6733, 5334), ThreadState(10037, 'R', 0, 0)]
  const SigkillAwake2: Snapshot := [
    ThreadState(10007, 'S', 3217, 3259), ThreadState(10009, 'R', 6733, 5334), ThreadState(10037, 'R', 1, 0)]
  const SigkillAsleep: Snapshot := [
    ThreadState(10007, 'S', 3217, 3259), ThreadState(10009, 'S', 6733, 5334), ThreadState(10037, 'S', 1, 0)]
  const SigkillFrozen: Snapshot := [
    ThreadState(10007, 'S', 3217, 3260), ThreadState(10009, 'S', 6733, 5334), ThreadState(10037, 'S', 1, 0)]

  /** Eight lists are taken: the fake child is gone right after the first SIGKILL. */
  const SigkillScript: seq<Snapshot> := [
    SigkillAwake1, SigkillAwake2, SigkillAwake2, SigkillAsleep,
    SigkillFrozen, SigkillFrozen, SigkillFrozen, SigkillFrozen]

  /** The frozen sample against the first all-asleep one: one tick on one clock, so hung. */
  lemma OneTickAfterAsleep(a: nat, b: nat)
    ensures LooksHung(Some(ListRef(a, SigkillAsleep)), ListRef(b, SigkillFrozen)) == Verdict(true, Some(ListRef(b, SigkillFrozen)))
  {
    var p, c := SigkillAsleep, SigkillFrozen;
    assert AllSleeping(c) by {
      assert c[0].state == 'S' && c[1].state == 'S' && c[2].state == 'S';
    }
    assert NoProgress(p, c) by {
      assert Idle(p[0], c[0]) && Idle(p[1], c[1]) && Idle(p[2], c[2]);
    }
  }

  /**
   * The loop state through the fixture: three awake samples keep no
   * baseline, the first all-asleep sample becomes the baseline, and the
   * next four (one tick on one clock, then nothing) are all hung.
   */
  lemma RequiresSigkillRun()
    ensures forall k :: 0 <= k < 4 ==> !HungAt(SigkillScript, k)
    ensures Run(SigkillScript, 4).hangCount == 0
    ensures forall k :: 4 <= k < 8 ==> HungAt(SigkillScript, k)
  {
    var s := SigkillScript;
    AwakeThreadDropsBaseline(None, Sample(s, 0), 1);
    assert Run(s, 1) == MonitorState(0, None);
    AwakeThreadDropsBaseline(None, Sample(s, 1), 1);
    assert Run(s, 2) == MonitorState(0, None);
    AwakeThreadDropsBaseline(None, Sample(s, 2), 1);
    assert Run(s, 3) == MonitorState(0, None);
    assert AllSleeping(SigkillAsleep) by {
      assert SigkillAsleep[0].state == 'S' && SigkillAsleep[1].state == 'S' && SigkillAsleep[2].state == 'S';
    }
    NoComparableBaseline(None, Sample(s, 3));
    assert Run(s, 4) == MonitorState(0, Some(Sample(s, 3)));
    OneTickAfterAsleep(3, 4);
    assert Run(s, 5) == MonitorState(1, Some(Sample(s, 4)));
    assert AllSleeping(SigkillFrozen) && BelowTop(SigkillFrozen) by {
      assert SigkillFrozen[0].state == 'S' && SigkillFrozen[1].state == 'S' && SigkillFrozen[2].state == 'S';
    }
    SelfComparisonHung(Sample(s, 4), Sample(s, 5));
    assert Run(s, 6) == MonitorState(2, Some(Sample(s, 5)));
    SelfComparisonHung(Sample(s, 5), Sample(s, 6));
    assert Run(s, 7) == MonitorState(3, Some(Sample(s, 6)));
    SelfComparisonHung(Sample(s, 6), Sample(s, 7));
  }

  /** The fixture's signals and sleeps: three SIGTERMs, a SIGKILL, each followed by the one-second yield. */
  lemma RequiresSigkillTrace()
    ensures SignalsUpTo(SigkillScript, 8, 3) == [SIGTERM, SIGTERM, SIGTERM, SIGKILL]
    ensures SleepsUpTo(SigkillScript, 8, 60, 1) == [60, 60, 60, 60, 60, 1, 60, 1, 60, 1, 60, 1]
  {
    var s := SigkillScript;
    RequiresSigkillRun();
    EscalationOrder(s, 4, 4, 3);
    assert EscalationRun(4, 3) == [SIGTERM, SIGTERM, SIGTERM, SIGKILL];
    assert SignalsUpTo(s, 1, 3) == [];
    assert SignalsUpTo(s, 2, 3) == [];
    assert SignalsUpTo(s, 3, 3) == [];
    assert SignalsUpTo(s, 4, 3) == [];
    assert SleepsUpTo(s, 1, 60, 1) == [60];
    assert SleepsUpTo(s, 2, 60, 1) == [60, 60];
    assert SleepsUpTo(s, 3, 60, 1) == [60, 60, 60];
    assert SleepsUpTo(s, 4, 60, 1) == [60, 60, 60, 60];
    assert SleepsUpTo(s, 5, 60, 1) == [60, 60, 60, 60, 60, 1];
    assert SleepsUpTo(s, 6, 60, 1) == [60, 60, 60, 60, 60, 1, 60, 1];
    assert SleepsUpTo(s, 7, 60, 1) == [60, 60, 60, 60, 60, 1, 60, 1, 60, 1];
  }

  /**
   * test_monitor_requires_sigkill: with max_hangs 3, interval 60 and the
   * one-second yield of yoyo.c, the monitor sends three SIGTERMs and then a
   * SIGKILL, and frees every list it took.
   */
  method MonitorRequiresSigkill() returns (sent: seq<Signal>, sleeps: seq<nat>, gets: nat, frees: nat)
    ensures sent == [SIGTERM, SIGTERM, SIGTERM, SIGKILL]
    ensures sleeps == [60, 60, 60, 60, 60, 1, 60, 1, 60, 1, 60, 1]
    ensures gets == 8 && frees == gets
  {
    var env := new Env(SigkillScript);
    MonitorChildForHang(env, 3, 60, 1);
    RequiresSigkillTrace();
    IdsSize(8);
    assert |env.freed| == |multiset(env.freed)|;
    sent, sleeps, gets, frees := env.sent, env.sleeps, env.gets, |env.freed|;
  }

  lemma {:induction false} IdsSize(n: nat)
    ensures |Ids(n)| == n
  {
    if n > 0 {
      IdsSize(n - 1);
    }
  }
}
