/**
 * Bounded string building: appendf, which formats onto the end of the C
 * string already in a buffer, and exit_reason_to_str, which describes a
 * decoded exit reason with a series of appendf calls.
 */
module Format {
  import opened CStrings
  import opened ExitReasons

  /** A buffer holding `p` as a C string: `p`, then a NUL. */
  lemma CStrOfTerminated(b: seq<char>, p: string)
    requires |p| < |b| && b[..|p|] == p && NUL !in p && b[|p|] == NUL
    ensures CStr(b) == p
    decreases p
  {
    if p != [] {
      assert b[1..][..|p| - 1] == p[1..];
      CStrOfTerminated(b[1..], p[1..]);
    }
  }

  /** A buffer that holds a NUL holds a C string shorter than itself. */
  lemma CStrShorter(b: seq<char>)
    requires NUL in b
    ensures |CStr(b)| < |b|
  {
  }

  /**
   * The buffer after appendf(buf, bufsize, ...) has printed `text`:
   * vsnprintf writes at most `bufsize - used - 1` characters of it after the
   * existing string and terminates them; then the last byte is set to NUL.
   */
  function AppendInto(b: seq<char>, text: string): (r: seq<char>)
    requires NUL in b && NUL !in text
    ensures |r| == |b| && r[|b| - 1] == NUL
    ensures CStr(r) == Clip(CStr(b) + text, |b| - 1)
    ensures r[..|CStr(b)|] == b[..|CStr(b)|]
  {
    CStrShorter(b);
    WrittenAt(b, text, |CStr(b)|, Room(|b| - |CStr(b)|, text));
    Written(b, text, |CStr(b)|, Room(|b| - |CStr(b)|, text))
  }

  /** How much of `text` vsnprintf stores when given `size` bytes: one is kept for the NUL. */
  function Room(size: nat, text: string): nat
    requires size >= 1
  {
    if |text| < size - 1 then |text| else size - 1
  }

  /** text[..n] and a NUL written at `used`, then the last byte set to NUL. */
  function Written(b: seq<char>, text: string, used: nat, n: nat): seq<char>
    requires n <= |text| && used + n < |b|
  {
    (b[..used] + text[..n] + [NUL] + b[used + n + 1..])[|b| - 1 := NUL]
  }

  /** The written buffer keeps the prefix, then holds text[..n] and a NUL. */
  lemma WrittenShape(b: seq<char>, text: string, used: nat, n: nat)
    requires n <= |text| && used + n < |b|
    ensures var r := Written(b, text, used, n);
      |r| == |b| && r[|b| - 1] == NUL && r[used + n] == NUL
      && r[..used + n] == b[..used] + text[..n]
  {
    var w := b[..used] + text[..n] + [NUL] + b[used + n + 1..];
    assert w[..used + n] == b[..used] + text[..n];
    assert w[used + n] == NUL;
  }

  /** Clipping p + text to |p| + room keeps exactly the stored part of `text`. */
  lemma ClipRoom(p: string, text: string, room: nat)
    ensures Clip(p + text, |p| + room) == p + text[..if |text| < room then |text| else room]
  {
    if room < |text| {
      assert (p + text)[..|p| + room] == p + text[..room];
    } else {
      assert text[..|text|] == text;
    }
  }

  /** Written at the end of the C string, with the room vsnprintf has, leaves their concatenation clipped. */
  lemma WrittenAt(b: seq<char>, text: string, used: nat, n: nat)
    requires NUL in b && NUL !in text && used == |CStr(b)| < |b|
    requires n == Room(|b| - used, text)
    ensures var r := Written(b, text, used, n);
      |r| == |b| && r[|b| - 1] == NUL
      && CStr(r) == Clip(CStr(b) + text, |b| - 1)
      && r[..used] == b[..used]
  {
    var p := CStr(b);
    var r := Written(b, text, used, n);
    WrittenShape(b, text, used, n);
    assert r[..used] == r[..used + n][..used];
    CStrOfTerminated(r, p + text[..n]);
    ClipRoom(p, text, |b| - used - 1);
  }

  lemma AppendIntoUnfold(b: seq<char>, text: string, used: nat, n: nat)
    requires NUL in b && NUL !in text && used == |CStr(b)|
    requires used < |b| && n == Room(|b| - used, text)
    ensures AppendInto(b, text) == Written(b, text, used, n)
  {
  }

  /** strlen(buf): the index of the first NUL. */
  method Strlen(buf: array<char>) returns (used: nat)
    requires NUL in buf[..]
    ensures used == |CStr(buf[..])| && used < buf.Length
  {
    CStrShorter(buf[..]);
    used := 0;
    while buf[used] != NUL
      invariant used <= |CStr(buf[..])|
      decreases |CStr(buf[..])| - used
    {
      used := used + 1;
    }
  }

  /** The characters vsnprintf writes: text[..n] at `at`, then the terminating NUL. */
  method WriteTerminated(buf: array<char>, at: nat, text: string, n: nat)
    requires n <= |text| && at + n < buf.Length
    modifies buf
    ensures buf[..] == old(buf[..at]) + text[..n] + [NUL] + old(buf[at + n + 1..])
  {
    ghost var b := buf[..];
    var i := 0;
    while i < n
      invariant 0 <= i <= n
      invariant buf[..] == b[..at] + text[..i] + b[at + i..]
    {
      buf[at + i] := text[i];
      i := i + 1;
      assert buf[..] == b[..at] + text[..i] + b[at + i..];
    }
    buf[at + n] := NUL;
    assert buf[..] == b[..at] + text[..n] + [NUL] + b[at + n + 1..];
  }

  /** appendf: returns what vsnprintf returns, the untruncated length */
  method Appendf(buf: array<char>, text: string) returns (printed: int)
    requires NUL in buf[..] && NUL !in text
    modifies buf
    ensures buf[..] == AppendInto(old(buf[..]), text)
    ensures printed == |text|
  {
    ghost var b := buf[..];
    var used := Strlen(buf);
    // vsnprintf(buf + used, bufsize - used, ...)
    var room := buf.Length - used;
    var n := if |text| < room - 1 then |text| else room - 1;
    WriteTerminated(buf, used, text, n);
    buf[buf.Length - 1] := NUL;
    AppendIntoUnfold(b, text, used, n);
    printed := |text|;
  }

  function HeadPhrase(r: ExitReason): string {
    "child pid " + Dec(r.childPid)
  }

  /** The phrase for a normal exit: the code is printed whatever it is. */
  function ExitedPhrase(r: ExitReason): string {
    if r.exited then " terminated normally" + " exit code: " + Dec(r.exitCode) else ""
  }

  /** The phrase for a death by signal: the number only when nonzero, then the core dump. */
  function SignaledPhrase(r: ExitReason): string {
    if r.signaled then " terminated by a signal" + SigNumPhrase(r) + CorePhrase(r) else ""
  }

  function SigNumPhrase(r: ExitReason): string {
    if r.termsig != 0 then " " + Dec(r.termsig) else ""
  }

  function CorePhrase(r: ExitReason): string {
    if r.coredump != 0 then " produced a core dump" else ""
  }

  /** The phrase for a stop: the stop signal only when nonzero. */
  function StoppedPhrase(r: ExitReason): string {
    if r.stopped then " stopped (WUNTRACED? ptrace?)" + StopSigPhrase(r) else ""
  }

  function StopSigPhrase(r: ExitReason): string {
    if r.stopsig != 0 then " stop signal: " + Dec(r.stopsig) else ""
  }

  function ContinuedPhrase(r: ExitReason): string {
    if r.continued then " was resumed by SIGCONT" else ""
  }

  /** Everything after the pid, in the order the phrases are appended. */
  function Tail(r: ExitReason): string {
    ExitedPhrase(r) + SignaledPhrase(r) + StoppedPhrase(r) + ContinuedPhrase(r)
  }

  /** The description exit_reason_to_str assembles, before any truncation. */
  function Describe(r: ExitReason): string {
    HeadPhrase(r) + ExitedPhrase(r) + SignaledPhrase(r) + StoppedPhrase(r) + ContinuedPhrase(r)
  }

  lemma NoNulInDec(n: int)
    ensures NUL !in Dec(n)
  {
  }

  /** The buffer holds `text` as a C string, clipped to its capacity. */
  ghost predicate Holds(buf: array<char>, text: string)
    reads buf
  {
    buf.Length > 0 && NUL in buf[..] && buf[buf.Length - 1] == NUL
    && CStr(buf[..]) == Clip(text, buf.Length - 1)
  }

  /**
   * One appendf step of exit_reason_to_str: the buffer holds the clipped
   * description so far before, and the clipped extended description after.
   */
  method AppendPiece(buf: array<char>, ghost acc: string, text: string)
    requires NUL !in text
    requires buf.Length > 0 && NUL in buf[..] && CStr(buf[..]) == Clip(acc, buf.Length - 1)
    modifies buf
    ensures Holds(buf, acc + text)
  {
    var _ := Appendf(buf, text);
    assert buf[buf.Length - 1] == NUL;
    ClipAppend(acc, text, buf.Length - 1);
  }

  /** memset(buf, 0x00, bufsize) */
  method Zero(buf: array<char>)
    modifies buf
    ensures forall j :: 0 <= j < buf.Length ==> buf[j] == NUL
  {
    var i := 0;
    while i < buf.Length
      invariant 0 <= i <= buf.Length
      invariant forall j :: 0 <= j < i ==> buf[j] == NUL
    {
      buf[i] := NUL;
      i := i + 1;
    }
  }

  method AppendExited(buf: array<char>, ghost acc: string, reason: ExitReason)
    requires Holds(buf, acc)
    modifies buf
    ensures Holds(buf, acc + ExitedPhrase(reason))
  {
    if reason.exited {
      AppendPiece(buf, acc, " terminated normally");
      NoNulInDec(reason.exitCode);
      AppendPiece(buf, acc + " terminated normally", " exit code: " + Dec(reason.exitCode));
      Concat4(acc, " terminated normally", " exit code: ", Dec(reason.exitCode));
    } else {
      assert acc + ExitedPhrase(reason) == acc;
    }
  }

  method AppendSigNum(buf: array<char>, ghost acc: string, reason: ExitReason)
    requires Holds(buf, acc)
    modifies buf
    ensures Holds(buf, acc + SigNumPhrase(reason))
  {
    if reason.termsig != 0 {
      NoNulInDec(reason.termsig);
      AppendPiece(buf, acc, " " + Dec(reason.termsig));
    } else {
      assert acc + SigNumPhrase(reason) == acc;
    }
  }

  method AppendCore(buf: array<char>, ghost acc: string, reason: ExitReason)
    requires Holds(buf, acc)
    modifies buf
    ensures Holds(buf, acc + CorePhrase(reason))
  {
    if reason.coredump != 0 {
      AppendPiece(buf, acc, " produced a core dump");
    } else {
      assert acc + CorePhrase(reason) == acc;
    }
  }

  method AppendSignaled(buf: array<char>, ghost acc: string, reason: ExitReason)
    requires Holds(buf, acc)
    modifies buf
    ensures Holds(buf, acc + SignaledPhrase(reason))
  {
    if reason.signaled {
      AppendPiece(buf, acc, " terminated by a signal");
      ghost var here := acc + " terminated by a signal";
      AppendSigNum(buf, here, reason);
      here := here + SigNumPhrase(reason);
      AppendCore(buf, here, reason);
      Concat4(acc, " terminated by a signal", SigNumPhrase(reason), CorePhrase(reason));
    } else {
      assert acc + SignaledPhrase(reason) == acc;
    }
  }

  method AppendStopped(buf: array<char>, ghost acc: string, reason: ExitReason)
    requires Holds(buf, acc)
    modifies buf
    ensures Holds(buf, acc + StoppedPhrase(reason))
  {
    if reason.stopped {
      AppendPiece(buf, acc, " stopped (WUNTRACED? ptrace?)");
      ghost var here := acc + " stopped (WUNTRACED? ptrace?)";
      if reason.stopsig != 0 {
        NoNulInDec(reason.stopsig);
        AppendPiece(buf, here, " stop signal: " + Dec(reason.stopsig));
      } else {
        assert here + StopSigPhrase(reason) == here;
      }
      Assoc(acc, " stopped (WUNTRACED? ptrace?)", StopSigPhrase(reason));
    } else {
      assert acc + StoppedPhrase(reason) == acc;
    }
  }

  method AppendContinued(buf: array<char>, ghost acc: string, reason: ExitReason)
    requires Holds(buf, acc)
    modifies buf
    ensures Holds(buf, acc + ContinuedPhrase(reason))
  {
    if reason.continued {
      AppendPiece(buf, acc, " was resumed by SIGCONT");
    } else {
      assert acc + ContinuedPhrase(reason) == acc;
    }
  }

  /** exit_reason_to_str: zero the buffer, then append each phrase in order */
  method ExitReasonToStr(reason: ExitReason, buf: array<char>)
    requires buf.Length > 0
    modifies buf
    ensures CStr(buf[..]) == Clip(Describe(reason), buf.Length - 1)
    ensures buf[buf.Length - 1] == NUL
  {
    Zero(buf);
    assert buf[..][0] == NUL;
    NoNulInDec(reason.childPid);
    AppendPiece(buf, "", HeadPhrase(reason));
    assert "" + HeadPhrase(reason) == HeadPhrase(reason);
    ghost var acc: string := HeadPhrase(reason);
    AppendExited(buf, acc, reason);
    acc := acc + ExitedPhrase(reason);
    AppendSignaled(buf, acc, reason);
    acc := acc + SignaledPhrase(reason);
    AppendStopped(buf, acc, reason);
    acc := acc + StoppedPhrase(reason);
    AppendContinued(buf, acc, reason);
    acc := acc + ContinuedPhrase(reason);
  }

  /** The phrases that may follow the pid all begin with a space. */
  lemma TailStartsWithSpace(r: ExitReason)
    ensures Tail(r) == [] || Tail(r)[0] == ' '
  {
  }

  /** Past its first character, a number printed by "%d" holds only digits. */
  lemma DigitAfterSign(n: int, k: int)
    ensures 1 <= k < |Dec(n)| ==> IsDigit(Dec(n)[k])
  {
    if 1 <= k < |Dec(n)| && n < 0 {
      assert Dec(n)[1..][k - 1] == Dec(n)[k];
    }
  }

  lemma IndexInConcat(a: string, x: string, k: int)
    ensures 0 <= k < |a| ==> (a + x)[k] == a[k]
    ensures |a| <= k < |a| + |x| ==> (a + x)[k] == x[k - |a|]
  {
  }

  /** A number printed by "%d" and followed by nothing or a space can be read back. */
  lemma {:induction false} DecThenSpace(a: int, x: string, b: int, y: string)
    requires x == [] || x[0] == ' '
    requires y == [] || y[0] == ' '
    requires Dec(a) + x == Dec(b) + y
    ensures a == b
  {
    var da, db := Dec(a), Dec(b);
    if |da| == |db| {
      assert da == (da + x)[..|da|] == db;
      DecInjective(a, b);
    } else if |da| < |db| {
      DigitAfterSign(b, |da|);
      IndexInConcat(da, x, |da|);
      IndexInConcat(db, y, |da|);
      assert false;
    } else {
      DigitAfterSign(a, |db|);
      IndexInConcat(da, x, |db|);
      IndexInConcat(db, y, |db|);
      assert false;
    }
  }

  lemma Regroup(h: string, e: string, s: string, st: string, c: string)
    ensures h + e + s + st + c == h + (e + s + st + c)
  {
  }

  lemma Concat4(a: string, b: string, c: string, d: string)
    ensures (a + b) + (c + d) == a + ((b + c) + d)
    ensures ((a + b) + c) + d == a + ((b + c) + d)
  {
  }

  lemma Assoc(p: string, d: string, t: string)
    ensures p + d + t == p + (d + t)
  {
  }

  /** The description is the pid phrase followed by the tail. */
  lemma DescribeSplit(r: ExitReason)
    ensures Describe(r) == "child pid " + (Dec(r.childPid) + Tail(r))
  {
    Regroup(HeadPhrase(r), ExitedPhrase(r), SignaledPhrase(r), StoppedPhrase(r), ContinuedPhrase(r));
    Assoc("child pid ", Dec(r.childPid), Tail(r));
  }

  /** The description names the child: equal descriptions mean the same pid. */
  lemma DescribeIdentifiesPid(r1: ExitReason, r2: ExitReason)
    requires Describe(r1) == Describe(r2)
    ensures r1.childPid == r2.childPid
  {
    DescribeSplit(r1);
    DescribeSplit(r2);
    CancelPrefix("child pid ", Dec(r1.childPid) + Tail(r1), Dec(r2.childPid) + Tail(r2));
    TailStartsWithSpace(r1);
    TailStartsWithSpace(r2);
    DecThenSpace(r1.childPid, Tail(r1), r2.childPid, Tail(r2));
  }

  /** A normal exit with code 0, and nothing else: only the exit phrases. */
  lemma CleanExitTail(r: ExitReason)
    requires r.exited && r.exitCode == 0 && !r.signaled && !r.stopped && !r.continued
    ensures Tail(r) == " terminated normally exit code: 0"
  {
    assert ExitedPhrase(r) == " terminated normally exit code: 0" by { assert Dec(0) == "0"; }
  }

  /** test_exit_reason_exited: a clean exit of pid 10007 */
  lemma DescribeCleanExit()
    ensures Tail(Decode(10007, 0)) == " terminated normally exit code: 0"
  {
    CleanExitTail(Decode(10007, 0));
  }

  /** A death by signal 1 without a core dump, and nothing else: only the signal phrases. */
  lemma Signal1Tail(r: ExitReason)
    requires r.signaled && r.termsig == 1 && r.coredump == 0 && !r.exited && !r.stopped && !r.continued
    ensures Tail(r) == " terminated by a signal 1"
  {
    assert SigNumPhrase(r) == " 1" by { assert Dec(1) == "1"; }
  }

  /** test_exit_reason_signaled: pid 23 killed by signal 1 */
  lemma DescribeSignaled()
    ensures Tail(Decode(23, 1)) == " terminated by a signal 1"
  {
    KnownStatuses();
    Signal1Tail(Decode(23, 1));
  }

  /** A stop by signal 11, and nothing else: only the stop phrases. */
  lemma StopBy11Tail(r: ExitReason)
    requires r.stopped && r.stopsig == 11 && !r.exited && !r.signaled && !r.continued
    ensures Tail(r) == " stopped (WUNTRACED? ptrace?) stop signal: 11"
  {
    assert StopSigPhrase(r) == " stop signal: 11" by { assert Dec(11) == "11"; }
  }

  /** test_exit_reason_stopped: status 2943 is a stop by signal 11 */
  lemma DescribeStopped()
    ensures Tail(Decode(4969, 2943)) == " stopped (WUNTRACED? ptrace?) stop signal: 11"
  {
    KnownStatuses();
    StopBy11Tail(Decode(4969, 2943));
  }

  /** A resumption, and nothing else: only the continued phrase. */
  lemma ContinuedTail(r: ExitReason)
    requires r.continued && !r.exited && !r.signaled && !r.stopped
    ensures Tail(r) == " was resumed by SIGCONT"
  {
  }

  /** test_exit_reason_continued: status 0xffff */
  lemma DescribeContinued()
    ensures Tail(Decode(4973, 0xffff)) == " was resumed by SIGCONT"
  {
    KnownStatuses();
    ContinuedTail(Decode(4973, 0xffff));
  }
}
