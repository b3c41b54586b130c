/**
 * The exit-reason tracker's decoder: struct exit_reason filled from a raw
 * wait status with the <sys/wait.h> macros, in the bit layout of Linux and
 * glibc (low 7 bits: terminating signal, 0x7f meaning "stopped"; bit 7: core
 * dump; bits 8-15: exit code or stop signal; 0xffff: continued).
 */
module ExitReasons {
  import opened Types

  /** the bits of a 32-bit int, read as unsigned (what `&` and `>>` work on) */
  function Bits(status: int32): (u: nat)
    ensures u < 0x1_0000_0000
    ensures u % 0x1_0000 == status % 0x1_0000
  {
    if status < 0 then status + 0x1_0000_0000 else status
  }

  /** WTERMSIG(s): (s) & 0x7f */
  function WTERMSIG(status: int32): int {
    Bits(status) % 0x80
  }

  /** WEXITSTATUS(s): ((s) & 0xff00) >> 8 */
  function WEXITSTATUS(status: int32): int {
    Bits(status) % 0x1_0000 / 0x100
  }

  /** WSTOPSIG(s): WEXITSTATUS(s) */
  function WSTOPSIG(status: int32): int {
    WEXITSTATUS(status)
  }

  /** WCOREDUMP(s): (s) & 0x80 */
  function WCOREDUMP(status: int32): int {
    Bits(status) % 0x100 / 0x80 * 0x80
  }

  /** WIFEXITED(s): WTERMSIG(s) == 0 */
  predicate WIFEXITED(status: int32) {
    WTERMSIG(status) == 0
  }

  /** the conversion to signed char of a value in 0 .. 255 + k * 256 */
  function SignedChar(x: int): int {
    var b := x % 0x100;
    if b >= 0x80 then b - 0x100 else b
  }

  /**
   * WIFSIGNALED(s): ((signed char) (((s) & 0x7f) + 1) >> 1) > 0; the shift of
   * a negative value is arithmetic, which is the floor division below.
   */
  predicate WIFSIGNALED(status: int32) {
    SignedChar(WTERMSIG(status) + 1) / 2 > 0
  }

  /** WIFSTOPPED(s): ((s) & 0xff) == 0x7f */
  predicate WIFSTOPPED(status: int32) {
    Bits(status) % 0x100 == 0x7f
  }

  /** WIFCONTINUED(s): (s) == 0xffff */
  predicate WIFCONTINUED(status: int32) {
    status == 0xffff
  }

  /** Quotient and remainder by 256 are the unique such pair. */
  lemma DivMod256(x: int, q: int, r: int)
    requires x == q * 0x100 + r && 0 <= r < 0x100
    ensures x / 0x100 == q && x % 0x100 == r
  {
  }

  /** Quotient and remainder by 128 are the unique such pair. */
  lemma DivMod128(x: int, q: int, r: int)
    requires x == q * 0x80 + r && 0 <= r < 0x80
    ensures x / 0x80 == q && x % 0x80 == r
  {
  }

  /** Splitting a value at bit 16 leaves its low 16 bits to the masks. */
  lemma LowHalf(x: int)
    ensures x % 0x1_0000 / 0x100 == x / 0x100 % 0x100
    ensures x % 0x1_0000 % 0x100 == x % 0x100
    ensures x % 0x1_0000 % 0x80 == x % 0x80
  {
    var q, r := x / 0x1_0000, x % 0x1_0000;
    var hi, lo := r / 0x100, r % 0x100;
    DivMod256(r, hi, lo);
    DivMod256(x, q * 0x100 + hi, lo);
    DivMod256(q * 0x100 + hi, q, hi);
    var top, bottom := lo / 0x80, lo % 0x80;
    DivMod128(r, hi * 2 + top, bottom);
    DivMod128(x, (q * 0x100 + hi) * 2 + top, bottom);
  }

  /** The masks and shifts of the macros, read as arithmetic on the status. */
  lemma MacroArithmetic(status: int32)
    ensures WTERMSIG(status) == status % 0x80
    ensures Bits(status) % 0x100 == status % 0x100
    ensures WEXITSTATUS(status) == status / 0x100 % 0x100
    ensures WCOREDUMP(status) == if status % 0x100 >= 0x80 then 0x80 else 0
  {
    var u := Bits(status);
    LowHalf(u);
    LowHalf(status);
    var b := status % 0x100;
    assert b / 0x80 * 0x80 == if b >= 0x80 then 0x80 else 0;
  }

  /** The signed-char trick of WIFSIGNALED singles out the low 7 bits 1 .. 0x7e. */
  lemma SignaledArithmetic(status: int32)
    ensures WIFSIGNALED(status) <==> status % 0x80 != 0 && status % 0x80 != 0x7f
  {
    MacroArithmetic(status);
    var t := status % 0x80;
    if t == 0x7f {
      assert SignedChar(t + 1) == -0x80;
    } else {
      assert SignedChar(t + 1) == t + 1;
    }
  }

  /** struct exit_reason as a value */
  datatype ExitReason = ExitReason(
    childPid: int,
    waitStatus: int,
    exited: bool,
    exitCode: int,
    signaled: bool,
    termsig: int,
    coredump: int,
    stopped: bool,
    stopsig: int,
    continued: bool)

  /** exit_reason_clear: every field zero */
  const Cleared: ExitReason := ExitReason(0, 0, false, 0, false, 0, 0, false, 0, false)

  /**
   * exit_reason_set: clear, record pid and status verbatim, then fill each
   * flag from its macro and each code or signal only when its flag is set.
   */
  function Decode(pid: int, status: int32): (r: ExitReason)
    ensures r.childPid == pid && r.waitStatus == status
    ensures r.exited <==> status % 0x80 == 0
    ensures r.exitCode == if r.exited then status / 0x100 % 0x100 else 0
    ensures r.signaled <==> status % 0x80 != 0 && status % 0x80 != 0x7f
    ensures r.termsig == if r.signaled then status % 0x80 else 0
    ensures r.coredump == if r.signaled && status % 0x100 >= 0x80 then 0x80 else 0
    ensures r.stopped <==> status % 0x100 == 0x7f
    ensures r.stopsig == if r.stopped then status / 0x100 % 0x100 else 0
    ensures r.continued <==> status == 0xffff
  {
    MacroArithmetic(status);
    SignaledArithmetic(status);
    var exited := WIFEXITED(status);
    var signaled := WIFSIGNALED(status);
    var stopped := WIFSTOPPED(status);
    ExitReason(
      pid,
      status,
      exited,
      if exited then WEXITSTATUS(status) else 0,
      signaled,
      if signaled then WTERMSIG(status) else 0,
      if signaled then WCOREDUMP(status) else 0,
      stopped,
      if stopped then WSTOPSIG(status) else 0,
      WIFCONTINUED(status))
  }

  /** At most one of exited, signaled and stopped describes a status. */
  lemma ExitedSignaledStoppedExclusive(pid: int, status: int32)
    ensures var r := Decode(pid, status);
      !(r.exited && r.signaled) && !(r.exited && r.stopped) && !(r.signaled && r.stopped)
  {
  }

  /** W_EXITCODE(code, 0) decodes back to a normal exit with that code. */
  lemma ExitCodeRoundTrip(pid: int, code: int)
    requires 0 <= code < 0x100
    ensures var r := Decode(pid, code * 0x100);
      r.exited && r.exitCode == code && !r.signaled && !r.stopped && !r.continued
      && r.termsig == 0 && r.stopsig == 0
  {
  }

  /** A signal number 1 .. 126, optionally with the core-dump bit, decodes back to itself. */
  lemma TermSigRoundTrip(pid: int, sig: int, core: bool)
    requires 1 <= sig < 0x7f
    ensures var r := Decode(pid, sig + if core then 0x80 else 0);
      r.signaled && r.termsig == sig && r.coredump == (if core then 0x80 else 0)
      && !r.exited && !r.stopped && !r.continued && r.exitCode == 0
  {
  }

  /** W_STOPCODE(sig) decodes back to a stop by that signal. */
  lemma StopSigRoundTrip(pid: int, sig: int)
    requires 0 <= sig < 0x100
    ensures var r := Decode(pid, sig * 0x100 + 0x7f);
      r.stopped && r.stopsig == sig && !r.exited && !r.signaled && !r.continued
  {
  }

  /** The four statuses the decoder's own tests feed it. */
  lemma KnownStatuses()
    ensures Decode(10007, 0).exited && Decode(10007, 0).exitCode == 0
    ensures Decode(23, 1).signaled && Decode(23, 1).termsig == 1 && !Decode(23, 1).exited
    ensures Decode(4969, 2943).stopped && Decode(4969, 2943).stopsig == 11
    ensures !Decode(4969, 2943).exited && !Decode(4969, 2943).signaled
    ensures Decode(4973, 0xffff).continued && !Decode(4973, 0xffff).exited
    ensures !Decode(4973, 0xffff).signaled && !Decode(4973, 0xffff).stopped
  {
  }

  /**
   * The struct exit_reason the supervisor keeps across one child lifecycle:
   * cleared before each fork, written once when the child is reaped.
   */
  class ExitReasonRec {
    var childPid: int
    var waitStatus: int
    var exited: bool
    var exitCode: int
    var signaled: bool
    var termsig: int
    var coredump: int
    var stopped: bool
    var stopsig: int
    var continued: bool

    function Value(): ExitReason
      reads this
    {
      ExitReason(childPid, waitStatus, exited, exitCode, signaled, termsig,
                 coredump, stopped, stopsig, continued)
    }

    constructor ()
      ensures Value() == Cleared
    {
      childPid, waitStatus := 0, 0;
      exited, exitCode := false, 0;
      signaled, termsig, coredump := false, 0, 0;
      stopped, stopsig := false, 0;
      continued := false;
    }

    /** exit_reason_clear */
    method Clear()
      modifies this
      ensures Value() == Cleared
    {
      childPid, waitStatus := 0, 0;
      exited, exitCode := false, 0;
      signaled, termsig, coredump := false, 0, 0;
      stopped, stopsig := false, 0;
      continued := false;
    }

    /** exit_reason_set */
    method Set(pid: int, status: int32)
      modifies this
      ensures Value() == Decode(pid, status)
    {
      Clear();
      childPid := pid;
      waitStatus := status;
      exited := WIFEXITED(status);
      if exited {
        exitCode := WEXITSTATUS(status);
      }
      signaled := WIFSIGNALED(status);
      if signaled {
        termsig := WTERMSIG(status);
        coredump := WCOREDUMP(status);
      }
      stopped := WIFSTOPPED(status);
      if stopped {
        stopsig := WSTOPSIG(status);
      }
      continued := WIFCONTINUED(status);
    }
  }
}
