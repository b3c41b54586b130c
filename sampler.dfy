/**
 * The /proc sampler: the glob pattern for a process's per-thread stat
 * files, the scanf-based parse of one stat line into a thread_state, the
 * state_list allocation with rollback, and get_states_proc's fill loop.
 */
module Sampler {
  import opened Types
  import opened CStrings

  const FILENAME_MAX: nat := 4096

  /** thread_state_from_path's buffer: FILENAME_MAX + 60 * (sizeof(long) + 1) */
  const STAT_BUF_LEN: nat := FILENAME_MAX + 60 * (8 + 1)

  /** pid_to_stat_pattern: the fake root (empty when NULL), then /proc/<pid>/task/<glob>/stat */
  function StatPattern(fakeroot: Option<string>, pid: int): (r: string)
    ensures |r| == |Root(fakeroot)| + |Dec(pid)| + 18
    ensures r[..|Root(fakeroot)|] == Root(fakeroot)
    ensures r[|r| - 12..] == "/task/*/stat"
  {
    Root(fakeroot) + ("/proc/" + (Dec(pid) + "/task/*/stat"))
  }

  function Root(fakeroot: Option<string>): string {
    if fakeroot.Some? then fakeroot.value else ""
  }

  /** Under one root, different pids give different patterns. */
  lemma StatPatternInjective(fakeroot: Option<string>, p: int, q: int)
    requires StatPattern(fakeroot, p) == StatPattern(fakeroot, q)
    ensures p == q
  {
    var suffix := "/task/*/stat";
    CancelPrefix(Root(fakeroot), "/proc/" + (Dec(p) + suffix), "/proc/" + (Dec(q) + suffix));
    CancelPrefix("/proc/", Dec(p) + suffix, Dec(q) + suffix);
    CancelSuffix(Dec(p), Dec(q), suffix);
    DecInjective(p, q);
  }

  /** A NULL fake root and an empty one give the same pattern. */
  lemma NullRootIsEmpty(pid: int)
    ensures StatPattern(None, pid) == StatPattern(Some(""), pid)
  {
  }

  // ---------------------------------------------------------------------
  // sscanf over the stat line

  predicate IsSign(c: char) {
    c == '-' || c == '+'
  }

  /** What a whitespace directive (and every conversion but %c) skips. */
  function SkipSpace(s: string): (r: string)
    ensures r == [] || !IsSpace(r[0])
  {
    if s != [] && IsSpace(s[0]) then SkipSpace(s[1..]) else s
  }

  /** The length of the run of decimal digits at the head of `s`. */
  function DigitSpan(s: string): (n: nat)
    ensures n <= |s| && AllDigits(s[..n])
  {
    if s != [] && IsDigit(s[0]) then 1 + DigitSpan(s[1..]) else 0
  }

  /** The length of the run of non-space characters at the head of `s` (what %s takes). */
  function WordSpan(s: string): (n: nat)
    ensures n <= |s|
  {
    if s != [] && !IsSpace(s[0]) then 1 + WordSpan(s[1..]) else 0
  }

  datatype NumKind = Signed | UnsignedLong

  /** One conversion of the format, with whether its result is assigned (no `*`). */
  datatype Directive = Num(kind: NumKind, assign: bool) | Word | Letter(assign: bool)

  predicate Assigns(d: Directive) {
    !d.Word? && d.assign
  }

  datatype Value = IntValue(n: int) | CharValue(c: char)

  /**
   * strtoul on a magnitude read with an optional minus sign: out of range
   * saturates at ULONG_MAX; a negated value wraps modulo 2^64.
   */
  function StrToUL(neg: bool, mag: nat): (r: ulong)
    ensures mag <= ULONG_MAX && !neg ==> r == mag
    ensures mag <= ULONG_MAX && neg && mag > 0 ==> r == ULONG_MODULUS - mag
    ensures mag > ULONG_MAX ==> r == ULONG_MAX
  {
    if mag > ULONG_MAX then ULONG_MAX
    else if neg then (ULONG_MODULUS - mag) % ULONG_MODULUS
    else mag
  }

  function Convert(kind: NumKind, neg: bool, mag: nat): int {
    match kind
    case Signed => if neg then -(mag as int) else mag
    case UnsignedLong => StrToUL(neg, mag)
  }

  /** One conversion applied to input that is not empty and starts past the skipped whitespace. */
  datatype Step = MatchFailure | Consumed(rest: string, value: Option<Value>)

  function Convert1(t: string, d: Directive): (r: Step)
    requires t != [] && !IsSpace(t[0])
    ensures r.Consumed? && r.value.Some? ==> Assigns(d)
    ensures r.MatchFailure? ==> d.Num?
  {
    match d
    case Word =>
      var n := WordSpan(t);
      Consumed(t[n..], None)
    case Letter(assign) =>
      Consumed(t[1..], if assign then Some(CharValue(t[0])) else None)
    case Num(kind, assign) =>
      var u := if IsSign(t[0]) then t[1..] else t;
      var n := DigitSpan(u);
      if n == 0 then MatchFailure
      else Consumed(u[n..], if assign then Some(IntValue(Convert(kind, t[0] == '-', DigitsValue(u[..n])))) else None)
  }

  /** What sscanf leaves behind: the values it assigned, and whether it reports EOF. */
  datatype Scanned = Scanned(values: seq<Value>, eof: bool)

  /** sscanf's return value: EOF (-1) or the number of assignments. */
  function Returned(r: Scanned): int {
    if r.eof then -1 else |r.values|
  }

  function Append(got: seq<Value>, v: Option<Value>): seq<Value> {
    if v.Some? then got + [v.value] else got
  }

  /**
   * sscanf(s, format, ...) for a format made of conversions separated by
   * whitespace. Running out of input before a conversion is an input
   * failure (EOF when nothing was assigned yet); a number conversion that
   * finds no digits after an optional sign is a matching failure.
   */
  function Scan(s: string, dirs: seq<Directive>, got: seq<Value>): (r: Scanned)
    decreases |dirs|
  {
    if dirs == [] then Scanned(got, false)
    else
      var t := SkipSpace(s);
      if t == [] then Scanned(got, got == [])
      else match Convert1(t, dirs[0])
        case MatchFailure => Scanned(got, false)
        case Consumed(rest, v) => Scan(rest, dirs[1..], Append(got, v))
  }

  /** "%d %*s %c %*d %*d %*d %*d %*d %*u %*lu %*lu %*lu %*lu %lu %lu": fields 1 .. 15, four assigned */
  const StatFormat: seq<Directive> := HeadFormat + SkippedFormat + TimesFormat

  /** "%d %*s %c": pid, comm, state */
  const HeadFormat: seq<Directive> := [Num(Signed, true), Word, Letter(true)]

  /** "%*d %*d %*d %*d %*d %*u %*lu %*lu %*lu %*lu": ppid .. cmajflt, read and dropped */
  const SkippedFormat: seq<Directive> := [
    Num(Signed, false), Num(Signed, false), Num(Signed, false), Num(Signed, false), Num(Signed, false),
    Num(UnsignedLong, false),
    Num(UnsignedLong, false), Num(UnsignedLong, false), Num(UnsignedLong, false), Num(UnsignedLong, false)]

  /** "%lu %lu": utime, stime */
  const TimesFormat: seq<Directive> := [Num(UnsignedLong, true), Num(UnsignedLong, true)]

  function AssignCount(dirs: seq<Directive>): nat {
    if dirs == [] then 0 else AssignCount(dirs[1..]) + (if Assigns(dirs[0]) then 1 else 0)
  }

  lemma {:induction false} AssignCountAppend(d1: seq<Directive>, d2: seq<Directive>)
    ensures AssignCount(d1 + d2) == AssignCount(d1) + AssignCount(d2)
    decreases |d1|
  {
    if d1 != [] {
      assert (d1 + d2)[1..] == d1[1..] + d2;
      AssignCountAppend(d1[1..], d2);
    } else {
      assert d1 + d2 == d2;
    }
  }

  lemma {:induction false} AssignCountNone(dirs: seq<Directive>)
    requires forall k :: 0 <= k < |dirs| ==> !Assigns(dirs[k])
    ensures AssignCount(dirs) == 0
    decreases |dirs|
  {
    if dirs != [] {
      AssignCountNone(dirs[1..]);
    }
  }

  /** The stat format assigns exactly four values: pid, state, utime and stime. */
  lemma StatFormatAssignsFour()
    ensures AssignCount(StatFormat) == 4
  {
    AssignCountAppend(HeadFormat + SkippedFormat, TimesFormat);
    AssignCountAppend(HeadFormat, SkippedFormat);
    AssignCountNone(SkippedFormat);
    var h := HeadFormat;
    assert h[1..][1..] == h[2..] && h[2..][1..] == [];
    assert AssignCount(h[2..]) == 1;
    assert AssignCount(h[1..]) == 1;
    var t := TimesFormat;
    assert t[1..][1..] == [];
    assert AssignCount(t[1..]) == 1;
  }

  /**
   * Values are only added after those assigned before, at most one per
   * assigning conversion; EOF only when nothing at all was assigned.
   */
  lemma {:induction false} ScanExtends(s: string, dirs: seq<Directive>, got: seq<Value>)
    ensures var r := Scan(s, dirs, got);
      got <= r.values && |r.values| <= |got| + AssignCount(dirs)
      && (r.eof ==> r.values == [])
    decreases |dirs|
  {
    if dirs != [] {
      var t := SkipSpace(s);
      if t != [] {
        var step := Convert1(t, dirs[0]);
        if step.Consumed? {
          ScanExtends(step.rest, dirs[1..], Append(got, step.value));
        }
      }
    }
  }

  /** Leading whitespace does not change what the conversions see. */
  lemma ScanSkipsSpace(c: char, s: string, dirs: seq<Directive>, got: seq<Value>)
    requires IsSpace(c)
    ensures Scan([c] + s, dirs, got) == Scan(s, dirs, got)
  {
    assert ([c] + s)[1..] == s;
  }

  /**
   * The fields a conversion writes: pid, state, utime and stime in that
   * order; a field with no value keeps what it held.
   */
  function Store(ts: ThreadState, v: seq<Value>): ThreadState {
    ThreadState(
      if |v| > 0 && v[0].IntValue? then v[0].n else ts.pid,
      if |v| > 1 && v[1].CharValue? then v[1].c else ts.state,
      if |v| > 2 && v[2].IntValue? && 0 <= v[2].n < ULONG_MODULUS then v[2].n else ts.utime,
      if |v| > 3 && v[3].IntValue? && 0 <= v[3].n < ULONG_MODULUS then v[3].n else ts.stime)
  }

  /** The files the sampler may read, and what each glob pattern matches, in glob's order. */
  datatype FileSystem = FileSystem(files: map<string, string>, matches: map<string, seq<string>>)

  function Glob(fs: FileSystem, pattern: string): seq<string> {
    if pattern in fs.matches then fs.matches[pattern] else []
  }

  /**
   * What sscanf sees after slurp_text: the zero-filled buffer with at most
   * STAT_BUF_LEN - 1 bytes of the file, read up to the first NUL; an
   * unreadable file leaves it empty.
   */
  function Slurped(fs: FileSystem, path: string): (r: string)
    ensures |r| < STAT_BUF_LEN && NUL !in r
    ensures path in fs.files && NUL !in fs.files[path] && |fs.files[path]| < STAT_BUF_LEN ==> r == fs.files[path]
    ensures path !in fs.files ==> r == ""
  {
    if path in fs.files then CStr(Clip(fs.files[path], STAT_BUF_LEN - 1)) else ""
  }

  function StatScan(text: string): Scanned {
    Scan(text, StatFormat, [])
  }

  /** thread_state_from_path's result for one file: 4 minus what sscanf returned. */
  function FileResult(fs: FileSystem, path: string): int {
    4 - Returned(StatScan(Slurped(fs, path)))
  }

  /** A thread_state from calloc after thread_state_from_path has read one file into it. */
  function Parsed(fs: FileSystem, path: string): ThreadState {
    Store(ZeroThreadState, StatScan(Slurped(fs, path)).values)
  }

  /**
   * thread_state_from_path: parse one stat file into `ts[i]`, writing only
   * the fields sscanf assigned, and report how many of the four it missed
   * (5 when sscanf reports EOF).
   */
  method ThreadStateFromPath(ts: array<ThreadState>, i: nat, fs: FileSystem, path: string) returns (err: int)
    requires i < ts.Length
    modifies ts
    ensures ts[i] == Store(old(ts[i]), StatScan(Slurped(fs, path)).values)
    ensures forall j :: 0 <= j < ts.Length && j != i ==> ts[j] == old(ts[j])
    ensures err == FileResult(fs, path)
  {
    var buf := Slurped(fs, path);
    var scanned := StatScan(buf);
    ts[i] := Store(ts[i], scanned.values);
    var matched := Returned(scanned);
    err := 4 - matched;
  }

  /** The result is 0 .. 5: 0 exactly when all four fields were assigned, 5 exactly on EOF. */
  lemma FileResultRange(fs: FileSystem, path: string)
    ensures 0 <= FileResult(fs, path) <= 5
    ensures FileResult(fs, path) == 0 <==> |StatScan(Slurped(fs, path)).values| == 4
    ensures FileResult(fs, path) == 5 <==> StatScan(Slurped(fs, path)).eof
  {
    ScanExtends(Slurped(fs, path), StatFormat, []);
    StatFormatAssignsFour();
  }

  /** Input that is only whitespace is skipped entirely. */
  lemma {:induction false} SkipAllSpace(s: string)
    requires forall k :: 0 <= k < |s| ==> IsSpace(s[k])
    ensures SkipSpace(s) == []
    decreases |s|
  {
    if s != [] {
      SkipAllSpace(s[1..]);
    }
  }

  /**
   * Input that is empty or only whitespace (a missing file reads as empty):
   * sscanf reports EOF, the result is 5 and the thread_state is untouched.
   */
  lemma BlankInputIsEOF(s: string, ts: ThreadState)
    requires forall k :: 0 <= k < |s| ==> IsSpace(s[k])
    ensures StatScan(s) == Scanned([], true)
    ensures 4 - Returned(StatScan(s)) == 5
    ensures Store(ts, StatScan(s).values) == ts
  {
    SkipAllSpace(s);
  }

  /** An unreadable file: result 5 and a zero thread_state. */
  lemma MissingFile(fs: FileSystem, path: string)
    requires path !in fs.files
    ensures FileResult(fs, path) == 5 && Parsed(fs, path) == ZeroThreadState
  {
    BlankInputIsEOF("", ZeroThreadState);
  }

  // ---------------------------------------------------------------------
  // well-formed stat lines read back

  /** A field of a stat line as the kernel writes it. */
  datatype Field = NumberField(v: int) | WordField(w: string) | CharField(c: char)

  function Render(f: Field): string {
    match f
    case NumberField(v) => Dec(v)
    case WordField(w) => w
    case CharField(c) => [c]
  }

  /** Each field followed by one space. */
  function Line(fields: seq<Field>): string {
    if fields == [] then "" else Render(fields[0]) + " " + Line(fields[1..])
  }

  /** The field is one token of the shape its conversion reads back exactly. */
  predicate Fits(f: Field, d: Directive) {
    match d
    case Num(Signed, _) => f.NumberField?
    case Num(UnsignedLong, _) => f.NumberField? && 0 <= f.v <= ULONG_MAX
    case Word => f.WordField? && f.w != [] && forall k :: 0 <= k < |f.w| ==> !IsSpace(f.w[k])
    case Letter(_) => f.CharField? && !IsSpace(f.c)
  }

  /** The value a fitting field should produce under its conversion, if it assigns. */
  function ExpectedOne(f: Field, d: Directive): Option<Value> {
    if !Assigns(d) then None
    else match f
      case NumberField(v) => Some(IntValue(v))
      case CharField(c) => Some(CharValue(c))
      case WordField(_) => None
  }

  function Expected(fields: seq<Field>, dirs: seq<Directive>): seq<Value>
    requires |fields| == |dirs|
  {
    if dirs == [] then []
    else Append([], ExpectedOne(fields[0], dirs[0])) + Expected(fields[1..], dirs[1..])
  }

  lemma {:induction false} DigitSpanOf(d: string, rest: string)
    requires AllDigits(d) && (rest == [] || !IsDigit(rest[0]))
    ensures DigitSpan(d + rest) == |d|
    decreases d
  {
    if d != [] {
      assert (d + rest)[1..] == d[1..] + rest;
      DigitSpanOf(d[1..], rest);
    }
  }

  lemma {:induction false} WordSpanOf(w: string, rest: string)
    requires forall k :: 0 <= k < |w| ==> !IsSpace(w[k])
    requires rest != [] && IsSpace(rest[0])
    ensures WordSpan(w + rest) == |w|
    decreases w
  {
    if w != [] {
      assert (w + rest)[1..] == w[1..] + rest;
      WordSpanOf(w[1..], rest);
    }
  }

  lemma ConvertWord(w: string, tail: string)
    requires w != [] && forall k :: 0 <= k < |w| ==> !IsSpace(w[k])
    requires tail != [] && IsSpace(tail[0])
    ensures Convert1(w + tail, Word) == Consumed(tail, None)
  {
    WordSpanOf(w, tail);
    assert (w + tail)[|w|..] == tail;
  }

  lemma ConvertLetter(c: char, assign: bool, tail: string)
    requires !IsSpace(c)
    ensures Convert1([c] + tail, Letter(assign)) == Consumed(tail, if assign then Some(CharValue(c)) else None)
  {
    assert ([c] + tail)[1..] == tail;
  }

  /** The magnitude after an optional sign is read up to the first non-digit. */
  lemma ConvertDigits(sign: string, mag: nat, kind: NumKind, assign: bool, tail: string)
    requires sign == [] || sign == "-"
    requires tail != [] && IsSpace(tail[0])
    ensures var s := sign + DecNat(mag) + tail;
      !IsSpace(s[0]) && Convert1(s, Num(kind, assign))
        == Consumed(tail, if assign then Some(IntValue(Convert(kind, sign != [], mag))) else None)
  {
    var digits := DecNat(mag);
    var u := digits + tail;
    var s := sign + digits + tail;
    if sign == [] {
      assert s == u;
      assert IsDigit(digits[0]) && !IsSign(s[0]) && !IsSpace(s[0]);
    } else {
      assert s[0] == '-' && s[1..] == u;
    }
    DigitSpanOf(digits, tail);
    assert u[..|digits|] == digits;
    assert u[|digits|..] == tail;
    DecNatRoundTrip(mag);
  }

  lemma ConvertNegative(v: int, kind: NumKind, assign: bool, tail: string)
    requires v < 0 && kind == Signed
    requires tail != [] && IsSpace(tail[0])
    ensures !IsSpace((Dec(v) + tail)[0])
    ensures Convert1(Dec(v) + tail, Num(kind, assign)) == Consumed(tail, if assign then Some(IntValue(v)) else None)
  {
    assert Dec(v) + tail == "-" + DecNat(-v) + tail;
    ConvertDigits("-", -v, kind, assign, tail);
  }

  lemma ConvertNonNegative(v: nat, kind: NumKind, assign: bool, tail: string)
    requires kind == UnsignedLong ==> v <= ULONG_MAX
    requires tail != [] && IsSpace(tail[0])
    ensures !IsSpace((Dec(v) + tail)[0])
    ensures Convert1(Dec(v) + tail, Num(kind, assign)) == Consumed(tail, if assign then Some(IntValue(v)) else None)
  {
    assert Dec(v) + tail == [] + DecNat(v) + tail;
    ConvertDigits([], v, kind, assign, tail);
  }

  lemma ConvertNumber(v: int, kind: NumKind, assign: bool, tail: string)
    requires kind == UnsignedLong ==> 0 <= v <= ULONG_MAX
    requires tail != [] && IsSpace(tail[0])
    ensures !IsSpace((Dec(v) + tail)[0])
    ensures Convert1(Dec(v) + tail, Num(kind, assign)) == Consumed(tail, if assign then Some(IntValue(v)) else None)
  {
    if v < 0 {
      ConvertNegative(v, kind, assign, tail);
    } else {
      ConvertNonNegative(v, kind, assign, tail);
    }
  }

  /** One fitting field followed by whitespace: its conversion consumes exactly the field's text. */
  lemma ConvertField(f: Field, d: Directive, tail: string)
    requires Fits(f, d) && tail != [] && IsSpace(tail[0])
    ensures Render(f) + tail != [] && SkipSpace(Render(f) + tail) == Render(f) + tail
    ensures Convert1(Render(f) + tail, d) == Consumed(tail, ExpectedOne(f, d))
  {
    match d
    case Word => ConvertWord(f.w, tail);
    case Letter(assign) => ConvertLetter(f.c, assign, tail);
    case Num(kind, assign) => ConvertNumber(f.v, kind, assign, tail);
  }

  /** A conversion that consumes: scanning goes on after it with the value appended. */
  lemma ScanStep(s: string, dirs: seq<Directive>, got: seq<Value>, rest: string, v: Option<Value>)
    requires dirs != [] && s != [] && SkipSpace(s) == s
    requires Convert1(s, dirs[0]) == Consumed(rest, v)
    ensures Scan(s, dirs, got) == Scan(rest, dirs[1..], Append(got, v))
  {
  }

  lemma AppendRegroup(got: seq<Value>, v: Option<Value>, xs: seq<Value>)
    ensures Append(got, v) + xs == got + (Append([], v) + xs)
  {
  }

  /** A line of fitting fields is read back exactly, whatever follows it. */
  lemma {:induction false} ScanLine(fields: seq<Field>, dirs: seq<Directive>, got: seq<Value>, tail: string)
    requires |fields| == |dirs|
    requires forall k :: 0 <= k < |dirs| ==> Fits(fields[k], dirs[k])
    ensures Scan(Line(fields) + tail, dirs, got) == Scanned(got + Expected(fields, dirs), false)
    decreases |dirs|
  {
    if dirs != [] {
      var rest := Line(fields[1..]) + tail;
      var s := Line(fields) + tail;
      assert s == Render(fields[0]) + ([' '] + rest);
      var v := ExpectedOne(fields[0], dirs[0]);
      ConvertField(fields[0], dirs[0], [' '] + rest);
      ScanStep(s, dirs, got, [' '] + rest, v);
      ScanSkipsSpace(' ', rest, dirs[1..], Append(got, v));
      ScanLine(fields[1..], dirs[1..], Append(got, v), tail);
      AppendRegroup(got, v, Expected(fields[1..], dirs[1..]));
    } else {
      assert got + [] == got;
    }
  }

  lemma {:induction false} ExpectedAppend(f1: seq<Field>, d1: seq<Directive>, f2: seq<Field>, d2: seq<Directive>)
    requires |f1| == |d1| && |f2| == |d2|
    ensures Expected(f1 + f2, d1 + d2) == Expected(f1, d1) + Expected(f2, d2)
    decreases |d1|
  {
    if d1 != [] {
      assert (f1 + f2)[0] == f1[0] && (d1 + d2)[0] == d1[0];
      assert (f1 + f2)[1..] == f1[1..] + f2;
      assert (d1 + d2)[1..] == d1[1..] + d2;
      ExpectedAppend(f1[1..], d1[1..], f2, d2);
      var x := Append([], ExpectedOne(f1[0], d1[0]));
      assert Expected(f1 + f2, d1 + d2) == x + Expected(f1[1..] + f2, d1[1..] + d2);
      assert Expected(f1, d1) == x + Expected(f1[1..], d1[1..]);
    } else {
      assert f1 + f2 == f2 && d1 + d2 == d2;
    }
  }

  lemma {:induction false} ExpectedNone(fields: seq<Field>, dirs: seq<Directive>)
    requires |fields| == |dirs|
    requires forall k :: 0 <= k < |dirs| ==> !Assigns(dirs[k])
    ensures Expected(fields, dirs) == []
    decreases |dirs|
  {
    if dirs != [] {
      ExpectedNone(fields[1..], dirs[1..]);
    }
  }

  /** Fields 1 .. 15 of a stat line: pid, comm, state, ten numbers, utime, stime. */
  function StatFields(pid: int, comm: string, state: char, middle: seq<int>, utime: ulong, stime: ulong): seq<Field>
    requires |middle| == 10
  {
    [NumberField(pid), WordField(comm), CharField(state)]
    + seq(10, k requires 0 <= k < 10 => NumberField(middle[k]))
    + [NumberField(utime), NumberField(stime)]
  }

  lemma ExpectedHead(pid: int, comm: string, state: char)
    ensures Expected([NumberField(pid), WordField(comm), CharField(state)], HeadFormat)
      == [IntValue(pid), CharValue(state)]
  {
    var f := [NumberField(pid), WordField(comm), CharField(state)];
    var d := HeadFormat;
    assert f[1..][1..] == f[2..] && d[1..][1..] == d[2..];
    assert f[2..][1..] == [] && d[2..][1..] == [];
    assert Expected(f[2..], d[2..]) == [CharValue(state)];
    assert Expected(f[1..], d[1..]) == [CharValue(state)];
  }

  lemma ExpectedTimes(utime: ulong, stime: ulong)
    ensures Expected([NumberField(utime), NumberField(stime)], TimesFormat) == [IntValue(utime), IntValue(stime)]
  {
    var f := [NumberField(utime), NumberField(stime)];
    var d := TimesFormat;
    assert f[1..][1..] == [] && d[1..][1..] == [];
    assert Expected(f[1..], d[1..]) == [IntValue(stime)];
  }

  lemma StatFieldsFit(pid: int, comm: string, state: char, middle: seq<int>, utime: ulong, stime: ulong)
    requires comm != [] && forall k :: 0 <= k < |comm| ==> !IsSpace(comm[k])
    requires !IsSpace(state)
    requires |middle| == 10 && forall k :: 5 <= k < 10 ==> 0 <= middle[k] <= ULONG_MAX
    ensures var fields := StatFields(pid, comm, state, middle, utime, stime);
      |fields| == |StatFormat| && forall k :: 0 <= k < |StatFormat| ==> Fits(fields[k], StatFormat[k])
  {
    var head := [NumberField(pid), WordField(comm), CharField(state)];
    var mid := seq(10, k requires 0 <= k < 10 => NumberField(middle[k]));
    var times := [NumberField(utime), NumberField(stime)];
    var fields := StatFields(pid, comm, state, middle, utime, stime);
    assert fields == head + mid + times;
    forall k | 0 <= k < |StatFormat|
      ensures Fits(fields[k], StatFormat[k])
    {
      if k < 3 {
        assert fields[k] == head[k] && StatFormat[k] == HeadFormat[k];
      } else if k < 13 {
        assert fields[k] == mid[k - 3] && StatFormat[k] == SkippedFormat[k - 3];
      } else {
        assert fields[k] == times[k - 13] && StatFormat[k] == TimesFormat[k - 13];
      }
    }
  }

  lemma StatFieldsExpected(pid: int, comm: string, state: char, middle: seq<int>, utime: ulong, stime: ulong)
    requires |middle| == 10
    ensures |StatFields(pid, comm, state, middle, utime, stime)| == |StatFormat|
    ensures Expected(StatFields(pid, comm, state, middle, utime, stime), StatFormat)
      == [IntValue(pid), CharValue(state), IntValue(utime), IntValue(stime)]
  {
    var head := [NumberField(pid), WordField(comm), CharField(state)];
    var mid := seq(10, k requires 0 <= k < 10 => NumberField(middle[k]));
    var times := [NumberField(utime), NumberField(stime)];
    assert StatFields(pid, comm, state, middle, utime, stime) == head + mid + times;
    ExpectedAppend(head + mid, HeadFormat + SkippedFormat, times, TimesFormat);
    ExpectedAppend(head, HeadFormat, mid, SkippedFormat);
    ExpectedNone(mid, SkippedFormat);
    ExpectedHead(pid, comm, state);
    ExpectedTimes(utime, stime);
  }

  /**
   * A well-formed stat line (fields 1 .. 15 each followed by a space, then
   * anything): sscanf assigns all four fields, the result is 0 and the
   * thread_state holds pid, state, utime and stime.
   */
  lemma WellFormedStatLine(pid: int, comm: string, state: char, middle: seq<int>, utime: ulong, stime: ulong, tail: string)
    requires comm != [] && forall k :: 0 <= k < |comm| ==> !IsSpace(comm[k])
    requires !IsSpace(state)
    requires |middle| == 10 && forall k :: 5 <= k < 10 ==> 0 <= middle[k] <= ULONG_MAX
    ensures var text := Line(StatFields(pid, comm, state, middle, utime, stime)) + tail;
      StatScan(text) == Scanned([IntValue(pid), CharValue(state), IntValue(utime), IntValue(stime)], false)
      && 4 - Returned(StatScan(text)) == 0
      && Store(ZeroThreadState, StatScan(text).values) == ThreadState(pid, state, utime, stime)
  {
    var fields := StatFields(pid, comm, state, middle, utime, stime);
    StatFieldsFit(pid, comm, state, middle, utime, stime);
    StatFieldsExpected(pid, comm, state, middle, utime, stime);
    ScanLine(fields, StatFormat, [], tail);
  }

  /**
   * The command name is read as one %s token, so a name with a space, such
   * as "(Web Content)", shifts every later field: the state is taken from
   * the first character of the name's second word, and the next number
   * conversion fails on the character after it. Only 2 of the 4 fields are
   * assigned and the result is 2.
   */
  lemma CommWithSpaceMisparses(pid: nat, first: string, c: char, after: string)
    requires first != [] && forall k :: 0 <= k < |first| ==> !IsSpace(first[k])
    requires !IsSpace(c)
    requires after != [] && !IsSpace(after[0]) && !IsSign(after[0]) && !IsDigit(after[0])
    ensures var text := Dec(pid) + " " + first + " " + [c] + after;
      StatScan(text) == Scanned([IntValue(pid), CharValue(c)], false)
      && 4 - Returned(StatScan(text)) == 2
  {
    var d := StatFormat;
    assert d[0] == Num(Signed, true);
    assert d[1] == Word && d[2] == Letter(true) && d[3] == Num(Signed, false);
    var t0 := [' '] + (first + ([' '] + ([c] + after)));
    assert Dec(pid) + " " + first + " " + [c] + after == Dec(pid) + t0;
    // %d takes the pid
    ConvertNonNegative(pid, Signed, true, t0);
    assert SkipSpace(Dec(pid) + t0) == Dec(pid) + t0;
    ScanStep(Dec(pid) + t0, d, [], t0, Some(IntValue(pid)));
    assert Append([], Some(IntValue(pid))) == [IntValue(pid)];
    SplitName(first, c, after, d[1..], [IntValue(pid)]);
    assert [IntValue(pid)] + [CharValue(c)] == [IntValue(pid), CharValue(c)];
    assert StatScan(Dec(pid) + t0) == Scanned([IntValue(pid), CharValue(c)], false);
  }

  /**
   * " <first> <c><after>" against "%*s %c %*d ...": the first word is
   * skipped, <c> is taken as the state, and the number conversion fails.
   */
  lemma SplitName(first: string, c: char, after: string, dirs: seq<Directive>, got: seq<Value>)
    requires first != [] && forall k :: 0 <= k < |first| ==> !IsSpace(first[k])
    requires !IsSpace(c)
    requires after != [] && !IsSpace(after[0]) && !IsSign(after[0]) && !IsDigit(after[0])
    requires |dirs| >= 3 && dirs[0] == Word && dirs[1] == Letter(true) && dirs[2].Num?
    ensures Scan([' '] + (first + ([' '] + ([c] + after))), dirs, got) == Scanned(got + [CharValue(c)], false)
  {
    var t2 := [c] + after;
    var t1 := [' '] + t2;
    var s1 := first + t1;
    assert s1[0] == first[0];
    assert SkipSpace(s1) == s1;
    assert SkipSpace(t2) == t2;
    assert dirs[1..][0] == Letter(true) && dirs[1..][1..][0].Num?;
    // %*s takes the first word of the name
    ScanSkipsSpace(' ', s1, dirs, got);
    ConvertWord(first, t1);
    ScanStep(s1, dirs, got, t1, None);
    // %c takes the first character of the second word
    ScanSkipsSpace(' ', t2, dirs[1..], got);
    ConvertLetter(c, true, after);
    ScanStep(t2, dirs[1..], got, after, Some(CharValue(c)));
    // %*d finds no number
    ScanStops(after, dirs[1..][1..], got + [CharValue(c)]);
  }

  /** A number conversion facing a non-digit stops the scan with what was assigned so far. */
  lemma ScanStops(s: string, dirs: seq<Directive>, got: seq<Value>)
    requires dirs != [] && dirs[0].Num? && s != [] && !IsSpace(s[0]) && !IsSign(s[0]) && !IsDigit(s[0])
    ensures Scan(s, dirs, got) == Scanned(got, false)
  {
    assert SkipSpace(s) == s;
    assert DigitSpan(s) == 0;
  }

  // ---------------------------------------------------------------------
  // allocation with rollback

  /**
   * calloc and free with an allocation ledger. Attempts are numbered from
   * 0; those in `failing` return NULL. A block is named by the number of the
   * attempt that produced it.
   */
  class Allocator {
    const failing: set<nat>
    var attempts: nat
    var allocs: nat
    var released: seq<nat>
    var live: set<nat>

    ghost predicate Valid()
      reads this
    {
      |released| <= allocs && |live| == allocs - |released| && forall b :: b in live ==> b < attempts
    }

    constructor (failing: set<nat>)
      ensures this.failing == failing && Valid()
      ensures attempts == 0 && allocs == 0 && released == [] && live == {}
    {
      this.failing := failing;
      attempts, allocs, released := 0, 0, [];
      live := {};
    }

    method Calloc() returns (block: Option<nat>)
      requires Valid()
      modifies this
      ensures Valid() && attempts == old(attempts) + 1 && released == old(released)
      ensures old(attempts) in failing ==> block == None && allocs == old(allocs) && live == old(live)
      ensures old(attempts) !in failing ==>
        block == Some(old(attempts)) && allocs == old(allocs) + 1 && live == old(live) + {old(attempts)}
    {
      if attempts in failing {
        block := None;
      } else {
        block := Some(attempts);
        assert attempts !in live;
        live := live + {attempts};
        allocs := allocs + 1;
      }
      attempts := attempts + 1;
    }

    /** free: NULL is ignored; a live block is released, and the order of releases is kept */
    method Free(block: Option<nat>)
      requires Valid() && (block.Some? ==> block.value in live)
      modifies this
      ensures Valid() && attempts == old(attempts) && allocs == old(allocs)
      ensures block.None? ==> released == old(released) && live == old(live)
      ensures block.Some? ==> released == old(released) + [block.value] && live == old(live) - {block.value}
    {
      if block.Some? {
        live := live - {block.value};
        released := released + [block.value];
      }
    }
  }

  /** struct state_list: `len` thread states in an array of their own */
  class StateList {
    const block: nat
    const statesBlock: nat
    const states: array<ThreadState>
    const len: nat

    constructor (block: nat, statesBlock: nat, states: array<ThreadState>, len: nat)
      ensures this.block == block && this.statesBlock == statesBlock
      ensures this.states == states && this.len == len
    {
      this.block, this.statesBlock := block, statesBlock;
      this.states, this.len := states, len;
    }
  }

  /**
   * state_list_new: calloc the list, then its states; if the second calloc
   * fails, free the first. NULL exactly when either attempt fails, and then
   * nothing is left allocated.
   */
  method StateListNew(alloc: Allocator, length: nat) returns (sl: StateList?)
    requires alloc.Valid()
    modifies alloc
    ensures alloc.Valid() && alloc.attempts <= old(alloc.attempts) + 2
    ensures sl == null <==> old(alloc.attempts) in alloc.failing || old(alloc.attempts) + 1 in alloc.failing
    ensures sl == null ==> alloc.live == old(alloc.live) && alloc.allocs - |alloc.released| == old(alloc.allocs) - |old(alloc.released)|
    ensures sl != null ==>
      fresh(sl) && fresh(sl.states) && sl.len == length && sl.states.Length == length
      && (forall i :: 0 <= i < length ==> sl.states[i] == ZeroThreadState)
      && sl.block != sl.statesBlock
      && sl.block !in old(alloc.live) && sl.statesBlock !in old(alloc.live)
      && alloc.live == old(alloc.live) + {sl.block, sl.statesBlock}
  {
    var first := alloc.Calloc();
    if first == None {
      return null;
    }
    var second := alloc.Calloc();
    if second == None {
      alloc.Free(first);
      return null;
    }
    var states := new ThreadState[length](_ => ZeroThreadState);
    sl := new StateList(first.value, second.value, states, length);
  }

  /** state_list_free: NULL-safe; frees the states, then the list */
  method StateListFree(alloc: Allocator, sl: StateList?)
    requires alloc.Valid()
    requires sl != null ==> sl.block in alloc.live && sl.statesBlock in alloc.live && sl.block != sl.statesBlock
    modifies alloc
    ensures alloc.Valid() && alloc.allocs == old(alloc.allocs)
    ensures sl == null ==> alloc.live == old(alloc.live) && alloc.released == old(alloc.released)
    ensures sl != null ==>
      alloc.live == old(alloc.live) - {sl.block, sl.statesBlock}
      && alloc.released == old(alloc.released) + [sl.statesBlock, sl.block]
  {
    if sl != null {
      alloc.Free(Some(sl.statesBlock));
      alloc.Free(Some(sl.block));
    }
  }

  // ---------------------------------------------------------------------
  // get_states_proc

  /** The sum of a sequence of results. */
  function Total(rs: seq<int>): int {
    if rs == [] then 0 else Total(rs[..|rs| - 1]) + rs[|rs| - 1]
  }

  lemma TotalAppend(rs: seq<int>, x: int)
    ensures Total(rs + [x]) == Total(rs) + x
  {
    assert (rs + [x])[..|rs|] == rs;
  }

  /** A sum of non-negative results is non-negative, and zero exactly when every result is. */
  lemma {:induction false} TotalZeroIff(rs: seq<int>)
    requires forall i :: 0 <= i < |rs| ==> rs[i] >= 0
    ensures Total(rs) >= 0
    ensures Total(rs) == 0 <==> forall i :: 0 <= i < |rs| ==> rs[i] == 0
  {
    if rs != [] {
      var front := rs[..|rs| - 1];
      TotalZeroIff(front);
      if Total(rs) == 0 {
        forall i | 0 <= i < |rs|
          ensures rs[i] == 0
        {
          if i < |rs| - 1 {
            assert rs[i] == front[i];
          }
        }
      } else {
        assert Total(rs) > 0;
      }
    }
  }

  /** The results of `result` over the first n paths, in order. */
  function Results(result: string -> int, paths: seq<string>, n: nat): seq<int>
    requires n <= |paths|
  {
    if n == 0 then [] else Results(result, paths, n - 1) + [result(paths[n - 1])]
  }

  lemma ResultsStep(result: string -> int, paths: seq<string>, i: nat)
    requires i < |paths|
    ensures Results(result, paths, i + 1) == Results(result, paths, i) + [result(paths[i])]
  {
  }

  lemma {:induction false} ResultsAt(result: string -> int, paths: seq<string>, n: nat)
    requires n <= |paths|
    ensures |Results(result, paths, n)| == n
    ensures forall i :: 0 <= i < n ==> Results(result, paths, n)[i] == result(paths[i])
  {
    if n > 0 {
      ResultsAt(result, paths, n - 1);
    }
  }

  /** thread_state_from_path's result, as a function of the path. */
  function ResultOf(fs: FileSystem): string -> int {
    path => FileResult(fs, path)
  }

  /** The error total is never negative, and zero exactly when every file yielded all four fields. */
  lemma ErrorSumZeroIff(fs: FileSystem, paths: seq<string>)
    ensures Total(Results(ResultOf(fs), paths, |paths|)) >= 0
    ensures Total(Results(ResultOf(fs), paths, |paths|)) == 0 <==>
      forall i :: 0 <= i < |paths| ==> FileResult(fs, paths[i]) == 0
  {
    var rs := Results(ResultOf(fs), paths, |paths|);
    ResultsAt(ResultOf(fs), paths, |paths|);
    forall i | 0 <= i < |rs|
      ensures rs[i] >= 0
    {
      FileResultRange(fs, paths[i]);
    }
    TotalZeroIff(rs);
  }

  /** One more file adds its result to the error total. */
  lemma TotalStep(fs: FileSystem, paths: seq<string>, i: nat)
    requires i < |paths|
    ensures Total(Results(ResultOf(fs), paths, i + 1)) == Total(Results(ResultOf(fs), paths, i)) + FileResult(fs, paths[i])
  {
    assert ResultOf(fs)(paths[i]) == FileResult(fs, paths[i]);
    ResultsStep(ResultOf(fs), paths, i);
    TotalAppend(Results(ResultOf(fs), paths, i), FileResult(fs, paths[i]));
  }

  /** The fill loop of get_states_proc: file i into entry i of a zeroed array, summing the results. */
  method FillStates(states: array<ThreadState>, fs: FileSystem, paths: seq<string>) returns (err: int)
    requires states.Length == |paths|
    requires forall j :: 0 <= j < states.Length ==> states[j] == ZeroThreadState
    modifies states
    ensures forall j :: 0 <= j < |paths| ==> states[j] == Parsed(fs, paths[j])
    ensures err == Total(Results(ResultOf(fs), paths, |paths|))
  {
    err := 0;
    var i := 0;
    while i < |paths|
      invariant 0 <= i <= |paths|
      invariant forall j :: 0 <= j < i ==> states[j] == Parsed(fs, paths[j])
      invariant forall j :: i <= j < |paths| ==> states[j] == ZeroThreadState
      invariant err == Total(Results(ResultOf(fs), paths, i))
    {
      var e := ThreadStateFromPath(states, i, fs, paths[i]);
      TotalStep(fs, paths, i);
      err := err + e;
      i := i + 1;
    }
  }

  /**
   * get_states_proc: glob the stat files, allocate a list of that length
   * and parse file i into entry i. A null list stands for the exit the
   * source takes when the allocation fails.
   */
  method GetStatesProc(alloc: Allocator, fs: FileSystem, pid: int, context: Option<string>)
    returns (sl: StateList?, err: int)
    requires alloc.Valid()
    modifies alloc
    ensures alloc.Valid()
    ensures sl == null <==> old(alloc.attempts) in alloc.failing || old(alloc.attempts) + 1 in alloc.failing
    ensures var paths := Glob(fs, StatPattern(context, pid));
      sl != null ==>
        fresh(sl) && fresh(sl.states) && sl.len == |paths| && sl.states.Length == |paths|
        && (forall i :: 0 <= i < |paths| ==> sl.states[i] == Parsed(fs, paths[i]))
        && err == Total(Results(ResultOf(fs), paths, |paths|))
        && alloc.live == old(alloc.live) + {sl.block, sl.statesBlock}
    ensures sl == null ==> alloc.live == old(alloc.live)
  {
    var fakeroot := if context.Some? then context.value else "";
    var pattern := StatPattern(Some(fakeroot), pid);
    assert Root(Some(fakeroot)) == Root(context);
    var paths := Glob(fs, pattern);
    var len := |paths|;
    sl := StateListNew(alloc, len);
    if sl == null {
      err := 0;
      return;
    }
    err := FillStates(sl.states, fs, paths);
  }
}
