/**
 * faux-rogue: the test child. A counter kept in a file decides what each
 * run does: a positive count fails, a negative count hangs, zero succeeds;
 * every run that finds the file moves the stored count one step toward zero.
 */
module FauxRogue {
  import opened Types
  import opened CStrings
  import Sampler

  datatype Action = Succeed | Fail | Hang

  const TEN_MINUTES: nat := 10 * 60

  function Abs(n: int): nat {
    if n < 0 then -n else n
  }

  /** fscanf(failfile, "%d", &failcount): the count read, or 0 when nothing was assigned. */
  function ReadCount(content: string): int {
    var r := Sampler.Scan(content, [Sampler.Num(Sampler.Signed, true)], []);
    if r.values != [] && r.values[0].IntValue? then r.values[0].n else 0
  }

  /** The count written back: one step toward zero, never past it. */
  function StepTowardZero(n: int): (r: int)
    ensures Abs(r) == if n == 0 then 0 else Abs(n) - 1
    ensures (r > 0 ==> n > 0) && (r < 0 ==> n < 0)
  {
    if n > 0 then n - 1
    else if n < 0 then n + 1
    else 0
  }

  /** The action of get_action in tests/faux-rogue.c: hang, then fail, else succeed. */
  function ActionFor(n: int): Action {
    if n < 0 then Hang
    else if n > 0 then Fail
    else Succeed
  }

  /** Each action corresponds to exactly one sign of the count. */
  lemma ActionIff(n: int)
    ensures ActionFor(n) == Hang <==> n < 0
    ensures ActionFor(n) == Fail <==> n > 0
    ensures ActionFor(n) == Succeed <==> n == 0
  {
  }

  /**
   * fseek(failfile, 0, SEEK_SET) then fprintf: the text replaces the start
   * of the file; the file is not truncated, so a longer old content keeps
   * its tail.
   */
  function Overwrite(content: string, text: string): (r: string)
    ensures |r| == if |content| > |text| then |content| else |text|
    ensures r[..|text|] == text
    ensures forall k :: |text| <= k < |r| ==> r[k] == content[k]
  {
    if |content| > |text| then text + content[|text|..] else text
  }

  /** What "%d\n" prints for a count. */
  function CountLine(n: int): string {
    Dec(n) + "\n"
  }

  /** A count printed with "%d\n" reads back as itself, whatever follows the newline. */
  lemma ReadBack(m: int, rest: string)
    ensures ReadCount(CountLine(m) + rest) == m
  {
    var tail := "\n" + rest;
    var d := [Sampler.Num(Sampler.Signed, true)];
    assert CountLine(m) + rest == Dec(m) + tail;
    Sampler.ConvertField(Sampler.NumberField(m), d[0], tail);
    Sampler.ScanStep(Dec(m) + tail, d, [], tail, Some(Sampler.IntValue(m)));
  }

  /** After overwriting any file with "%d\n", the next fscanf reads that count. */
  lemma ReadAfterWrite(content: string, m: int)
    ensures ReadCount(Overwrite(content, CountLine(m))) == m
  {
    var text := CountLine(m);
    var rest := if |content| > |text| then content[|text|..] else "";
    assert Overwrite(content, text) == text + rest;
    ReadBack(m, rest);
  }

  /** A file that starts with anything but blank, sign or digit holds no count: 0 is used. */
  lemma UnparsableIsZero(c: char, rest: string)
    requires !IsSpace(c) && !Sampler.IsSign(c) && !IsDigit(c)
    ensures ReadCount([c] + rest) == 0
  {
    Sampler.ScanStops([c] + rest, [Sampler.Num(Sampler.Signed, true)], []);
  }

  /** An empty or blank file holds no count: 0 is used. */
  lemma BlankIsZero(content: string)
    requires forall k :: 0 <= k < |content| ==> IsSpace(content[k])
    ensures ReadCount(content) == 0
  {
    Sampler.SkipAllSpace(content);
  }

  /** The fail path: argv[2] when given, otherwise the FAILCOUNT environment value. */
  function FailPath(argv: seq<string>, failcountEnv: Option<string>): Option<string> {
    if |argv| > 2 then Some(argv[2]) else failcountEnv
  }

  /** The action one run takes with these files; a missing path or a file fopen cannot open gives 0. */
  function ActionOf(files: map<string, string>, failpath: Option<string>): Action {
    if failpath.Some? && failpath.value in files then ActionFor(ReadCount(files[failpath.value]))
    else Succeed
  }

  /** The file after one run: the count read, one step toward zero, written over the start. */
  function NextContent(content: string): string {
    Overwrite(content, CountLine(StepTowardZero(ReadCount(content))))
  }

  /** The files after one run: only the fail file, and only when it opens, changes. */
  function NextFiles(files: map<string, string>, failpath: Option<string>): map<string, string> {
    if failpath.Some? && failpath.value in files then files[failpath.value := NextContent(files[failpath.value])]
    else files
  }

  /** The files fopen(path, "r+") can open, with their contents. */
  class Disk {
    var files: map<string, string>

    constructor (files: map<string, string>)
      ensures this.files == files
    {
      this.files := files;
    }
  }

  /** get_action of tests/faux-rogue.c: read the count, write it back one step toward zero, choose. */
  method GetAction(disk: Disk, failpath: Option<string>) returns (action: Action)
    modifies disk
    ensures action == ActionOf(old(disk.files), failpath)
    ensures disk.files == NextFiles(old(disk.files), failpath)
  {
    var failcount := 0;
    if failpath.Some? && failpath.value in disk.files {
      var content := disk.files[failpath.value];
      var scanned := Sampler.Scan(content, [Sampler.Num(Sampler.Signed, true)], []);
      if scanned.values != [] && scanned.values[0].IntValue? {
        failcount := scanned.values[0].n;
      }
      var remaining := 0;
      if failcount > 0 {
        remaining := failcount - 1;
      } else if failcount < 0 {
        remaining := failcount + 1;
      }
      disk.files := disk.files[failpath.value := Overwrite(content, CountLine(remaining))];
    }
    if failcount < 0 {
      action := Hang;
    } else if failcount > 0 {
      action := Fail;
    } else {
      action := Succeed;
    }
  }

  /** get_action of the older faux-rogue.c: the same file update, the action chosen succeed-first. */
  method LegacyGetAction(disk: Disk, failpath: Option<string>) returns (action: Action)
    modifies disk
    ensures action == ActionOf(old(disk.files), failpath)
    ensures disk.files == NextFiles(old(disk.files), failpath)
  {
    var failcount := 0;
    if failpath.Some? && failpath.value in disk.files {
      var content := disk.files[failpath.value];
      var scanned := Sampler.Scan(content, [Sampler.Num(Sampler.Signed, true)], []);
      if scanned.values != [] && scanned.values[0].IntValue? {
        failcount := scanned.values[0].n;
      }
      var remaining := 0;
      if failcount > 0 {
        remaining := failcount - 1;
      } else if failcount < 0 {
        remaining := failcount + 1;
      }
      disk.files := disk.files[failpath.value := Overwrite(content, CountLine(remaining))];
    }
    action := Succeed;
    if failcount > 0 {
      action := Fail;
    } else if failcount < 0 {
      action := Hang;
    }
  }

  /** The seconds sleep(ten_minutes) leaves unslept when interrupted. */
  type Unslept = s: nat | s <= TEN_MINUTES

  /** The exit status of main: 0, 127, or one more than the unslept seconds, capped at 99. */
  function ExitStatus(action: Action, unslept: Unslept): (r: int)
    ensures r == 0 <==> action == Succeed
    ensures r == 127 <==> action == Fail
    ensures action == Hang ==> 1 <= r <= 99 && (unslept < 98 ==> r == unslept + 1) && (unslept >= 98 ==> r == 99)
  {
    match action
    case Succeed => 0
    case Fail => 127
    case Hang => var remain := 1 + unslept; if remain > 99 then 99 else remain
  }

  /** Where a SIGTERM interrupts the run, if it does. */
  datatype Term = NoTerm | DuringDelay | DuringHang

  /**
   * main of tests/faux-rogue.c: sleep for the delay, act, and map the action
   * to an exit status; SIGTERM runs a handler that exits with success.
   */
  method FauxRogueMain(disk: Disk, argv: seq<string>, failcountEnv: Option<string>, unslept: Unslept, term: Term)
    returns (status: int)
    modifies disk
    ensures term == DuringDelay ==> status == EXIT_SUCCESS && disk.files == old(disk.files)
    ensures term != DuringDelay ==>
      var failpath := FailPath(argv, failcountEnv);
      var action := ActionOf(old(disk.files), failpath);
      disk.files == NextFiles(old(disk.files), failpath)
      && status == if term == DuringHang && action == Hang then EXIT_SUCCESS else ExitStatus(action, unslept)
  {
    var failpath := FailPath(argv, failcountEnv);
    if term == DuringDelay {
      return EXIT_SUCCESS;
    }
    var action := GetAction(disk, failpath);
    match action
    case Succeed =>
      return 0;
    case Fail =>
      return 127;
    case Hang =>
      if term == DuringHang {
        return EXIT_SUCCESS;
      }
      var remain := 1 + unslept;
      return if remain > 99 then 99 else remain;
  }

  /** main of the older faux-rogue.c: the same mapping, with no SIGTERM handler. */
  method LegacyFauxRogueMain(disk: Disk, argv: seq<string>, failcountEnv: Option<string>, unslept: Unslept)
    returns (status: int)
    modifies disk
    ensures var failpath := FailPath(argv, failcountEnv);
      disk.files == NextFiles(old(disk.files), failpath)
      && status == ExitStatus(ActionOf(old(disk.files), failpath), unslept)
  {
    var failpath := FailPath(argv, failcountEnv);
    var action := LegacyGetAction(disk, failpath);
    match action
    case Succeed =>
      return 0;
    case Fail =>
      return 127;
    case Hang =>
      var remain := 1 + unslept;
      return if remain > 99 then 99 else remain;
  }

  /** With no path argument and no FAILCOUNT, nothing is touched and the run succeeds. */
  lemma NoPathSucceeds(files: map<string, string>, argv: seq<string>)
    requires |argv| <= 2
    ensures ActionOf(files, FailPath(argv, None)) == Succeed
    ensures NextFiles(files, FailPath(argv, None)) == files
  {
  }

  /** The actions of k consecutive runs against the same fail file. */
  function Actions(content: string, k: nat): seq<Action> {
    Runs(ReadCount, NextContent, content, k)
  }

  /**
   * The actions of k consecutive runs, each reading the count from the file
   * with `read` and leaving `next` of it behind.
   */
  function Runs(read: string -> int, next: string -> string, content: string, k: nat): seq<Action>
    decreases k
  {
    if k == 0 then [] else [ActionFor(read(content))] + Runs(read, next, next(content), k - 1)
  }

  /** The actions of k consecutive runs, followed on the stored count alone. */
  function CountActions(n: int, k: nat): seq<Action>
    decreases k
  {
    if k == 0 then [] else [ActionFor(n)] + CountActions(StepTowardZero(n), k - 1)
  }

  /** The next run reads the count this run wrote back. */
  lemma NextReadsStep(content: string)
    ensures ReadCount(NextContent(content)) == StepTowardZero(ReadCount(content))
  {
    ReadAfterWrite(content, StepTowardZero(ReadCount(content)));
  }

  /** Runs whose file reads back the stepped count follow the count alone. */
  lemma {:induction false} RunsFollowCount(read: string -> int, next: string -> string, content: string, k: nat)
    requires forall c :: read(next(c)) == StepTowardZero(read(c))
    ensures Runs(read, next, content, k) == CountActions(read(content), k)
    decreases k
  {
    if k > 0 {
      RunsFollowCount(read, next, next(content), k - 1);
    }
  }

  /** The runs against the file follow the count it holds: what is written back is read next time. */
  lemma ActionsFollowCount(content: string, k: nat)
    ensures Actions(content, k) == CountActions(ReadCount(content), k)
  {
    forall c
      ensures ReadCount(NextContent(c)) == StepTowardZero(ReadCount(c))
    {
      NextReadsStep(c);
    }
    RunsFollowCount(ReadCount, NextContent, content, k);
  }

  /** Counting down from n: |n| runs of the action n asks for, then successes. */
  lemma {:induction false} CountdownOf(n: int, k: nat)
    ensures |CountActions(n, k)| == k
    ensures forall j :: 0 <= j < k ==> CountActions(n, k)[j] == if j < Abs(n) then ActionFor(n) else Succeed
    decreases k
  {
    if k > 0 {
      var m := StepTowardZero(n);
      var rest := CountActions(m, k - 1);
      CountdownOf(m, k - 1);
      forall j | 0 <= j < k
        ensures CountActions(n, k)[j] == if j < Abs(n) then ActionFor(n) else Succeed
      {
        if j > 0 {
          assert CountActions(n, k)[j] == rest[j - 1];
        }
      }
    }
  }

  /**
   * From a stored count n, the first |n| runs all fail (n > 0) or all hang
   * (n < 0), and every later run succeeds.
   */
  lemma Countdown(content: string, k: nat)
    ensures |Actions(content, k)| == k
    ensures var n := ReadCount(content);
      forall j :: 0 <= j < k ==> Actions(content, k)[j] == if j < Abs(n) then ActionFor(n) else Succeed
  {
    ActionsFollowCount(content, k);
    CountdownOf(ReadCount(content), k);
  }

  /** A file prepared with "%d\n": n failing (or hanging) runs, then successes. */
  lemma PreparedFile(n: int, k: nat)
    ensures |Actions(CountLine(n), k)| == k
    ensures forall j :: 0 <= j < k ==> Actions(CountLine(n), k)[j] == if j < Abs(n) then ActionFor(n) else Succeed
  {
    ReadBack(n, "");
    assert CountLine(n) + "" == CountLine(n);
    Countdown(CountLine(n), k);
  }
}
