/**
 * mkuidns.c: the parent writes the user and group maps of a child in a new user namespace and then
 * tells it to go on over a socket pair.
 */
module UserNs {
  import opened Basics
  import opened Decimal
  import opened Runs

  // ----- the map line

  const WIDTH: nat := 6
  const WRITE_SIZE: nat := 11
  const UINT_SIZE: int := 0x1_0000_0000

  /** The int that %d prints for an unsigned id. */
  function AsInt(id: nat): int
    requires id < UINT_SIZE
  {
    if id < 0x8000_0000 then id else id - UINT_SIZE
  }

  function Zeros(k: nat): (s: string)
    ensures |s| == k && forall i :: 0 <= i < k ==> s[i] == '0'
  {
    seq(k, i => '0')
  }

  function Padded(s: string, width: nat): string {
    (if |s| < width then Zeros(width - |s|) else "") + s
  }

  /** %0wd: at least w characters, the sign among them. */
  function Format(v: int, w: nat): string
    requires w >= 1
  {
    if v >= 0 then Padded(Digits(v), w) else "-" + Padded(Digits(-v), w - 1)
  }

  function LineOf(v: int, w: nat): (s: string)
    requires w >= 1
    ensures |s| >= w + 5
  {
    "0 " + Format(v, w) + " 1\n"
  }

  /** The line is written as if the number had just w characters. */
  function Cut(v: int, w: nat): string
    requires w >= 1
  {
    LineOf(v, w)[..w + 5]
  }

  /** The program's line: width 6. */
  function Line(id: nat): string
    requires id < UINT_SIZE
  {
    LineOf(AsInt(id), WIDTH)
  }

  /** The bytes handed to write. */
  function Written(id: nat): (s: string)
    requires id < UINT_SIZE
    ensures |s| == WRITE_SIZE
  {
    Cut(AsInt(id), WIDTH)
  }

  function DigitsAtStart(s: string): (n: nat)
    ensures n <= |s| && forall i :: 0 <= i < n ==> IsDigit(s[i])
    ensures n < |s| ==> !IsDigit(s[n])
  {
    if s == "" || !IsDigit(s[0]) then 0 else 1 + DigitsAtStart(s[1..])
  }

  /** A decimal number at the start of s, and what follows it. */
  function ParseNumber(s: string): Option<(nat, string)> {
    var n := DigitsAtStart(s);
    if n == 0 then None else Some((Value(s[..n]), s[n..]))
  }

  function SkipSpace(s: string): Option<string> {
    if s != "" && s[0] == ' ' then Some(s[1..]) else None
  }

  /** A space, a number, and the end of the line. */
  function ParseCount(s: string): Option<nat> {
    match SkipSpace(s)
    case None => None
    case Some(after) =>
      match ParseNumber(after)
      case None => None
      case Some((count, rest)) => if rest == "" || rest == "\n" then Some(count) else None
  }

  /** A space, a number, and what ParseCount accepts. */
  function ParseOutside(s: string): Option<(nat, nat)> {
    match SkipSpace(s)
    case None => None
    case Some(after) =>
      match ParseNumber(after)
      case None => None
      case Some((outside, rest)) =>
        match ParseCount(rest)
        case None => None
        case Some(count) => Some((outside, count))
  }

  /** A line of a map file: three decimal numbers with a space between them; the newline may be missing. */
  function ParseLine(s: string): Option<(nat, nat, nat)> {
    match ParseNumber(s)
    case None => None
    case Some((inside, rest)) =>
      match ParseOutside(rest)
      case None => None
      case Some((outside, count)) => Some((inside, outside, count))
  }

  lemma {:induction false} DigitsThenRest(d: string, r: string)
    requires forall i :: 0 <= i < |d| ==> IsDigit(d[i])
    requires r != "" ==> !IsDigit(r[0])
    ensures DigitsAtStart(d + r) == |d|
  {
    if d == "" {
      assert d + r == r;
    } else {
      assert (d + r)[1..] == d[1..] + r;
      DigitsThenRest(d[1..], r);
    }
  }

  lemma NumberThenRest(d: string, r: string)
    requires d != "" && forall i :: 0 <= i < |d| ==> IsDigit(d[i])
    requires r != "" ==> !IsDigit(r[0])
    ensures ParseNumber(d + r) == Some((Value(d), r))
  {
    DigitsThenRest(d, r);
    assert (d + r)[..|d|] == d && (d + r)[|d|..] == r;
  }

  lemma {:induction false} ValueOfPadded(k: nat, d: string)
    requires forall i :: 0 <= i < |d| ==> IsDigit(d[i])
    ensures Value(Zeros(k) + d) == Value(d)
  {
    var s := Zeros(k) + d;
    if d == "" {
      assert s == Zeros(k);
      if k > 0 {
        assert Zeros(k)[..k - 1] == Zeros(k - 1) + "";
        ValueOfPadded(k - 1, "");
      }
    } else {
      var last := |d| - 1;
      assert s[..|s| - 1] == Zeros(k) + d[..last];
      assert s[|s| - 1] == d[last];
      ValueOfPadded(k, d[..last]);
    }
  }

  predicate AllDigits(f: string) { f != "" && forall i | 0 <= i < |f| :: IsDigit(f[i]) }

  lemma PaddedIsDigits(d: string, width: nat)
    requires AllDigits(d)
    ensures AllDigits(Padded(d, width)) && |Padded(d, width)| == if |d| < width then width else |d|
  {}

  lemma PaddedValue(d: string, width: nat)
    requires AllDigits(d)
    ensures AllDigits(Padded(d, width)) && Value(Padded(d, width)) == Value(d)
  {
    PaddedIsDigits(d, width);
    if |d| < width { ValueOfPadded(width - |d|, d); } else { assert "" + d == d; }
  }

  /** The formatted number is all digits, has its value, and is as wide as asked for only if it fits. */
  lemma FormatOfId(v: nat, w: nat)
    requires w >= 1
    ensures AllDigits(Format(v, w)) && Value(Format(v, w)) == v
    ensures |Format(v, w)| >= w
    ensures |Format(v, w)| <= w <==> v < Pow10(w)
    ensures |Format(v, w)| <= w + 1 <==> v < Pow10(w + 1)
  {
    PaddedIsDigits(Digits(v), w);
    PaddedValue(Digits(v), w);
    ValueOfDigits(v);
    DigitsLength(v, w);
    DigitsLength(v, w + 1);
  }

  lemma ParseZero(r: string)
    requires r != "" && r[0] == ' '
    ensures ParseLine("0" + r) ==
      match ParseOutside(r)
      case None => None
      case Some((outside, count)) => Some((0, outside, count))
  {
    NumberThenRest("0", r);
    assert Value("0") == 0 by { assert "0"[..0] == ""; }
  }

  lemma ParseCountOne(tail: string)
    requires tail == "" || tail == "\n"
    ensures ParseCount(" 1" + tail) == Some(1)
  {
    assert (" 1" + tail)[1..] == "1" + tail;
    NumberThenRest("1", tail);
    assert "1"[..0] == "";
  }

  lemma ParseAfterSpace(f: string, rest: string)
    requires AllDigits(f) && (rest != "" ==> !IsDigit(rest[0]))
    ensures ParseOutside(" " + f + rest) ==
      match ParseCount(rest)
      case None => None
      case Some(count) => Some((Value(f), count))
  {
    var s := " " + f + rest;
    assert s[0] == ' ' && s[1..] == f + rest;
    assert SkipSpace(s) == Some(f + rest);
    NumberThenRest(f, rest);
  }

  lemma {:induction false} ParseWhole(f: string, tail: string)
    requires AllDigits(f) && (tail == "" || tail == "\n")
    ensures ParseLine("0" + (" " + f + (" 1" + tail))) == Some((0, Value(f), 1))
  {
    ParseZero(" " + f + (" 1" + tail));
    ParseAfterSpace(f, " 1" + tail);
    ParseCountOne(tail);
  }

  /** Without its third number a line is refused. */
  lemma ParseCut(f: string, tail: string)
    requires AllDigits(f) && (tail == "" || tail == " ")
    ensures ParseLine("0" + (" " + f + tail)) == None
  {
    ParseZero(" " + f + tail);
    ParseAfterSpace(f, tail);
    assert ParseCount(tail) == None;
  }

  lemma SmallParses(v: nat, w: nat)
    requires w >= 1 && v < Pow10(w + 1)
    ensures ParseLine(Cut(v, w)) == Some((0, v, 1))
  {
    var f := Format(v, w);
    FormatOfId(v, w);
    var tail := if |f| == w then "\n" else "";
    assert Cut(v, w) == "0" + (" " + f + (" 1" + tail));
    ParseWhole(f, tail);
  }

  /** What is left of the line when its number f is at least two characters too wide. */
  lemma CutOfWide(v: int, w: nat, f: string)
    requires w >= 1 && f == Format(v, w) && |f| >= w + 2
    ensures |f| == w + 2 ==> Cut(v, w) == "0" + (" " + f + " ")
    ensures |f| > w + 2 ==> Cut(v, w) == "0" + (" " + f[..w + 3] + "")
  {
    assert LineOf(v, w) == "0" + (" " + f + " 1\n");
  }

  lemma {:induction false} LargeDoesNotParse(v: nat, w: nat)
    requires w >= 1 && Pow10(w + 1) <= v
    ensures ParseLine(Cut(v, w)) == None
  {
    var f := Format(v, w);
    FormatOfId(v, w);
    CutOfWide(v, w, f);
    if |f| == w + 2 { ParseCut(f, " "); } else { ParseCut(f[..w + 3], ""); }
  }

  lemma {:induction false} NegativeDoesNotParse(v: int, w: nat)
    requires w >= 1 && v < 0
    ensures ParseLine(Cut(v, w)) == None
  {
    var s := Cut(v, w);
    assert s[0] == '0' && s[1] == ' ' && s[2] == '-';
    assert s == "0" + s[1..];
    ParseZero(s[1..]);
    assert s[1..][1..] == s[2..];
    assert SkipSpace(s[1..]) == Some(s[2..]);
    assert DigitsAtStart(s[2..]) == 0;
  }

  /**
   * For any width w the w + 5 bytes map v to 0 if v has at most w + 1 digits and no sign, and are refused
   * otherwise.
   */
  lemma CutParsesExactly(v: int, w: nat)
    requires w >= 1
    ensures ParseLine(Cut(v, w)) == if 0 <= v < Pow10(w + 1) then Some((0, v as nat, 1)) else None
  {
    if v < 0 {
      NegativeDoesNotParse(v, w);
    } else if v < Pow10(w + 1) {
      SmallParses(v, w);
    } else {
      LargeDoesNotParse(v, w);
    }
  }

  lemma WidthOfFormat(v: int, w: nat)
    requires w >= 1
    ensures |Format(v, w)| <= w <==> -v < Pow10(w - 1) && v < Pow10(w)
  {
    if v >= 0 {
      FormatOfId(v, w);
    } else if w > 1 {
      DigitsLength(-v, w - 1);
    }
  }

  /** They are the whole line if and only if the number, with its sign, fits the width. */
  lemma CutIsWholeExactly(v: int, w: nat)
    requires w >= 1
    ensures Cut(v, w) == LineOf(v, w) <==> -v < Pow10(w - 1) && v < Pow10(w)
  {
    WidthOfFormat(v, w);
    if |LineOf(v, w)| == w + 5 { assert LineOf(v, w)[..w + 5] == LineOf(v, w); }
  }

  lemma PowersForWidth()
    ensures Pow10(WIDTH - 1) == 100_000 && Pow10(WIDTH) == 1_000_000 && Pow10(WIDTH + 1) == 10_000_000
  {
    assert Pow10(3) == 1000;
    assert Pow10(5) == 100 * Pow10(3);
  }

  /** The 11 bytes written map id to 0 if and only if the id has at most seven digits. */
  lemma MapLineExactly(id: nat)
    requires id < UINT_SIZE
    ensures ParseLine(Written(id)) == Some((0, id, 1)) <==> id < 10_000_000
  {
    PowersForWidth();
    CutParsesExactly(AsInt(id), WIDTH);
  }

  /**
   * Write gets the whole line if and only if the int that %d prints has at most six characters: an id of
   * at most six digits, or one that wraps round to a negative number above -100000.
   */
  lemma WholeLineExactly(id: nat)
    requires id < 0x1_0000_0000
    ensures Written(id) == Line(id) <==> id < 1_000_000 || id >= 4_294_867_297
  {
    PowersForWidth();
    CutIsWholeExactly(AsInt(id), WIDTH);
  }

  // ----- the parent's buffer

  /** sprintf(buf, "0 %06d 1\n", id): the line and a NUL at the front of the buffer, the rest untouched. */
  method PutLine(buf: array<char>, id: nat) returns (n: nat)
    requires id < UINT_SIZE && |Line(id)| < buf.Length
    modifies buf
    ensures n == |Line(id)| && buf[..n] == Line(id) && buf[n] == '\0'
    ensures buf[n + 1..] == old(buf[n + 1..])
  {
    var line := Line(id);
    n := 0;
    while n < |line|
      invariant n <= |line| && buf[..n] == line[..n] && buf[n..] == old(buf[..])[n..]
    {
      buf[n] := line[n];
      n := n + 1;
    }
    buf[n] := '\0';
  }

  lemma LineIsShort(id: nat)
    requires id < UINT_SIZE
    ensures |Line(id)| <= 16
  {
    var v := if AsInt(id) >= 0 then AsInt(id) else -AsInt(id);
    DigitsLength(v, 10);
    assert Pow10(5) == 100_000;
    assert Pow10(10) == 100_000 * Pow10(5);
  }

  /** One map write: whatever was in the buffer, write gets the first 11 bytes of this id's line. */
  method WriteMap(buf: array<char>, id: nat) returns (bytes: string)
    requires id < UINT_SIZE && buf.Length == 2000
    modifies buf
    ensures bytes == Written(id)
    ensures ParseLine(bytes) == Some((0, id, 1)) <==> id < 10_000_000
  {
    LineIsShort(id);
    var n := PutLine(buf, id);
    bytes := buf[..WRITE_SIZE];
    assert bytes == buf[..n][..WRITE_SIZE];
    MapLineExactly(id);
  }

  // ----- the handshake

  datatype Event =
    | MapUid | DenySetgroups | MapGid | Go
    | MountLib | MountQemu | MountProc | ChangeRoot | ChangeDir | CheckExists | CheckExecutable | ExecCommand

  /** The parent's writes, whose results it ignores, and the child's calls with their outcome. */
  datatype Logged = Wrote(event: Event) | Called(event: Event, ok: bool)

  const PARENT: seq<Event> := [MapUid, DenySetgroups, MapGid, Go]
  const CHILD: seq<Event> :=
    [MountLib, MountQemu, MountProc, ChangeRoot, ChangeDir, CheckExists, CheckExecutable, ExecCommand]

  /** The child's exit status when the call fails; MountProc is not in it because its failure is let pass. */
  function ExitStatus(e: Event): int {
    match e
    case MountLib => 11
    case MountQemu => 12
    case ChangeRoot => 22
    case ChangeDir => 66
    case _ => -2
  }

  datatype ChildPc =
    | Blocked            // in its read of the socket
    | At(next: nat)      // about to make call CHILD[next]
    | Execed
    | Exited(status: int)
    | Killed

  /** `issued` of the parent's writes have been made; `ready` says that the file for the next one is open. */
  datatype State = State(
    issued: nat, ready: bool, gaveUp: bool, waited: bool,
    inSocket: nat, child: ChildPc, log: seq<Logged>)

  datatype Action =
    | Open(ok: bool)
    | Issue
    | Wait
    | ChildReads
    | ChildCalls(ok: bool)
    | ChildEnds(status: int)   // the command it execs terminates
    | ChildKilled              // SIGTERM takes effect; it may never do so

  function Start(): State { State(0, false, false, false, 0, Blocked, []) }

  predicate ChildOver(pc: ChildPc) { pc.Exited? || pc.Killed? }

  /** The child's read returns only when there is something in the socket. */
  predicate Enabled(s: State, a: Action) {
    match a
    case Open(_) => s.issued < 3 && !s.ready && !s.gaveUp
    case Issue => !s.gaveUp && (s.issued == 3 || (s.issued < 3 && s.ready))
    case Wait => s.issued == 4 && !s.waited && ChildOver(s.child)
    case ChildReads => s.child.Blocked? && s.inSocket > 0
    case ChildCalls(_) => s.child.At? && s.child.next < |CHILD|
    case ChildEnds(_) => s.child.Execed?
    case ChildKilled => s.gaveUp && !ChildOver(s.child)
  }

  function Apply(s: State, a: Action): State
    requires Enabled(s, a)
  {
    match a
    case Open(ok) => if ok then s.(ready := true) else s.(gaveUp := true)
    case Issue =>
      s.(log := s.log + [Wrote(PARENT[s.issued])], issued := s.issued + 1, ready := false,
         inSocket := s.inSocket + if PARENT[s.issued].Go? then 2 else 0)
    case Wait => s.(waited := true)
    case ChildReads => s.(inSocket := if s.inSocket > 2 then s.inSocket - 2 else 0, child := At(0))
    case ChildCalls(ok) =>
      var e := CHILD[s.child.next];
      s.(log := s.log + [Called(e, ok)],
         child := if !ok && !e.MountProc? then Exited(ExitStatus(e))
                  else if e.ExecCommand? then Execed
                  else At(s.child.next + 1))
    case ChildEnds(status) => s.(child := Exited(status))
    case ChildKilled => s.(child := Killed)
  }

  ghost function Step(): (State, State) -> bool {
    (s: State, t: State) => exists a :: Enabled(s, a) && t == Apply(s, a)
  }

  // ----- the invariant

  function Writes(m: nat): seq<Logged>
    requires m <= |PARENT|
  {
    seq(m, i requires 0 <= i < m => Wrote(PARENT[i]))
  }

  function Calls(oks: seq<bool>): seq<Logged>
    requires |oks| <= |CHILD|
  {
    seq(|oks|, i requires 0 <= i < |oks| => Called(CHILD[i], oks[i]))
  }

  /** Every call has succeeded, but for the mount of proc, which need not. */
  predicate Passed(oks: seq<bool>) { forall i | 0 <= i < |oks| :: oks[i] || i == 2 }

  /** Where the child is after calls with these outcomes. */
  predicate ChildAfter(child: ChildPc, oks: seq<bool>) {
    var n := |oks|;
    n <= |CHILD| &&
    match child
    case Blocked => n == 0
    case At(next) => n == next < |CHILD| && Passed(oks)
    case Execed => n == |CHILD| && Passed(oks)
    case Exited(status) =>
      || (n == |CHILD| && Passed(oks))
      || (n > 0 && Passed(oks[..n - 1]) && !oks[n - 1] && n - 1 != 2 && status == ExitStatus(CHILD[n - 1]))
    case Killed => false
  }

  predicate LogAfter(s: State, oks: seq<bool>) {
    |oks| <= |CHILD| && s.log == Writes(4) + Calls(oks) && ChildAfter(s.child, oks)
  }

  /** The log is the parent's writes so far and then the child's calls so far. */
  ghost predicate Inv(s: State) {
    && s.issued <= 4
    && (s.gaveUp ==> s.issued < 3) && (s.ready ==> s.issued < 3 && !s.gaveUp)
    && (s.waited ==> ChildOver(s.child) && s.issued == 4)
    && (s.issued < 4 ==>
          s.inSocket == 0 && (s.child.Blocked? || (s.child.Killed? && s.gaveUp)) && s.log == Writes(s.issued))
    && (s.issued == 4 ==> (s.child.Blocked? ==> s.inSocket > 0) && exists oks :: LogAfter(s, oks))
  }

  lemma CallKeepsInv(s: State, ok: bool)
    requires Inv(s) && Enabled(s, ChildCalls(ok)) && s.issued == 4
    ensures Inv(Apply(s, ChildCalls(ok)))
  {
    var t := Apply(s, ChildCalls(ok));
    var oks :| LogAfter(s, oks);
    var more := oks + [ok];
    assert Calls(more) == Calls(oks) + [Called(CHILD[|oks|], ok)];
    assert more[..|more| - 1] == oks;
    assert LogAfter(t, more);
  }

  lemma ChildStepKeepsInv(s: State, a: Action)
    requires Inv(s) && Enabled(s, a) && s.issued == 4 && !a.ChildCalls?
    ensures Inv(Apply(s, a))
  {
    var oks :| LogAfter(s, oks);
    assert LogAfter(Apply(s, a), oks);
  }

  lemma IssueKeepsInv(s: State)
    requires Inv(s) && Enabled(s, Issue)
    ensures Inv(Apply(s, Issue))
  {
    assert Writes(s.issued + 1) == Writes(s.issued) + [Wrote(PARENT[s.issued])];
    if s.issued == 3 {
      assert Calls([]) == [];
      assert LogAfter(Apply(s, Issue), []);
    }
  }

  lemma StepKeepsInv(s: State, a: Action)
    requires Inv(s) && Enabled(s, a)
    ensures Inv(Apply(s, a))
  {
    if s.issued == 4 {
      if a.ChildCalls? { CallKeepsInv(s, a.ok); } else { ChildStepKeepsInv(s, a); }
    } else if a.Issue? {
      IssueKeepsInv(s);
    }
  }

  lemma {:induction false} InvOnReachable(s: State)
    requires Reachable(Step(), Start(), s)
    ensures Inv(s)
  {
    assert Writes(0) == [];
    var inv := (s: State) => Inv(s);
    forall s, t | inv(s) && Step()(s, t) ensures inv(t) {
      var a :| Enabled(s, a) && t == Apply(s, a);
      StepKeepsInv(s, a);
    }
    InvariantOnReachable(Step(), inv, Start(), s);
  }

  // ----- the main results

  /** The log is the first m of the parent's writes and then the first n of the child's calls. */
  predicate InOrder(log: seq<Logged>, m: nat, n: nat) {
    var writes := [MapUid, DenySetgroups, MapGid, Go];
    var calls := [MountLib, MountQemu, MountProc, ChangeRoot, ChangeDir, CheckExists, CheckExecutable, ExecCommand];
    && m <= 4 && n <= 8 && |log| == m + n && (n > 0 ==> m == 4)
    && (forall i | 0 <= i < m :: log[i] == Wrote(writes[i]))
    && (forall i | 0 <= i < n :: log[m + i].Called? && log[m + i].event == calls[i])
  }

  /**
   * In every run the child makes none of its calls before the user map, setgroups, the group map and
   * the go message have been written in that order, and it makes its own calls in order. If a file
   * could not be opened the child never makes any. The parent's wait returns only once the child is over.
   */
  lemma {:induction false} MapsBeforeCalls(s: State)
    requires Reachable(Step(), Start(), s)
    ensures exists m: nat, n: nat :: InOrder(s.log, m, n)
    ensures s.child.At? || s.child.Execed? || s.child.Exited? ==> |s.log| >= 4
    ensures s.gaveUp ==> |s.log| < 3 && (s.child.Blocked? || s.child.Killed?)
    ensures s.waited ==> ChildOver(s.child)
  {
    InvOnReachable(s);
    if s.issued < 4 {
      assert InOrder(s.log, s.issued, 0);
    } else {
      var oks :| LogAfter(s, oks);
      assert InOrder(s.log, 4, |oks|);
    }
  }

  /** The status with which the child exits when this call fails. */
  predicate ExitsAfter(e: Event, child: ChildPc) {
    && (e.MountLib? ==> child == Exited(11))
    && (e.MountQemu? ==> child == Exited(12))
    && (e.ChangeRoot? ==> child == Exited(22))
    && (e.ChangeDir? ==> child == Exited(66))
    && (e.CheckExists? || e.CheckExecutable? || e.ExecCommand? ==> child == Exited(-2))
  }

  predicate Failed(s: State, i: nat) { i < |s.log| && s.log[i].Called? && !s.log[i].ok }

  lemma EntryOfLog(s: State, oks: seq<bool>, i: nat)
    requires LogAfter(s, oks) && i < |s.log|
    ensures |s.log| == 4 + |oks| && s.log[i] == if i < 4 then Wrote(PARENT[i]) else Called(CHILD[i - 4], oks[i - 4])
  {}

  lemma FailedCallIsLast(s: State, oks: seq<bool>, i: nat)
    requires LogAfter(s, oks) && Failed(s, i) && !s.log[i].event.MountProc?
    ensures i == |s.log| - 1 && s.child == Exited(ExitStatus(s.log[i].event))
  {
    EntryOfLog(s, oks, i);
    var k := i - 4;
    assert CHILD[2] == MountProc;
    assert !oks[k] && k != 2;
    var before := oks[..|oks| - 1];
    assert forall j :: 0 <= j < |before| ==> before[j] == oks[j];
  }

  lemma ExitedEarly(s: State, oks: seq<bool>)
    requires LogAfter(s, oks) && s.child.Exited? && |s.log| < 12
    ensures |s.log| > 4 && Failed(s, |s.log| - 1)
  {
    EntryOfLog(s, oks, |s.log| - 1);
  }

  lemma LogOnReachable(s: State)
    requires Reachable(Step(), Start(), s)
    ensures |s.log| >= 4 ==> exists oks :: LogAfter(s, oks)
    ensures |s.log| < 4 ==> (s.child.Blocked? || s.child.Killed?) && forall i :: !Failed(s, i)
  {
    InvOnReachable(s);
  }

  lemma AfterProcMount(s: State, oks: seq<bool>)
    requires LogAfter(s, oks) && |oks| == 3
    ensures s.child == At(3)
  {}

  lemma CommandRuns(s: State, oks: seq<bool>, i: nat)
    requires LogAfter(s, oks) && s.child.Execed?
    ensures |s.log| == 12 && (Failed(s, i) ==> s.log[i].event.MountProc?)
  {
    if Failed(s, i) { EntryOfLog(s, oks, i); }
  }

  /**
   * In every run a call of the child that fails, other than the mount of proc, is its last, and it has
   * exited with that call's status; after the mount of proc, failed or not, it is about to change its root.
   * It is running the command, or has ended with a status of the command's, only if all the other calls
   * have succeeded.
   */
  lemma {:induction false} FailureStopsChild(s: State, i: nat)
    requires Reachable(Step(), Start(), s)
    ensures Failed(s, i) && !s.log[i].event.MountProc? ==> i == |s.log| - 1 && ExitsAfter(s.log[i].event, s.child)
    ensures |s.log| == 7 ==> s.log[6].event.MountProc? && s.child == At(3) && CHILD[3].ChangeRoot?
    ensures s.child.Execed? ==> |s.log| == 12 && (Failed(s, i) ==> s.log[i].event.MountProc?)
    ensures s.child.Exited? && |s.log| < 12 ==> |s.log| > 4 && Failed(s, |s.log| - 1)
  {
    LogOnReachable(s);
    if |s.log| >= 4 {
      var oks :| LogAfter(s, oks);
      if Failed(s, i) && !s.log[i].event.MountProc? { FailedCallIsLast(s, oks, i); }
      if |s.log| == 7 {
        EntryOfLog(s, oks, 6);
        AfterProcMount(s, oks);
      }
      if s.child.Execed? { CommandRuns(s, oks, i); }
      if s.child.Exited? && |s.log| < 12 { ExitedEarly(s, oks); }
    }
  }

  // ----- every run ends

  function ChildWork(pc: ChildPc): nat {
    match pc
    case Blocked => 10
    case At(next) => if next <= 8 then 9 - next else 0
    case Execed => 1
    case _ => 0
  }

  /** Steps still to come at most: three files opened, four writes, the wait, and the child's. */
  function Work(s: State): int {
    (if s.gaveUp then 0 else 2 * (4 - s.issued) - One(s.ready)) + One(!s.waited) + ChildWork(s.child)
  }

  lemma StepLowersWork(s: State, a: Action)
    requires Inv(s) && Enabled(s, a)
    ensures 0 <= Work(Apply(s, a)) < Work(s)
  {
    StepKeepsInv(s, a);
  }

  ghost predicate Stuck(s: State) { forall a :: !Enabled(s, a) }

  /** The parent has seen the child's end; or it has given up and killed the child. */
  predicate Finished(s: State) { s.waited || (s.gaveUp && s.child.Killed?) }

  lemma StuckMeansFinished(s: State)
    requires Inv(s)
    ensures Stuck(s) <==> Finished(s)
  {
    if !Finished(s) {
      assert exists a :: Enabled(s, a) by {
        if s.gaveUp {
          assert Enabled(s, ChildKilled);
        } else if s.issued < 4 {
          assert Enabled(s, if s.issued < 3 && !s.ready then Open(true) else Issue);
        } else {
          ChildMoves(s);
        }
      }
    }
  }

  lemma ChildMoves(s: State)
    requires Inv(s) && s.issued == 4 && !s.waited
    ensures exists a :: Enabled(s, a)
  {
    var oks :| LogAfter(s, oks);
    var a := match s.child
      case Blocked => ChildReads
      case At(_) => ChildCalls(true)
      case Execed => ChildEnds(0)
      case _ => Wait;
    assert Enabled(s, a);
  }

  ghost predicate RunOf(run: seq<State>) { IsRun(Step(), run) && run[0] == Start() }

  lemma OnStep(s: State, t: State)
    requires Inv(s) && Step()(s, t)
    ensures Inv(t) && 0 <= Work(t) < Work(s)
  {
    var a :| Enabled(s, a) && t == Apply(s, a);
    StepKeepsInv(s, a);
    StepLowersWork(s, a);
  }

  lemma {:induction false} OnRun(run: seq<State>, i: nat)
    requires RunOf(run) && i < |run|
    ensures Inv(run[i]) && 0 <= Work(run[i]) && Work(run[i]) + i <= 19
  {
    if i == 0 {
      assert Writes(0) == [];
    } else {
      OnRun(run, i - 1);
      assert Step()(run[i - 1], run[i]);
      OnStep(run[i - 1], run[i]);
    }
  }

  /** Neither side ever waits for the other in vain: a run has at most 19 steps and is stuck only at the end. */
  lemma HandshakeCompletes(run: seq<State>)
    requires RunOf(run)
    ensures |run| - 1 <= 19
    ensures Stuck(run[|run| - 1]) <==> Finished(run[|run| - 1])
  {
    OnRun(run, |run| - 1);
    StuckMeansFinished(run[|run| - 1]);
  }
}
