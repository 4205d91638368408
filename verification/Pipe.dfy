/**
 * controlthreads.c: pipewriter sends its messages over a named pipe, each with its final NUL in one
 * write, and closes it; pipereader makes as many reads as there are messages, of at most a buffer each.
 * A write of up to PIPE_BUF bytes is one step, and so is a read.
 */
module Pipe {
  import opened Basics
  import opened Decimal
  import opened Runs

  /** The messages as written, and the size of the reader's buffer. */
  datatype Config = Config(messages: seq<string>, size: nat)

  datatype State = State(
    written: nat, closed: bool, broken: bool,   // the writer; broken: a write after the reader closed
    pipe: string,
    chunks: seq<string>, readerClosed: bool)

  datatype Action = Write | CloseWrite | Read | CloseRead

  function Start(): State { State(0, false, false, "", [], false) }

  /** A read blocks while the pipe is empty and the writer has it open. */
  predicate Enabled(c: Config, s: State, a: Action) {
    match a
    case Write => s.written < |c.messages| && !s.broken
    case CloseWrite => s.written >= |c.messages| && !s.closed && !s.broken
    case Read => |s.chunks| < |c.messages| && (s.pipe != "" || s.closed || s.broken)
    case CloseRead => |s.chunks| >= |c.messages| && !s.readerClosed
  }

  function Apply(c: Config, s: State, a: Action): State
    requires Enabled(c, s, a)
  {
    match a
    case Write =>
      if s.readerClosed then s.(broken := true)
      else s.(pipe := s.pipe + c.messages[s.written], written := s.written + 1)
    case CloseWrite => s.(closed := true)
    case Read =>
      var n := Min(|s.pipe|, c.size);
      s.(chunks := s.chunks + [s.pipe[..n]], pipe := s.pipe[n..])
    case CloseRead => s.(readerClosed := true)
  }

  ghost function Step(c: Config): (State, State) -> bool {
    (s: State, t: State) => exists a :: Enabled(c, s, a) && t == Apply(c, s, a)
  }

  function Flat(parts: seq<string>): string {
    if parts == [] then "" else Flat(parts[..|parts| - 1]) + parts[|parts| - 1]
  }

  ghost predicate WellFormed(c: Config) {
    c.size > 0 && forall m :: m in c.messages ==> m != ""
  }

  /** The reader has made all its reads. */
  predicate ReaderDone(c: Config, s: State) { |s.chunks| == |c.messages| }

  // ----- bytes are neither lost, made up nor reordered

  ghost predicate Conserved(c: Config, s: State) {
    && s.written <= |c.messages| && |s.chunks| <= |c.messages|
    && Flat(s.chunks) + s.pipe == Flat(c.messages[..s.written])
    && (s.closed ==> s.written == |c.messages|)
    && (s.readerClosed ==> ReaderDone(c, s))
    && (s.broken ==> s.readerClosed)
  }

  lemma FlatSnoc(parts: seq<string>, x: string)
    ensures Flat(parts + [x]) == Flat(parts) + x
  {
    assert (parts + [x])[..|parts|] == parts;
  }

  lemma StepConserves(c: Config, s: State, a: Action)
    requires WellFormed(c) && Conserved(c, s) && Enabled(c, s, a)
    ensures Conserved(c, Apply(c, s, a))
  {
    match a
    case Write =>
      var i := s.written;
      assert c.messages[..i + 1] == c.messages[..i] + [c.messages[i]];
      FlatSnoc(c.messages[..i], c.messages[i]);
      assert Flat(s.chunks) + (s.pipe + c.messages[i]) == (Flat(s.chunks) + s.pipe) + c.messages[i];
    case Read =>
      var n := Min(|s.pipe|, c.size);
      FlatSnoc(s.chunks, s.pipe[..n]);
      assert s.pipe == s.pipe[..n] + s.pipe[n..];
      assert (Flat(s.chunks) + s.pipe[..n]) + s.pipe[n..] == Flat(s.chunks) + s.pipe;
    case _ =>
  }

  lemma {:induction false} ConservedOnReachable(c: Config, s: State)
    requires WellFormed(c) && Reachable(Step(c), Start(), s)
    ensures Conserved(c, s)
  {
    var inv := (s: State) => Conserved(c, s);
    forall s, t | inv(s) && Step(c)(s, t) ensures inv(t) {
      var a :| Enabled(c, s, a) && t == Apply(c, s, a);
      StepConserves(c, s, a);
    }
    InvariantOnReachable(Step(c), inv, Start(), s);
  }

  // ----- when as many reads as messages are enough

  ghost predicate AlwaysDelivers(c: Config) {
    forall s :: Reachable(Step(c), Start(), s) && ReaderDone(c, s) ==> Flat(s.chunks) == Flat(c.messages)
  }

  ghost predicate EveryMessageFits(c: Config) { forall m :: m in c.messages ==> |m| <= c.size }

  /** Either the writes still lead the reads by enough, or everything has been read. */
  ghost predicate Leads(c: Config, s: State) {
    && Conserved(c, s)
    && ((|s.chunks| <= s.written && |s.pipe| <= Times(s.written - |s.chunks|, c.size))
        || (s.written == |c.messages| && s.pipe == ""))
  }

  lemma WriteKeepsLead(c: Config, s: State)
    requires WellFormed(c) && EveryMessageFits(c) && Leads(c, s) && !s.readerClosed && Enabled(c, s, Write)
    ensures Leads(c, Apply(c, s, Write))
  {
    StepConserves(c, s, Write);
    assert c.messages[s.written] in c.messages;
    assert Times(s.written + 1 - |s.chunks|, c.size) == c.size + Times(s.written - |s.chunks|, c.size);
  }

  lemma ReadKeepsLead(c: Config, s: State)
    requires WellFormed(c) && Leads(c, s) && !s.broken && Enabled(c, s, Read)
    ensures Leads(c, Apply(c, s, Read))
  {
    StepConserves(c, s, Read);
    var lead := s.written - |s.chunks|;
    if s.pipe != "" && lead > 0 {
      assert Times(lead, c.size) == c.size + Times(lead - 1, c.size);
    }
  }

  lemma StepKeepsLead(c: Config, s: State, a: Action)
    requires WellFormed(c) && EveryMessageFits(c) && Leads(c, s) && !s.broken && Enabled(c, s, a)
    ensures Leads(c, Apply(c, s, a)) && !Apply(c, s, a).broken
  {
    match a
    case Write => if !s.readerClosed { WriteKeepsLead(c, s); }
    case Read => ReadKeepsLead(c, s);
    case _ => StepConserves(c, s, a);
  }

  lemma {:induction false} FitsMeansDelivers(c: Config, s: State)
    requires WellFormed(c) && EveryMessageFits(c) && Reachable(Step(c), Start(), s)
    ensures !s.broken && (ReaderDone(c, s) ==> Flat(s.chunks) == Flat(c.messages))
  {
    var inv := (s: State) => Leads(c, s) && !s.broken;
    forall s, t | inv(s) && Step(c)(s, t) ensures inv(t) {
      var a :| Enabled(c, s, a) && t == Apply(c, s, a);
      StepKeepsLead(c, s, a);
    }
    InvariantOnReachable(Step(c), inv, Start(), s);
    if ReaderDone(c, s) {
      assert c.messages[..|c.messages|] == c.messages;
      assert Flat(s.chunks) + "" == Flat(s.chunks);
    }
  }

  // The other direction: a writer and reader in lockstep, with one message longer than the buffer.

  lemma {:induction false} Then(c: Config, s: State, a: Action) returns (t: State)
    requires Reachable(Step(c), Start(), s) && Enabled(c, s, a)
    ensures t == Apply(c, s, a) && Reachable(Step(c), Start(), t)
  {
    t := Apply(c, s, a);
    assert Step(c)(s, t);
    ReachableStep(Step(c), Start(), s, t);
  }

  lemma {:induction false} FlatGrows(messages: seq<string>, i: nat)
    requires i <= |messages| && forall m :: m in messages ==> m != ""
    ensures |Flat(messages[..i])| <= |Flat(messages)|
    ensures i < |messages| ==> |Flat(messages[..i])| < |Flat(messages)|
  {
    if i == |messages| {
      assert messages[..i] == messages;
    } else {
      var last := |messages| - 1;
      assert forall m :: m in messages[..last] ==> m in messages;
      FlatGrows(messages[..last], i);
      assert messages[..last][..i] == messages[..i];
      assert messages[last] in messages;
    }
  }

  /** The reader reads until the pipe is empty or its reads are used up. */
  lemma {:induction false} Drain(c: Config, s: State) returns (t: State)
    requires WellFormed(c) && Reachable(Step(c), Start(), s) && |s.chunks| <= |c.messages|
    ensures Reachable(Step(c), Start(), t) && t == s.(chunks := t.chunks, pipe := t.pipe)
    ensures |t.chunks| == |c.messages| || t.pipe == ""
    ensures |s.chunks| <= |t.chunks| <= |c.messages|
    ensures t.pipe == "" && s.pipe != "" ==> |t.chunks| > |s.chunks|
    ensures t.pipe == "" && |s.pipe| > c.size ==> |t.chunks| > |s.chunks| + 1
    decreases |s.pipe|
  {
    if |s.chunks| == |c.messages| || s.pipe == "" {
      t := s;
    } else {
      var u := Then(c, s, Read);
      t := Drain(c, u);
    }
  }

  /**
   * The reader has used up a read for every message written, and one more once the message that does
   * not fit has been written; or it has used them all up.
   */
  ghost predicate Behind(c: Config, s: State, j: nat) {
    && s.written <= |c.messages| && !s.broken && !s.readerClosed
    && |s.chunks| <= |c.messages| && (s.pipe != "" ==> |s.chunks| == |c.messages|)
    && (s.pipe == "" ==> |s.chunks| >= s.written + (if s.written > j then 1 else 0))
  }

  lemma {:induction false} WriteNext(c: Config, s: State) returns (u: State)
    requires Reachable(Step(c), Start(), s) && s.written < |c.messages| && s.pipe == "" && !s.broken && !s.readerClosed
    ensures Reachable(Step(c), Start(), u)
    ensures u == s.(pipe := c.messages[s.written], written := s.written + 1)
  {
    u := Then(c, s, Write);
    assert "" + c.messages[s.written] == c.messages[s.written];
  }

  lemma DrainNext(c: Config, s: State, j: nat, u: State, t: State)
    requires j < |c.messages| && |c.messages[j]| > c.size
    requires Behind(c, s, j) && |s.chunks| < |c.messages| && s.written < |c.messages|
    requires u == s.(pipe := c.messages[s.written], written := s.written + 1) && u.pipe != ""
    requires t == u.(chunks := t.chunks, pipe := t.pipe)
    requires |t.chunks| == |c.messages| || t.pipe == ""
    requires |t.chunks| <= |c.messages|
    requires t.pipe == "" ==> |t.chunks| > |u.chunks| + (if |u.pipe| > c.size then 1 else 0)
    ensures Behind(c, t, j)
  {}

  /** The next message written, and as much of it read as the reader has reads left for. */
  lemma {:induction false} WriteAndDrain(c: Config, s: State, j: nat) returns (t: State)
    requires WellFormed(c) && j < |c.messages| && |c.messages[j]| > c.size
    requires Reachable(Step(c), Start(), s) && Behind(c, s, j) && |s.chunks| < |c.messages|
    ensures Reachable(Step(c), Start(), t) && Behind(c, t, j) && t.written == s.written + 1
  {
    var u := WriteNext(c, s);
    assert c.messages[s.written] in c.messages;
    t := Drain(c, u);
    DrainNext(c, s, j, u, t);
  }

  lemma {:induction false} Starve(c: Config, s: State, j: nat) returns (t: State)
    requires WellFormed(c) && j < |c.messages| && |c.messages[j]| > c.size
    requires Reachable(Step(c), Start(), s) && Behind(c, s, j)
    ensures Reachable(Step(c), Start(), t) && ReaderDone(c, t) && |Flat(t.chunks)| < |Flat(c.messages)|
    decreases |c.messages| - s.written
  {
    t := s;
    if |s.chunks| == |c.messages| {
      StarvedHere(c, s);
    } else {
      t := WriteAndDrain(c, s, j);
      t := Starve(c, t, j);
    }
  }

  lemma {:induction false} StarvedHere(c: Config, s: State)
    requires WellFormed(c) && Reachable(Step(c), Start(), s)
    requires s.pipe != "" || s.written < |c.messages|
    ensures |Flat(s.chunks)| < |Flat(c.messages)|
  {
    ConservedOnReachable(c, s);
    FlatGrows(c.messages, s.written);
    assert |Flat(s.chunks) + s.pipe| == |Flat(s.chunks)| + |s.pipe|;
  }

  /**
   * In every schedule the reader's reads return the whole stream if and only if no message is longer
   * than the reader's buffer; how long the messages are together does not matter.
   */
  lemma DeliversExactly(c: Config)
    requires WellFormed(c)
    ensures AlwaysDelivers(c) <==> EveryMessageFits(c)
  {
    if EveryMessageFits(c) {
      forall s | Reachable(Step(c), Start(), s) && ReaderDone(c, s) ensures Flat(s.chunks) == Flat(c.messages) {
        FitsMeansDelivers(c, s);
      }
    } else {
      var m :| m in c.messages && |m| > c.size;
      var j :| 0 <= j < |c.messages| && c.messages[j] == m;
      ReachableRefl(Step(c), Start());
      var t := Starve(c, Start(), j);
    }
  }

  /** Whatever the messages, no byte is lost, made up or reordered on the way. */
  lemma {:induction false} StreamInOrder(c: Config, s: State)
    requires WellFormed(c) && Reachable(Step(c), Start(), s)
    ensures Flat(s.chunks) + s.pipe <= Flat(c.messages)
  {
    ConservedOnReachable(c, s);
    FlatPrefix(c.messages, s.written);
  }

  lemma {:induction false} FlatPrefix(messages: seq<string>, i: nat)
    requires i <= |messages|
    ensures Flat(messages[..i]) <= Flat(messages)
  {
    if i == |messages| {
      assert messages[..i] == messages;
    } else {
      FlatPrefix(messages[..|messages| - 1], i);
      assert messages[..|messages| - 1][..i] == messages[..i];
    }
  }

  // ----- every run ends

  /** Writes, reads and closes still to come. */
  function Work(c: Config, s: State): nat {
    (if s.written <= |c.messages| then |c.messages| - s.written else 0)
    + (if |s.chunks| <= |c.messages| then |c.messages| - |s.chunks| else 0)
    + One(!s.closed && !s.broken) + One(!s.readerClosed)
  }

  ghost predicate Stuck(c: Config, s: State) { forall a :: !Enabled(c, s, a) }

  /** Both threads are through; a writer that finds the pipe without a reader is ended by it. */
  predicate Finished(s: State) { (s.closed || s.broken) && s.readerClosed }

  lemma StuckMeansFinished(c: Config, s: State)
    requires Conserved(c, s)
    ensures Stuck(c, s) <==> Finished(s)
  {
    if !s.closed && !s.broken {
      assert Enabled(c, s, if s.written < |c.messages| then Write else CloseWrite);
    } else if !s.readerClosed {
      assert Enabled(c, s, if |s.chunks| < |c.messages| then Read else CloseRead);
    }
  }

  /** With messages that fit, the two threads never both wait: until both have closed, one can move. */
  lemma NeverStuck(c: Config, s: State)
    requires WellFormed(c) && EveryMessageFits(c) && Reachable(Step(c), Start(), s)
    requires !(s.closed && s.readerClosed)
    ensures !Stuck(c, s)
  {
    ConservedOnReachable(c, s);
    FitsMeansDelivers(c, s);
    StuckMeansFinished(c, s);
  }

  ghost predicate RunOf(c: Config, run: seq<State>) { IsRun(Step(c), run) && run[0] == Start() }

  lemma StepLowersWork(c: Config, s: State, a: Action)
    requires Conserved(c, s) && Enabled(c, s, a)
    ensures Work(c, Apply(c, s, a)) < Work(c, s)
  {}

  lemma {:induction false} OnRun(c: Config, run: seq<State>, i: nat)
    requires WellFormed(c) && RunOf(c, run) && i < |run|
    ensures Conserved(c, run[i]) && Work(c, run[i]) + i <= 2 * |c.messages| + 2
  {
    if i > 0 {
      OnRun(c, run, i - 1);
      assert Step(c)(run[i - 1], run[i]);
      var a :| Enabled(c, run[i - 1], a) && run[i] == Apply(c, run[i - 1], a);
      StepConserves(c, run[i - 1], a);
      StepLowersWork(c, run[i - 1], a);
    } else {
      assert Conserved(c, Start()) by { assert c.messages[..0] == []; }
    }
  }

  /**
   * Every run ends after at most a write and a read for each message and the two closes, and only when
   * both threads are through; if every message fits the buffer, the whole stream has then been read and
   * the writer was never cut off.
   */
  lemma EveryRunCompletes(c: Config, run: seq<State>)
    requires WellFormed(c) && RunOf(c, run)
    ensures |run| - 1 <= 2 * |c.messages| + 2
    ensures Stuck(c, run[|run| - 1]) <==> Finished(run[|run| - 1])
    ensures Finished(run[|run| - 1]) && EveryMessageFits(c) ==>
      Flat(run[|run| - 1].chunks) == Flat(c.messages) && run[|run| - 1].closed
  {
    var last := run[|run| - 1];
    OnRun(c, run, |run| - 1);
    StuckMeansFinished(c, last);
    if EveryMessageFits(c) {
      assert Reachable(Step(c), Start(), last);
      FitsMeansDelivers(c, last);
    }
  }

  // ----- the messages of the program

  const READ_SIZE: nat := 100

  /** sendbuf with its NUL. */
  function Frame(id: nat, text: string): string { "From " + Digits(id) + ": " + text + ['\0'] }

  function Frames(id: nat): seq<string> {
    [Frame(id, "1st message"), Frame(id, "2nd message"), Frame(id, "last message")]
  }

  lemma FramesFit(id: nat)
    requires id < 0x8000_0000
    ensures forall m :: m in Frames(id) ==> 0 < |m| <= READ_SIZE
  {
    DigitsLength(id, 10);
    assert Pow10(5) == 100_000;
    assert Pow10(10) == 100_000 * Pow10(5);
    var d := Digits(id);
    assert |Frame(id, "1st message")| == |d| + 19;
    assert |Frame(id, "2nd message")| == |d| + 19;
    assert |Frame(id, "last message")| == |d| + 20;
  }

  /** For every int thread id, three reads of 100 bytes return chunks that make up the three messages in order. */
  lemma ThreeReadsSuffice(id: nat)
    requires id < 0x8000_0000
    ensures var from := "From " + Digits(id) + ": ";
            AlwaysDelivers(Config(
              [from + "1st message" + ['\0'], from + "2nd message" + ['\0'], from + "last message" + ['\0']], 100))
  {
    FramesFit(id);
    var c := Config(Frames(id), READ_SIZE);
    assert WellFormed(c) && EveryMessageFits(c);
    DeliversExactly(c);
  }

  // ----- the pipe and the reader's buffer, updated in place

  class Fifo {
    var bytes: string

    constructor ()
      ensures bytes == ""
    {
      bytes := "";
    }

    method Write(message: string)
      modifies this
      ensures bytes == old(bytes) + message
    {
      bytes := bytes + message;
    }

    /** read(fd, buf, count): takes what there is, up to count, and leaves the rest of buf alone. */
    method Read(buf: array<char>, count: nat) returns (n: nat)
      requires count <= buf.Length
      modifies this, buf
      ensures n == Min(|old(bytes)|, count)
      ensures buf[..n] + bytes == old(bytes)
      ensures buf[n..] == old(buf[n..])
    {
      n := 0;
      while n < |bytes| && n < count
        invariant n <= |bytes| && n <= count && bytes == old(bytes)
        invariant buf[..n] == bytes[..n]
        invariant buf[n..] == old(buf[..])[n..]
      {
        buf[n] := bytes[n];
        n := n + 1;
      }
      bytes := bytes[n..];
    }
  }
}
