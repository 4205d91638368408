/**
 * semaphore.c: a producer and a consumer process pass messages through one shared buffer, ordered by
 * the two semaphores `empty` (initially 1) and `full` (initially 0). Every step below is one atomic
 * action of one process: a semop, one byte stored or loaded, one system call.
 */
module Semaphore {
  import opened Basics
  import opened Decimal
  import opened Runs

  const SHM_SIZE: nat := 0x1024
  const INT_MAX: int := 0x7FFF_FFFF

  datatype ProducerPc =
    | PTest | PWait | PWrite(at: nat) | PPost | PSleep
    | PExited   // exit(0)
    | PFailed   // exit(1): a semop on removed semaphores

  datatype ConsumerPc =
    | CTest | CWait | CRead | CPost | CSleep
    | CReap | CDetach | CRemoveShm | CRemoveSem
    | CDone
    | CFailed

  datatype State = State(
    empty: nat, full: nat,
    shm: seq<char>,
    ppc: ProducerPc, i: int,
    cpc: ConsumerPc, j: int, got: string,
    received: seq<string>,
    detached: bool, shmRemoved: bool, semRemoved: bool)

  datatype Process = Producer | Consumer

  function Message(k: nat): string { "Message " + Digits(k) + " from Producer" }

  /** What snprintf leaves at the start of the buffer: at most SHM_SIZE - 1 characters, then NUL. */
  function Stored(k: nat): (s: string)
    ensures 1 <= |s| <= SHM_SIZE
  {
    var m := Message(k);
    (if |m| < SHM_SIZE then m else m[..SHM_SIZE - 1]) + ['\0']
  }

  /** The two processes right after fork; the segment may hold anything. */
  ghost predicate Init(s: State) {
    exists shm: seq<char> :: |shm| == SHM_SIZE && s == Start(shm)
  }

  function Start(shm: seq<char>): State {
    State(1, 0, shm, PTest, 0, CTest, 0, "", [], false, false, false)
  }

  // ----- the steps

  predicate Enabled(s: State, p: Process) {
    match p
    case Producer => (
      match s.ppc
      case PWait => s.semRemoved || s.empty > 0
      case PWrite(at) => s.i >= 0 && at < |Stored(s.i + 1)| && at < |s.shm|
      case PExited => false
      case PFailed => false
      case _ => true)
    case Consumer => (
      match s.cpc
      case CWait => s.semRemoved || s.full > 0
      case CRead => |s.got| < |s.shm|
      case CReap => s.ppc.PExited? || s.ppc.PFailed?
      case CDone => false
      case CFailed => false
      case _ => true)
  }

  function ProducerStep(numtrans: int, s: State): State
    requires Enabled(s, Producer)
  {
    match s.ppc
    case PTest => s.(ppc := if s.i < numtrans then PWait else PExited)
    case PWait => if s.semRemoved then s.(ppc := PFailed) else s.(empty := s.empty - 1, ppc := PWrite(0))
    case PWrite(at) =>
      s.(shm := s.shm[at := Stored(s.i + 1)[at]],
         ppc := if at + 1 < |Stored(s.i + 1)| then PWrite(at + 1) else PPost)
    case PPost => if s.semRemoved then s.(ppc := PFailed) else s.(full := s.full + 1, ppc := PSleep)
    case PSleep => s.(i := s.i + 1, ppc := PTest)
  }

  function ConsumerStep(numtrans: int, s: State): State
    requires Enabled(s, Consumer)
  {
    match s.cpc
    case CTest => s.(cpc := if s.j < numtrans then CWait else CReap)
    case CWait => if s.semRemoved then s.(cpc := CFailed) else s.(full := s.full - 1, got := "", cpc := CRead)
    case CRead =>
      var c := s.shm[|s.got|];
      if c == '\0' then s.(received := s.received + [s.got], cpc := CPost) else s.(got := s.got + [c])
    case CPost => if s.semRemoved then s.(cpc := CFailed) else s.(empty := s.empty + 1, cpc := CSleep)
    case CSleep => s.(j := s.j + 1, cpc := CTest)
    case CReap => s.(cpc := CDetach)
    case CDetach => s.(detached := true, cpc := CRemoveShm)
    case CRemoveShm => s.(shmRemoved := true, cpc := CRemoveSem)
    case CRemoveSem => s.(semRemoved := true, cpc := CDone)
  }

  function Apply(numtrans: int, s: State, p: Process): State
    requires Enabled(s, p)
  {
    match p
    case Producer => ProducerStep(numtrans, s)
    case Consumer => ConsumerStep(numtrans, s)
  }

  ghost function Step(numtrans: int): (State, State) -> bool {
    (s, t) => exists p :: Enabled(s, p) && t == Apply(numtrans, s, p)
  }

  // ----- the invariant

  /** The producer has taken `empty` and not yet posted `full`. */
  predicate ProducerInside(s: State) { s.ppc.PWrite? || s.ppc.PPost? }

  /** The consumer has taken `full` and not yet posted `empty`. */
  predicate ConsumerInside(s: State) { s.cpc.CRead? || s.cpc.CPost? }

  predicate CleaningUp(s: State) {
    s.cpc.CDetach? || s.cpc.CRemoveShm? || s.cpc.CRemoveSem? || s.cpc.CDone?
  }

  function Posted(s: State): int { s.i + One(s.ppc.PSleep?) }
  function Taken(s: State): int { s.j + One(ConsumerInside(s) || s.cpc.CSleep?) }

  /** The buffer starts with the whole NUL-terminated k-th message. */
  predicate Holds(shm: seq<char>, k: nat) { Stored(k) <= shm }

  predicate Counting(numtrans: int, s: State) {
    var n := Passes(numtrans);
    && 0 <= s.i <= n && 0 <= s.j <= n
    && (s.ppc.PWait? || ProducerInside(s) || s.ppc.PSleep? ==> s.i < n)
    && (s.ppc.PExited? ==> s.i == n)
    && (s.cpc.CWait? || ConsumerInside(s) || s.cpc.CSleep? ==> s.j < n)
    && (s.cpc.CReap? || CleaningUp(s) ==> s.j == n)
    && s.full == Posted(s) - Taken(s)
    && s.empty == 1 - Posted(s) - One(ProducerInside(s)) + s.j + One(s.cpc.CSleep?)
  }

  predicate Cleanup(s: State) {
    && !s.ppc.PFailed? && !s.cpc.CFailed?
    && (CleaningUp(s) ==> s.ppc.PExited?)
    && (s.detached <==> s.cpc.CRemoveShm? || s.cpc.CRemoveSem? || s.cpc.CDone?)
    && (s.shmRemoved <==> s.cpc.CRemoveSem? || s.cpc.CDone?)
    && (s.semRemoved <==> s.cpc.CDone?)
  }

  predicate Buffer(s: State) {
    && |s.shm| == SHM_SIZE && s.i >= 0 && s.j >= 0
    && (s.ppc.PWrite? ==> s.ppc.at < |Stored(s.i + 1)| && Stored(s.i + 1)[..s.ppc.at] <= s.shm)
    && (s.ppc.PPost? ==> Holds(s.shm, s.i + 1))
    && (s.full > 0 || ConsumerInside(s) ==> Holds(s.shm, Posted(s)))
    && (s.cpc.CRead? ==> |s.got| < |Stored(s.j + 1)| && s.got == Stored(s.j + 1)[..|s.got|])
  }

  predicate Delivered(s: State) {
    && |s.received| == s.j + One(s.cpc.CPost? || s.cpc.CSleep?)
    && forall k :: 0 <= k < |s.received| ==> s.received[k] == Message(k + 1)
  }

  predicate Inv(numtrans: int, s: State) {
    Counting(numtrans, s) && Cleanup(s) && Buffer(s) && Delivered(s)
  }

  // ----- facts about messages

  lemma MessageFits(k: nat)
    requires k <= INT_MAX
    ensures Stored(k) == Message(k) + ['\0'] && |Message(k)| < 0x1024
  {
    DigitsLength(k, 10);
    assert Pow10(10) == 10_000_000_000 by {
      assert Pow10(5) == 100_000;
      assert Pow10(8) == 1000 * Pow10(5);
      assert Pow10(10) == 100 * Pow10(8);
    }
  }

  lemma NulOnlyAtEnd(k: nat, at: nat)
    requires k <= INT_MAX && at < |Stored(k)|
    ensures Stored(k)[at] == '\0' <==> at == |Message(k)|
  {
    MessageFits(k);
    var d := Digits(k);
    if at < |Message(k)| {
      if 8 <= at < 8 + |d| { assert Message(k)[at] == d[at - 8]; assert IsDigit(d[at - 8]); }
    }
  }

  /** Different transfers carry different messages. */
  lemma MessageInjective(k: nat, m: nat)
    ensures Message(k) == Message(m) <==> k == m
  {
    if Message(k) == Message(m) {
      var a, b := Digits(k), Digits(m);
      assert |a| == |b|;
      assert a == Message(k)[8..8 + |a|] == Message(m)[8..8 + |b|] == b;
      DigitsInjective(k, m);
    }
  }

  // ----- preservation, one process at a time

  lemma ProducerCounting(numtrans: int, s: State)
    requires Inv(numtrans, s) && Enabled(s, Producer)
    ensures Counting(numtrans, ProducerStep(numtrans, s)) && Cleanup(ProducerStep(numtrans, s))
    ensures Delivered(ProducerStep(numtrans, s))
  {}

  lemma ConsumerCounting(numtrans: int, s: State)
    requires Inv(numtrans, s) && Enabled(s, Consumer)
    ensures Counting(numtrans, ConsumerStep(numtrans, s)) && Cleanup(ConsumerStep(numtrans, s))
  {}

  lemma PrefixGrows(text: string, shm: seq<char>, at: nat)
    requires at < |text| && at < |shm| && text[..at] <= shm
    ensures text[..at + 1] <= shm[at := text[at]]
    ensures at + 1 == |text| ==> text <= shm[at := text[at]]
  {
    assert text[..at + 1] == text[..at] + [text[at]];
    if at + 1 == |text| { assert text[..at + 1] == text; }
  }

  lemma WriteByte(numtrans: int, s: State)
    requires Inv(numtrans, s) && Enabled(s, Producer) && s.ppc.PWrite?
    ensures Buffer(ProducerStep(numtrans, s))
  {
    PrefixGrows(Stored(s.i + 1), s.shm, s.ppc.at);
  }

  lemma PostKeepsBuffer(numtrans: int, s: State)
    requires Inv(numtrans, s) && Enabled(s, Producer) && s.ppc.PPost?
    ensures Buffer(ProducerStep(numtrans, s))
  {
    assert Posted(ProducerStep(numtrans, s)) == s.i + 1;
  }

  lemma ProducerBuffer(numtrans: int, s: State)
    requires Inv(numtrans, s) && Enabled(s, Producer)
    ensures Buffer(ProducerStep(numtrans, s))
  {
    if s.ppc.PWrite? {
      WriteByte(numtrans, s);
    } else if s.ppc.PPost? {
      PostKeepsBuffer(numtrans, s);
    } else {
      assert Posted(ProducerStep(numtrans, s)) == Posted(s);
    }
  }

  lemma StopOrExtend(text: string, m: string, at: nat)
    requires text == m + ['\0'] && at < |text| && (text[at] == '\0' <==> at == |m|)
    ensures if text[at] == '\0' then text[..at] == m
            else at + 1 < |text| && text[..at] + [text[at]] == text[..at + 1]
  {}

  /** The byte at a position of a message ends it or extends what has been read of it. */
  lemma NextByte(k: nat, at: nat)
    requires k <= INT_MAX && at < |Stored(k)|
    ensures if Stored(k)[at] == '\0' then Stored(k)[..at] == Message(k)
            else at + 1 < |Stored(k)| && Stored(k)[..at] + [Stored(k)[at]] == Stored(k)[..at + 1]
  {
    MessageFits(k);
    NulOnlyAtEnd(k, at);
    StopOrExtend(Stored(k), Message(k), at);
  }

  lemma {:induction false} ReadByte(numtrans: int, s: State)
    requires numtrans <= INT_MAX && Inv(numtrans, s) && Enabled(s, Consumer) && s.cpc.CRead?
    ensures var c := s.shm[|s.got|];
            if c == '\0' then s.got == Message(s.j + 1)
            else |s.got| + 1 < |Stored(s.j + 1)| && s.got + [c] == Stored(s.j + 1)[..|s.got| + 1]
  {
    assert Posted(s) == s.j + 1;
    assert s.shm[|s.got|] == Stored(s.j + 1)[|s.got|];
    NextByte(s.j + 1, |s.got|);
  }

  lemma {:induction false} ReadKeepsBuffer(numtrans: int, s: State)
    requires numtrans <= INT_MAX && Inv(numtrans, s) && Enabled(s, Consumer) && s.cpc.CRead?
    ensures Buffer(ConsumerStep(numtrans, s))
  {
    ReadByte(numtrans, s);
    assert Posted(ConsumerStep(numtrans, s)) == Posted(s) == s.j + 1;
  }

  lemma {:induction false} ConsumerBuffer(numtrans: int, s: State)
    requires numtrans <= INT_MAX && Inv(numtrans, s) && Enabled(s, Consumer)
    ensures Buffer(ConsumerStep(numtrans, s))
  {
    if s.cpc.CRead? {
      ReadKeepsBuffer(numtrans, s);
    } else {
      assert Posted(ConsumerStep(numtrans, s)) == Posted(s);
    }
  }

  lemma ConsumerDelivered(numtrans: int, s: State)
    requires numtrans <= INT_MAX && Inv(numtrans, s) && Enabled(s, Consumer)
    ensures Delivered(ConsumerStep(numtrans, s))
  {
    if s.cpc.CRead? { ReadByte(numtrans, s); }
  }

  lemma {:induction false} StepKeepsInv(numtrans: int, s: State, p: Process)
    requires numtrans <= INT_MAX && Inv(numtrans, s) && Enabled(s, p)
    ensures Inv(numtrans, Apply(numtrans, s, p))
  {
    match p
    case Producer => ProducerCounting(numtrans, s); ProducerBuffer(numtrans, s);
    case Consumer => ConsumerCounting(numtrans, s); ConsumerBuffer(numtrans, s); ConsumerDelivered(numtrans, s);
  }

  ghost predicate RunOf(numtrans: int, run: seq<State>) {
    IsRun(Step(numtrans), run) && Init(run[0])
  }

  /** Neither process can move. */
  predicate Stuck(s: State) { !Enabled(s, Producer) && !Enabled(s, Consumer) }

  predicate Finished(s: State) { s.ppc.PExited? && s.cpc.CDone? }

  /** No reachable state is stuck before both processes have finished. */
  lemma NeverStuck(numtrans: int, s: State)
    requires Inv(numtrans, s) && !Finished(s)
    ensures !Stuck(s)
  {
    if s.cpc.CRead? {
      assert |s.got| < |Stored(s.j + 1)|;
    }
  }

  // The longest pass through either loop body is one test, two semops, a sleep and SHM_SIZE bytes.
  const LAP: nat := SHM_SIZE + 8

  function ProducerWork(n: nat, s: State): int {
    match s.ppc
    case PTest => (n - s.i) * LAP + 1
    case PWait => (n - s.i - 1) * LAP + SHM_SIZE + 5
    case PWrite(at) => (n - s.i - 1) * LAP + SHM_SIZE + 4 - at
    case PPost => (n - s.i - 1) * LAP + 3
    case PSleep => (n - s.i - 1) * LAP + 2
    case _ => 0
  }

  function ConsumerWork(n: nat, s: State): int {
    match s.cpc
    case CTest => (n - s.j) * LAP + 5
    case CWait => (n - s.j - 1) * LAP + SHM_SIZE + 9
    case CRead => (n - s.j - 1) * LAP + SHM_SIZE + 8 - |s.got|
    case CPost => (n - s.j - 1) * LAP + 7
    case CSleep => (n - s.j - 1) * LAP + 6
    case CReap => 4
    case CDetach => 3
    case CRemoveShm => 2
    case CRemoveSem => 1
    case _ => 0
  }

  function Work(numtrans: int, s: State): nat {
    var w := ProducerWork(Passes(numtrans), s) + ConsumerWork(Passes(numtrans), s);
    if w < 0 then 0 else w
  }

  lemma ProducerLowersWork(numtrans: int, s: State)
    requires Inv(numtrans, s) && Enabled(s, Producer)
    ensures ProducerWork(Passes(numtrans), ProducerStep(numtrans, s)) < ProducerWork(Passes(numtrans), s)
    ensures ConsumerWork(Passes(numtrans), ProducerStep(numtrans, s)) == ConsumerWork(Passes(numtrans), s)
  {}

  lemma ConsumerLowersWork(numtrans: int, s: State)
    requires Counting(numtrans, s) && Enabled(s, Consumer) && !s.semRemoved
    requires s.cpc.CRead? ==> |s.got| < SHM_SIZE
    ensures ConsumerWork(Passes(numtrans), ConsumerStep(numtrans, s)) < ConsumerWork(Passes(numtrans), s)
    ensures ProducerWork(Passes(numtrans), ConsumerStep(numtrans, s)) == ProducerWork(Passes(numtrans), s)
  {}

  lemma {:induction false} StepLowersWork(numtrans: int, s: State, p: Process)
    requires numtrans <= INT_MAX && Inv(numtrans, s) && Enabled(s, p)
    ensures Work(numtrans, Apply(numtrans, s, p)) < Work(numtrans, s)
  {
    StepKeepsInv(numtrans, s, p);
    ProducerWorkNonNegative(numtrans, Apply(numtrans, s, p));
    ConsumerWorkNonNegative(numtrans, Apply(numtrans, s, p));
    match p
    case Producer => ProducerLowersWork(numtrans, s);
    case Consumer => ConsumerLowersWork(numtrans, s);
  }

  lemma ProducerWorkNonNegative(numtrans: int, s: State)
    requires Counting(numtrans, s) && (s.ppc.PWrite? ==> s.ppc.at < SHM_SIZE)
    ensures ProducerWork(Passes(numtrans), s) >= 0
  {}

  lemma ConsumerWorkNonNegative(numtrans: int, s: State)
    requires Counting(numtrans, s) && (s.cpc.CRead? ==> |s.got| < SHM_SIZE)
    ensures ConsumerWork(Passes(numtrans), s) >= 0
  {}

  /** Every state of every run keeps the invariant, and the steps taken come out of the work there was. */
  lemma {:induction false} OnRun(numtrans: int, run: seq<State>, k: nat)
    requires numtrans <= INT_MAX && RunOf(numtrans, run) && k < |run|
    ensures Inv(numtrans, run[k]) && Work(numtrans, run[k]) + k <= Work(numtrans, run[0])
  {
    if k > 0 {
      OnRun(numtrans, run, k - 1);
      assert Step(numtrans)(run[k - 1], run[k]);
      var p :| Enabled(run[k - 1], p) && run[k] == Apply(numtrans, run[k - 1], p);
      StepKeepsInv(numtrans, run[k - 1], p);
      StepLowersWork(numtrans, run[k - 1], p);
    }
  }

  // ----- the main results

  /**
   * In every state of every run: one token is shared by the two semaphores and the two critical
   * sections, and what the consumer has read is message 1, 2, 3, ... with none lost, repeated,
   * reordered or torn.
   */
  lemma {:induction false} InOrderDelivery(numtrans: int, run: seq<State>, k: nat)
    requires numtrans <= INT_MAX && RunOf(numtrans, run) && k < |run|
    ensures run[k].empty + run[k].full + One(ProducerInside(run[k])) + One(ConsumerInside(run[k])) == 1
    ensures |run[k].received| <= Passes(numtrans)
    ensures forall m :: 0 <= m < |run[k].received| ==>
      run[k].received[m] == "Message " + Digits(m + 1) + " from Producer"
  {
    OnRun(numtrans, run, k);
  }

  /**
   * The segment is detached, then removed, and then the semaphores are, all only after the producer has
   * exited normally and every message has been read; no semop ever fails.
   */
  lemma {:induction false} CleanupAfterProducer(numtrans: int, run: seq<State>, k: nat)
    requires numtrans <= INT_MAX && RunOf(numtrans, run) && k < |run|
    ensures run[k].detached ==> run[k].ppc.PExited? && |run[k].received| == Passes(numtrans)
    ensures run[k].semRemoved ==> run[k].shmRemoved
    ensures run[k].shmRemoved ==> run[k].detached
    ensures !run[k].ppc.PFailed? && !run[k].cpc.CFailed?
  {
    OnRun(numtrans, run, k);
  }

  function AllMessages(n: nat): seq<string> { seq(n, k requires k >= 0 => Message(k + 1)) }

  /** What every completed run leaves behind. */
  predicate Outcome(numtrans: int, s: State) {
    && s.empty == 1 && s.full == 0
    && s.received == AllMessages(Passes(numtrans))
    && s.detached && s.shmRemoved && s.semRemoved
  }

  /**
   * Every run is finite, with a bound fixed at the start, and a run that can go no further has
   * passed all the messages, left the semaphores as they began and removed both resources.
   */
  lemma {:induction false} EveryRunCompletes(numtrans: int, run: seq<State>)
    requires numtrans <= INT_MAX && RunOf(numtrans, run)
    ensures |run| <= Work(numtrans, run[0]) + 1
    ensures Stuck(run[|run| - 1]) <==> Finished(run[|run| - 1])
    ensures Finished(run[|run| - 1]) ==> Outcome(numtrans, run[|run| - 1])
  {
    var last := run[|run| - 1];
    OnRun(numtrans, run, |run| - 1);
    if Finished(last) { FinishedOutcome(numtrans, last); } else { NeverStuck(numtrans, last); }
  }

  lemma FinishedOutcome(numtrans: int, s: State)
    requires Inv(numtrans, s) && Finished(s)
    ensures Outcome(numtrans, s)
  {}

  // ----- the scratch semaphores

  predicate InArray(index: int, length: int) { 0 <= index < length }

  /** Every index from low to high - 1 is inside an array of the given length. */
  ghost predicate IndicesInArray(low: nat, high: nat, length: int) {
    forall semnum :: low <= semnum < high ==> InArray(semnum, length)
  }

  /**
   * multisem_op indexes its operations by semaphore number, not by offset from the lowest one, so it
   * stays inside the array exactly when the range starts at semaphore 0 (or is empty). The one call
   * in the program, for the scratch semaphores 2 to 5, does not.
   */
  lemma MultisemOffsets(low: nat, high: nat)
    ensures IndicesInArray(low, high, high - low) <==> high <= low || low == 0
    ensures !IndicesInArray(2, 6, 6 - 2)
  {
    assert low < high && low > 0 ==> !InArray(high - 1, high - low);
    assert !InArray(5, 6 - 2);
  }

  // ----- the same two loops over mutable state

  /** The shared segment, the semaphores and the two processes' variables, updated in place. */
  class Transfer {
    const numtrans: int
    var empty: nat
    var full: nat
    const shm: array<char>
    var ppc: ProducerPc
    var i: int
    var cpc: ConsumerPc
    var j: int
    var got: string
    var received: seq<string>
    var detached: bool
    var shmRemoved: bool
    var semRemoved: bool

    ghost function View(): State
      reads this, shm
    {
      State(empty, full, shm[..], ppc, i, cpc, j, got, received, detached, shmRemoved, semRemoved)
    }

    constructor (numtrans: int, shm: array<char>)
      requires shm.Length == SHM_SIZE
      ensures this.numtrans == numtrans && this.shm == shm
      ensures View() == Start(shm[..])
    {
      this.numtrans, this.shm := numtrans, shm;
      empty, full := 1, 0;
      ppc, i := PTest, 0;
      cpc, j, got, received := CTest, 0, "", [];
      detached, shmRemoved, semRemoved := false, false, false;
    }

    method StepProducer()
      requires Enabled(View(), Producer)
      modifies this, shm
      ensures View() == ProducerStep(numtrans, old(View()))
    {
      match ppc
      case PTest => ppc := if i < numtrans then PWait else PExited;
      case PWait =>
        if semRemoved { ppc := PFailed; } else { empty, ppc := empty - 1, PWrite(0); }
      case PWrite(at) =>
        var text := Stored(i + 1);
        shm[at] := text[at];
        ppc := if at + 1 < |text| then PWrite(at + 1) else PPost;
      case PPost =>
        if semRemoved { ppc := PFailed; } else { full, ppc := full + 1, PSleep; }
      case PSleep => i, ppc := i + 1, PTest;
    }

    method StepConsumer()
      requires Enabled(View(), Consumer)
      modifies this
      ensures View() == ConsumerStep(numtrans, old(View()))
    {
      match cpc
      case CTest => cpc := if j < numtrans then CWait else CReap;
      case CWait =>
        if semRemoved { cpc := CFailed; } else { full, got, cpc := full - 1, "", CRead; }
      case CRead =>
        var c := shm[|got|];
        if c == '\0' { received, cpc := received + [got], CPost; } else { got := got + [c]; }
      case CPost =>
        if semRemoved { cpc := CFailed; } else { empty, cpc := empty + 1, CSleep; }
      case CSleep => j, cpc := j + 1, CTest;
      case CReap => cpc := CDetach;
      case CDetach => detached, cpc := true, CRemoveShm;
      case CRemoveShm => shmRemoved, cpc := true, CRemoveSem;
      case CRemoveSem => semRemoved, cpc := true, CDone;
    }

    /** One step of whichever process the scheduler picks among those that can move. */
    method Schedule()
      requires numtrans <= INT_MAX && Inv(numtrans, View()) && !Finished(View())
      modifies this, shm
      ensures Inv(numtrans, View()) && Work(numtrans, View()) < old(Work(numtrans, View()))
    {
      ghost var s := View();
      NeverStuck(numtrans, s);
      var producer := ProducerReady();
      var consumer := ConsumerReady();
      ghost var p;
      if {
        case producer =>
          p := Producer;
          StepProducer();
        case consumer =>
          p := Consumer;
          StepConsumer();
      }
      assert View() == Apply(numtrans, s, p);
      StepKeepsInv(numtrans, s, p);
      StepLowersWork(numtrans, s, p);
    }

    /** Any schedule of the two processes runs to the end and delivers every message. */
    method RunBoth()
      requires numtrans <= INT_MAX && Init(View())
      modifies this, shm
      ensures Finished(View()) && Outcome(numtrans, View())
    {
      while !(ppc.PExited? && cpc.CDone?)
        invariant Inv(numtrans, View())
        decreases Work(numtrans, View())
      {
        Schedule();
      }
      FinishedOutcome(numtrans, View());
    }

    method ProducerReady() returns (b: bool)
      ensures b == Enabled(View(), Producer)
    {
      match ppc
      case PWait => b := semRemoved || empty > 0;
      case PWrite(at) => b := i >= 0 && at < |Stored(i + 1)| && at < shm.Length;
      case PExited => b := false;
      case PFailed => b := false;
      case _ => b := true;
    }

    method ConsumerReady() returns (b: bool)
      ensures b == Enabled(View(), Consumer)
    {
      match cpc
      case CWait => b := semRemoved || full > 0;
      case CRead => b := |got| < shm.Length;
      case CReap => b := ppc.PExited? || ppc.PFailed?;
      case CDone => b := false;
      case CFailed => b := false;
      case _ => b := true;
    }
  }
}
