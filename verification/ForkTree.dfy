/**
 * forktree_and_pthread.c: every process on a level above 0 forks numforks children, each of which does
 * the same one level down, and then waits; a process on level 0 starts and joins threads instead.
 * The processes run in any order. A step is one fork, wait, thread start, join, return or exit.
 */
module ForkTree {
  import opened Basics
  import opened Runs
  import opened Sums

  const MAXTHREADS: nat := 20

  datatype Pc =
    | Forking(made: nat)
    | Waiting
    | Spawning(started: nat)
    | Joining(joined: nat)
    | Returning
    | Exited    // terminated, not (yet) reaped by its parent
    | Reaped

  /**
   * The parent of process 0, which runs main, is outside the table. `started` and `joined` count the
   * threads the process has created and joined.
   */
  datatype Proc = Proc(parent: nat, level: nat, pc: Pc, started: nat, joined: nat)

  datatype Action =
    | Move(p: nat)
    | Reap(p: nat, child: nat)   // waitpid reports that child has terminated

  type State = seq<Proc>

  function Threads(numforks: int): nat {
    if numforks > MAXTHREADS then MAXTHREADS else Passes(numforks)
  }

  function StartPc(level: nat): Pc { if level == 0 then Spawning(0) else Forking(0) }

  function NewProc(parent: nat, level: nat): Proc { Proc(parent, level, StartPc(level), 0, 0) }

  function Start(numlevels: nat): State { [NewProc(0, numlevels)] }

  predicate IsChild(s: State, p: nat, c: nat) { p < c < |s| && s[c].parent == p }

  // ----- the steps

  /** waitpid fails only for a process without an unreaped child; it blocks while none has terminated. */
  predicate Enabled(s: State, a: Action) {
    a.p < |s| &&
    match a
    case Move(p) => (
      match s[p].pc
      case Waiting => forall c | 0 <= c < |s| && IsChild(s, p, c) :: s[c].pc.Reaped?
      case Exited => false
      case Reaped => false
      case _ => true)
    case Reap(p, c) => s[p].pc.Waiting? && IsChild(s, p, c) && s[c].pc.Exited?
  }

  /** Where a process goes next in a step that concerns no other process. */
  function NextPc(numforks: int, pc: Pc): Pc {
    match pc
    case Spawning(started) => if started < Threads(numforks) then Spawning(started + 1) else Joining(0)
    case Joining(joined) => if joined < Threads(numforks) then Joining(joined + 1) else Returning
    case Forking(_) => Waiting
    case Waiting => Returning
    case _ => Exited
  }

  /** The same, with the threads it creates and joins on the way. */
  function Next(numforks: int, p: Proc): Proc {
    var pc := NextPc(numforks, p.pc);
    Proc(p.parent, p.level, pc,
         p.started + One(p.pc.Spawning? && pc.Spawning?), p.joined + One(p.pc.Joining? && pc.Joining?))
  }

  predicate ForksNext(numforks: int, pc: Pc) { pc.Forking? && pc.made < numforks }

  /** waitchildren leaves its loop at the first terminated child, or when waitpid finds none. */
  function Apply(numforks: int, s: State, a: Action): (t: State)
    requires Enabled(s, a)
    ensures |s| <= |t| <= |s| + 1
  {
    var p := a.p;
    match a
    case Reap(_, c) => s[c := s[c].(pc := Reaped)][p := s[p].(pc := Returning)]
    case Move(_) =>
      if ForksNext(numforks, s[p].pc) then
        var level := if s[p].level > 0 then s[p].level - 1 else 0;
        s[p := s[p].(pc := Forking(s[p].pc.made + 1))] + [NewProc(p, level)]
      else s[p := Next(numforks, s[p])]
  }

  ghost function Step(numforks: int): (State, State) -> bool {
    (s, t) => exists a :: Enabled(s, a) && t == Apply(numforks, s, a)
  }

  // ----- the shape of the table

  predicate Ended(pc: Pc) { pc.Exited? || pc.Reaped? }

  predicate PastWait(pc: Pc) { pc.Returning? || pc.Exited? || pc.Reaped? }

  predicate Fits(numforks: int, p: Proc) {
    match p.pc
    case Forking(made) => p.level > 0 && made <= Passes(numforks) && NoThreads(p)
    case Waiting => p.level > 0 && NoThreads(p)
    case Spawning(i) => p.level == 0 && i <= Threads(numforks) && p.started == i && p.joined == 0
    case Joining(i) => p.level == 0 && i <= Threads(numforks) && p.started == Threads(numforks) && p.joined == i
    case _ => if p.level == 0 then p.started == p.joined == Threads(numforks) else NoThreads(p)
  }

  predicate NoThreads(p: Proc) { p.started == p.joined == 0 }

  /** A process with a fork behind it and its wait still ahead. */
  predicate HasForked(numforks: int, pc: Pc) {
    (pc.Forking? && pc.made > 0) || (pc.Waiting? && Passes(numforks) > 0)
  }

  predicate Linked(s: State, c: nat)
    requires c < |s|
  {
    var p := s[c].parent;
    c > 0 ==> p < c && s[p].level == s[c].level + 1 && (s[c].pc.Reaped? ==> PastWait(s[p].pc))
  }

  ghost predicate ChildIfForked(numforks: int, s: State, p: nat)
    requires p < |s|
  {
    HasForked(numforks, s[p].pc) ==> exists c :: IsChild(s, p, c)
  }

  ghost predicate Inv(numforks: int, s: State) {
    && |s| > 0 && !s[0].pc.Reaped? && (Passes(numforks) == 0 ==> |s| == 1)
    && (forall p :: 0 <= p < |s| ==> Fits(numforks, s[p]))
    && (forall c :: 0 <= c < |s| ==> Linked(s, c))
    && (forall p :: 0 <= p < |s| ==> ChildIfForked(numforks, s, p))
  }

  lemma ForkKeepsInv(numforks: int, s: State, p: nat)
    requires Inv(numforks, s) && p < |s| && ForksNext(numforks, s[p].pc)
    ensures Inv(numforks, Apply(numforks, s, Move(p)))
  {
    var t := Apply(numforks, s, Move(p));
    assert IsChild(t, p, |s|);
    forall q | 0 <= q < |t| ensures ChildIfForked(numforks, t, q) {
      if q < |s| && q != p && HasForked(numforks, s[q].pc) {
        assert ChildIfForked(numforks, s, q);
        var c :| IsChild(s, q, c);
        assert IsChild(t, q, c);
      }
    }
    forall c | 0 <= c < |t| ensures Linked(t, c) {
      if c < |s| { assert Linked(s, c); }
    }
  }

  /** Steps that only move process p along keep everything, as long as p does not go back before its wait. */
  lemma LocalKeepsInv(numforks: int, s: State, p: nat, q: Proc)
    requires Inv(numforks, s) && p < |s| && Fits(numforks, q) && q.parent == s[p].parent && q.level == s[p].level
    requires !q.pc.Reaped? && (PastWait(s[p].pc) ==> PastWait(q.pc))
    requires HasForked(numforks, q.pc) ==> exists c :: IsChild(s, p, c)
    ensures Inv(numforks, s[p := q])
  {
    var t := s[p := q];
    assert forall q, c :: IsChild(t, q, c) <==> IsChild(s, q, c);
    forall c | 0 <= c < |t| ensures Linked(t, c) { assert Linked(s, c); }
    forall q | 0 <= q < |t| ensures ChildIfForked(numforks, t, q) { assert ChildIfForked(numforks, s, q); }
  }

  lemma ReapKeepsInv(numforks: int, s: State, p: nat, c: nat)
    requires Inv(numforks, s) && Enabled(s, Reap(p, c))
    ensures Inv(numforks, Apply(numforks, s, Reap(p, c)))
  {
    var t := Apply(numforks, s, Reap(p, c));
    assert forall q, d :: IsChild(t, q, d) <==> IsChild(s, q, d);
    forall d | 0 <= d < |t| ensures Linked(t, d) { assert Linked(s, d); }
    forall q | 0 <= q < |t| ensures ChildIfForked(numforks, t, q) { assert ChildIfForked(numforks, s, q); }
  }

  lemma StepKeepsInv(numforks: int, s: State, a: Action)
    requires Inv(numforks, s) && Enabled(s, a)
    ensures Inv(numforks, Apply(numforks, s, a))
  {
    var t, p := Apply(numforks, s, a), a.p;
    match a
    case Reap(_, c) => ReapKeepsInv(numforks, s, p, c);
    case Move(_) =>
      if ForksNext(numforks, s[p].pc) {
        ForkKeepsInv(numforks, s, p);
      } else {
        assert ChildIfForked(numforks, s, p);
        LocalKeepsInv(numforks, s, p, t[p]);
      }
  }

  /** A process about to wait after forking has a child it has not reaped, so its wait cannot fail. */
  lemma WaitFindsChild(numforks: int, s: State, p: nat)
    requires Inv(numforks, s) && p < |s| && s[p].pc.Waiting? && Passes(numforks) > 0
    ensures !Enabled(s, Move(p))
  {
    assert ChildIfForked(numforks, s, p);
    var c :| IsChild(s, p, c);
    assert Linked(s, c);
  }

  // ----- counting

  function Power(m: nat, e: nat): nat { if e == 0 then 1 else Times(m, Power(m, e - 1)) }

  lemma {:induction false} TimesIsProduct(k: nat, x: nat)
    ensures Times(k, x) == k * x
  {
    if k > 0 { TimesIsProduct(k - 1, x); }
  }

  datatype Kind = Processes | Leaves | ThreadsStarted | Reaps | Steps

  /** What a process on a level above 0 comes to by itself. */
  function Own(numforks: int, kind: Kind): nat {
    match kind
    case Processes => 1
    case Reaps => One(Passes(numforks) > 0)
    case Steps => 3
    case _ => 0
  }

  function Leaf(numforks: int, kind: Kind): nat {
    match kind
    case Processes => 1
    case Leaves => 1
    case ThreadsStarted => Threads(numforks)
    case Reaps => 0
    case Steps => 2 * Threads(numforks) + 3
  }

  /** How much of each kind one process and its descendants come to, from its start to its exit. */
  function Total(numforks: int, level: nat, kind: Kind): nat {
    if level == 0 then Leaf(numforks, kind)
    else Own(numforks, kind) + Times(Passes(numforks), Total(numforks, level - 1, kind) + One(kind.Steps?))
  }

  /** What a process has contributed so far, not counting its children. */
  function Made(numforks: int, kind: Kind, p: Proc): nat {
    match kind
    case Processes => 1
    case Leaves => One(p.level == 0)
    case ThreadsStarted => p.started
    case Reaps => One(p.pc.Reaped?)
    case Steps => 0
  }

  /** What one child yet to be forked by a process on this level stands for. */
  function PerFork(numforks: int, kind: Kind, level: nat): nat {
    if level == 0 then 0 else Total(numforks, level - 1, kind) + One(kind.Steps?)
  }

  /** What a process still has to contribute once it has forked all its children. */
  function AfterForks(numforks: int, kind: Kind): nat {
    match kind
    case Reaps => One(Passes(numforks) > 0)
    case Steps => 2
    case _ => 0
  }

  /** What a process still has to contribute, with the children it has yet to fork and all below them. */
  function Pending(numforks: int, kind: Kind, p: Proc): nat {
    var m, c := Passes(numforks), Threads(numforks);
    match p.pc
    case Forking(made) =>
      Times(if made <= m then m - made else 0, PerFork(numforks, kind, p.level))
      + AfterForks(numforks, kind) + One(kind.Steps?)
    case Waiting => AfterForks(numforks, kind)
    case Spawning(started) =>
      var left := if started <= c then c - started else 0;
      (match kind case ThreadsStarted => left case Steps => left + c + 3 case _ => 0)
    case Joining(joined) =>
      if kind.Steps? then (if joined <= c then c - joined else 0) + 2 else 0
    case Returning => One(kind.Steps?)
    case _ => 0
  }

  function Weight(numforks: int, kind: Kind): Proc -> nat {
    p => Made(numforks, kind, p) + Pending(numforks, kind, p)
  }

  function MadeOf(numforks: int, kind: Kind): Proc -> nat { p => Made(numforks, kind, p) }

  lemma StartWeight(numforks: int, parent: nat, level: nat, kind: Kind)
    ensures Weight(numforks, kind)(NewProc(parent, level)) == Total(numforks, level, kind)
  {
    if level == 0 { LeafWeight(numforks, parent, kind); } else { NodeWeight(numforks, parent, level, kind); }
  }

  lemma LeafWeight(numforks: int, parent: nat, kind: Kind)
    ensures Weight(numforks, kind)(Proc(parent, 0, Spawning(0), 0, 0)) == Leaf(numforks, kind)
  {}

  lemma NodeWeight(numforks: int, parent: nat, level: nat, kind: Kind)
    requires level > 0
    ensures Weight(numforks, kind)(Proc(parent, level, Forking(0), 0, 0))
         == Own(numforks, kind) + Times(Passes(numforks), PerFork(numforks, kind, level))
  {}

  /** A fork turns one child's share of what is pending into a process. */
  lemma ForkWeight(numforks: int, p: Proc, kind: Kind)
    requires ForksNext(numforks, p.pc)
    ensures Weight(numforks, kind)(p)
         == Weight(numforks, kind)(p.(pc := Forking(p.pc.made + 1))) + PerFork(numforks, kind, p.level)
  {
    var left, x := Passes(numforks) - p.pc.made, PerFork(numforks, kind, p.level);
    assert Times(left, x) == Times(left - 1, x) + x;
  }

  lemma LocalWeight(numforks: int, p: Proc, kind: Kind)
    requires Fits(numforks, p) && !ForksNext(numforks, p.pc) && !Ended(p.pc)
    requires p.pc.Waiting? ==> Passes(numforks) == 0
    ensures Weight(numforks, kind)(Next(numforks, p)) + One(kind.Steps?) == Weight(numforks, kind)(p)
  {}

  lemma ForkSum(s: State, t: State, p: nat, parent: Proc, child: Proc, w: Proc -> nat, extra: nat)
    requires p < |s| && t == s[p := parent] + [child]
    requires w(parent) + w(child) + extra == w(s[p])
    ensures Sum(t, w) + extra == Sum(s, w)
  {
    SumUpdate(s, p, parent, w);
    SumAppend(s[p := parent], child, w);
  }

  lemma ForkWeights(numforks: int, p: Proc, pid: nat, kind: Kind)
    requires Fits(numforks, p) && ForksNext(numforks, p.pc)
    ensures Weight(numforks, kind)(p.(pc := Forking(p.pc.made + 1)))
          + Weight(numforks, kind)(NewProc(pid, p.level - 1)) + One(kind.Steps?)
         == Weight(numforks, kind)(p)
  {
    StartWeight(numforks, pid, p.level - 1, kind);
    ForkWeight(numforks, p, kind);
  }

  lemma {:induction false} ForkConserves(numforks: int, s: State, p: nat, kind: Kind)
    requires p < |s| && ForksNext(numforks, s[p].pc) && Fits(numforks, s[p])
    ensures Sum(Apply(numforks, s, Move(p)), Weight(numforks, kind)) + One(kind.Steps?) == Sum(s, Weight(numforks, kind))
  {
    var parent := s[p].(pc := Forking(s[p].pc.made + 1));
    var child := NewProc(p, s[p].level - 1);
    ForkShape(numforks, s, p);
    ForkWeights(numforks, s[p], p, kind);
    ForkSum(s, Apply(numforks, s, Move(p)), p, parent, child, Weight(numforks, kind), One(kind.Steps?));
  }

  lemma ForkShape(numforks: int, s: State, p: nat)
    requires p < |s| && ForksNext(numforks, s[p].pc) && s[p].level > 0
    ensures Enabled(s, Move(p))
    ensures Apply(numforks, s, Move(p))
         == s[p := s[p].(pc := Forking(s[p].pc.made + 1))] + [NewProc(p, s[p].level - 1)]
  {}

  lemma ReapWeights(numforks: int, p: Proc, c: Proc, kind: Kind)
    requires p.pc.Waiting? && c.pc.Exited? && Passes(numforks) > 0
    ensures Weight(numforks, kind)(p.(pc := Returning)) + Weight(numforks, kind)(c.(pc := Reaped)) + One(kind.Steps?)
         == Weight(numforks, kind)(p) + Weight(numforks, kind)(c)
  {}

  lemma ReapConserves(numforks: int, s: State, p: nat, c: nat, kind: Kind)
    requires Inv(numforks, s) && Enabled(s, Reap(p, c))
    ensures Sum(Apply(numforks, s, Reap(p, c)), Weight(numforks, kind)) + One(kind.Steps?) == Sum(s, Weight(numforks, kind))
  {
    var w := Weight(numforks, kind);
    var reaped, on := s[c].(pc := Reaped), s[p].(pc := Returning);
    SumUpdate(s, c, reaped, w);
    SumUpdate(s[c := reaped], p, on, w);
    ReapWeights(numforks, s[p], s[c], kind);
  }

  /** What has been made and what is pending add up to the same total before and after every step. */
  lemma StepConserves(numforks: int, s: State, a: Action, kind: Kind)
    requires Inv(numforks, s) && Enabled(s, a)
    ensures Sum(Apply(numforks, s, a), Weight(numforks, kind)) + One(kind.Steps?) == Sum(s, Weight(numforks, kind))
  {
    match a
    case Reap(p, c) => ReapConserves(numforks, s, p, c, kind);
    case Move(p) =>
      assert Fits(numforks, s[p]);
      if ForksNext(numforks, s[p].pc) {
        ForkConserves(numforks, s, p, kind);
      } else {
        if s[p].pc.Waiting? && Passes(numforks) > 0 { WaitFindsChild(numforks, s, p); }
        LocalWeight(numforks, s[p], kind);
        SumUpdate(s, p, Next(numforks, s[p]), Weight(numforks, kind));
      }
  }

  // ----- every run

  ghost predicate RunOf(numforks: int, numlevels: nat, run: seq<State>) {
    IsRun(Step(numforks), run) && run[0] == Start(numlevels)
  }

  lemma {:induction false} InvOnRun(numforks: int, numlevels: nat, run: seq<State>)
    requires RunOf(numforks, numlevels, run)
    ensures forall i :: 0 <= i < |run| ==> Inv(numforks, run[i])
  {
    var inv := (s: State) => Inv(numforks, s);
    forall s, t | inv(s) && Step(numforks)(s, t) ensures inv(t) {
      var a :| Enabled(s, a) && t == Apply(numforks, s, a);
      StepKeepsInv(numforks, s, a);
    }
    InvariantOnRun(Step(numforks), inv, run);
    forall i | 0 <= i < |run| ensures Inv(numforks, run[i]) { assert inv(run[i]); }
  }

  /**
   * In every state of every run, for processes, leaves, threads and reaped children alike, what there
   * is so far and what is still to come add up to the total fixed at the start; and the steps taken
   * and the steps still to come add up to the length of every complete run.
   */
  lemma {:induction false} Conservation(numforks: int, numlevels: nat, run: seq<State>, i: nat, kind: Kind)
    requires RunOf(numforks, numlevels, run) && i < |run|
    ensures Sum(run[i], Weight(numforks, kind)) + (if kind.Steps? then i else 0) == Total(numforks, numlevels, kind)
  {
    InvOnRun(numforks, numlevels, run);
    if i == 0 {
      StartWeight(numforks, 0, numlevels, kind);
    } else {
      var shorter := run[..i];
      assert forall j :: 0 <= j < i ==> shorter[j] == run[j];
      Conservation(numforks, numlevels, run, i - 1, kind);
      assert Step(numforks)(run[i - 1], run[i]);
      var a :| Enabled(run[i - 1], a) && run[i] == Apply(numforks, run[i - 1], a);
      StepConserves(numforks, run[i - 1], a, kind);
    }
  }

  predicate Finished(s: State) { forall p | 0 <= p < |s| :: Ended(s[p].pc) }

  /** Process q is p or was forked by a descendant of p. */
  predicate Descends(s: State, p: nat, q: nat) {
    q < |s| && (q == p || (s[q].parent < q && Descends(s, p, s[q].parent)))
  }

  lemma {:induction false} ChildDescends(s: State, p: nat, c: nat, q: nat)
    requires IsChild(s, p, c) && Descends(s, c, q)
    ensures Descends(s, p, q)
  {
    if q == c { assert Descends(s, p, p); } else { ChildDescends(s, p, c, s[q].parent); }
  }

  /** A live process has a step in its own subtree that can be taken now. */
  lemma {:induction false} FindEnabled(numforks: int, s: State, p: nat) returns (a: Action)
    requires Inv(numforks, s) && p < |s| && !Ended(s[p].pc)
    ensures Enabled(s, a) && Descends(s, p, a.p)
    decreases |s| - p
  {
    a := Move(p);
    if !Enabled(s, a) {
      var c :| 0 <= c < |s| && IsChild(s, p, c) && !s[c].pc.Reaped?;
      if s[c].pc.Exited? {
        a := Reap(p, c);
      } else {
        a := FindEnabled(numforks, s, c);
        ChildDescends(s, p, c, a.p);
      }
    }
  }

  /** How many of each kind there are. */
  function Count(numforks: int, s: State, kind: Kind): nat { Sum(s, MadeOf(numforks, kind)) }

  ghost predicate Stuck(s: State) { forall a :: !Enabled(s, a) }

  lemma StuckMeansFinished(numforks: int, s: State)
    requires Inv(numforks, s)
    ensures Stuck(s) <==> Finished(s)
    ensures Finished(s) <==> Sum(s, Weight(numforks, Steps)) == 0
  {
    if Finished(s) {
      SumZero(s, Weight(numforks, Steps));
      forall a ensures !Enabled(s, a) { if a.p < |s| { assert Ended(s[a.p].pc); } }
    } else {
      var p :| 0 <= p < |s| && !Ended(s[p].pc);
      var a := FindEnabled(numforks, s, p);
      StepConserves(numforks, s, a, Steps);
    }
  }

  lemma NothingPending(numforks: int, s: State, kind: Kind)
    requires Finished(s)
    ensures Sum(s, Weight(numforks, kind)) == Count(numforks, s, kind)
  {
    forall p | 0 <= p < |s| ensures Weight(numforks, kind)(s[p]) == MadeOf(numforks, kind)(s[p]) {
      assert Ended(s[p].pc);
    }
    SumSame(s, Weight(numforks, kind), MadeOf(numforks, kind));
  }

  /**
   * Every run ends, all complete runs have the same length, a run is stuck only once every process has
   * exited, and then each kind has reached its total, whatever the schedule was.
   */
  lemma EveryRunCompletes(numforks: int, numlevels: nat, run: seq<State>, kind: Kind)
    requires RunOf(numforks, numlevels, run)
    ensures |run| - 1 <= Total(numforks, numlevels, Steps)
    ensures Stuck(run[|run| - 1]) <==> |run| - 1 == Total(numforks, numlevels, Steps)
    ensures Stuck(run[|run| - 1]) <==> Finished(run[|run| - 1])
    ensures Finished(run[|run| - 1]) && !kind.Steps? ==>
      Count(numforks, run[|run| - 1], kind) == Total(numforks, numlevels, kind)
  {
    var last := run[|run| - 1];
    InvOnRun(numforks, numlevels, run);
    assert Inv(numforks, last);
    Conservation(numforks, numlevels, run, |run| - 1, Steps);
    Conservation(numforks, numlevels, run, |run| - 1, kind);
    StuckMeansFinished(numforks, last);
    if Finished(last) { NothingPending(numforks, last, kind); }
  }

  lemma TimesFactor(m: nat, q: nat, c: nat)
    ensures Times(m, q * c) == Times(m, q) * c
  {
    TimesIsProduct(m, q);
    TimesIsProduct(m, q * c);
  }

  lemma {:induction false} TimesSum(m: nat, r: nat, q: nat)
    ensures Times(m, r + q) == Times(m, r) + Times(m, q)
  {
    if m > 0 { TimesSum(m - 1, r, q); }
  }

  lemma {:induction false} LeavesClosed(numforks: int, level: nat)
    ensures Total(numforks, level, Leaves) == Power(Passes(numforks), level)
  {
    if level > 0 { LeavesClosed(numforks, level - 1); }
  }

  lemma {:induction false} ThreadsClosed(numforks: int, level: nat)
    ensures Total(numforks, level, ThreadsStarted) == Power(Passes(numforks), level) * Threads(numforks)
  {
    if level > 0 {
      ThreadsClosed(numforks, level - 1);
      TimesFactor(Passes(numforks), Power(Passes(numforks), level - 1), Threads(numforks));
    }
  }

  /** The geometric sum: m times it, and 1, is it and the next power. */
  lemma {:induction false} ProcessesClosed(numforks: int, level: nat)
    ensures Times(Passes(numforks), Total(numforks, level, Processes)) + 1
         == Total(numforks, level, Processes) + Power(Passes(numforks), level + 1)
  {
    var m := Passes(numforks);
    if level > 0 {
      ProcessesClosed(numforks, level - 1);
      var t, p := Total(numforks, level - 1, Processes), Power(m, level);
      TimesSum(m, 1, Times(m, t));
      TimesSum(m, t, p);
    }
  }

  lemma {:induction false} ReapsClosed(numforks: int, level: nat)
    requires Passes(numforks) > 0
    ensures Total(numforks, level, Processes) == Total(numforks, level, Reaps) + Power(Passes(numforks), level)
  {
    if level > 0 {
      ReapsClosed(numforks, level - 1);
      TimesSum(Passes(numforks), Total(numforks, level - 1, Reaps), Power(Passes(numforks), level - 1));
    }
  }

  lemma {:induction false} FinalCounts(numforks: int, numlevels: nat, run: seq<State>)
    requires RunOf(numforks, numlevels, run) && Finished(run[|run| - 1])
    ensures var last := run[|run| - 1];
            && |last| == Total(numforks, numlevels, Processes)
            && Count(numforks, last, Leaves) == Total(numforks, numlevels, Leaves)
            && Count(numforks, last, ThreadsStarted) == Total(numforks, numlevels, ThreadsStarted)
            && Count(numforks, last, Reaps) == Total(numforks, numlevels, Reaps)
  {
    EveryRunCompletes(numforks, numlevels, run, Processes);
    EveryRunCompletes(numforks, numlevels, run, Leaves);
    EveryRunCompletes(numforks, numlevels, run, ThreadsStarted);
    EveryRunCompletes(numforks, numlevels, run, Reaps);
    SumOnes(run[|run| - 1], MadeOf(numforks, Processes));
  }

  /**
   * For numforks >= 1 every complete run has the geometric sum of processes, numforks^numlevels leaves
   * with min(numforks, 20) threads each, and numforks^numlevels - 1 forked processes that their parent
   * never reaps.
   */
  lemma {:induction false} ExactCounts(numforks: nat, numlevels: nat, run: seq<State>, processes: nat)
    requires numforks >= 1 && RunOf(numforks, numlevels, run) && Finished(run[|run| - 1])
    requires processes == |run[|run| - 1]|
    ensures numforks * processes - processes == Power(numforks, numlevels + 1) - 1
    ensures var last := run[|run| - 1];
            && Count(numforks, last, Leaves) == Power(numforks, numlevels)
            && Count(numforks, last, ThreadsStarted)
                 == Power(numforks, numlevels) * (if numforks > 20 then 20 else numforks)
            && (processes - 1) - Count(numforks, last, Reaps) == Power(numforks, numlevels) - 1
  {
    FinalCounts(numforks, numlevels, run);
    LeavesClosed(numforks, numlevels);
    ThreadsClosed(numforks, numlevels);
    ProcessesClosed(numforks, numlevels);
    ReapsClosed(numforks, numlevels);
    TimesIsProduct(numforks, processes);
  }

  /**
   * In every state of every run a process creates no thread unless it is a leaf, a leaf joins no more
   * threads than it has created, and one that has returned has created and joined min(numforks, 20).
   */
  lemma ThreadsOfLeaf(numforks: nat, numlevels: nat, run: seq<State>, i: nat, p: nat)
    requires RunOf(numforks, numlevels, run) && i < |run| && p < |run[i]|
    ensures run[i][p].joined <= run[i][p].started <= (if numforks > 20 then 20 else numforks)
    ensures run[i][p].level > 0 ==> run[i][p].started == 0
    ensures run[i][p].level == 0 && PastWait(run[i][p].pc) ==>
      run[i][p].joined == run[i][p].started == if numforks > 20 then 20 else numforks
    ensures run[i][p].level == 0 && run[i][p].joined > 0 ==>
      run[i][p].started == if numforks > 20 then 20 else numforks
  {
    InvOnRun(numforks, numlevels, run);
    assert Inv(numforks, run[i]);
    assert Fits(numforks, run[i][p]);
  }

  // ----- which child a parent reaps

  predicate ReapedChild(s: State, p: nat, c: nat) { IsChild(s, p, c) && s[c].pc.Reaped? }

  ghost predicate OneReaped(s: State, p: nat) {
    && (exists c :: ReapedChild(s, p, c))
    && (forall c, d :: ReapedChild(s, p, c) && ReapedChild(s, p, d) ==> c == d)
  }

  /** Every process that has gone past its wait has reaped one child of its own. */
  ghost predicate ReapsOne(s: State) {
    forall p :: 0 <= p < |s| && s[p].level > 0 && PastWait(s[p].pc) ==> OneReaped(s, p)
  }

  lemma SameReaped(s: State, t: State, p: nat)
    requires OneReaped(s, p) && forall c :: ReapedChild(t, p, c) <==> ReapedChild(s, p, c)
    ensures OneReaped(t, p)
  {
    var c :| ReapedChild(s, p, c);
    assert ReapedChild(t, p, c);
  }

  lemma MoveKeepsReapsOne(numforks: int, s: State, p: nat)
    requires Passes(numforks) > 0 && Inv(numforks, s) && ReapsOne(s) && Enabled(s, Move(p))
    ensures ReapsOne(Apply(numforks, s, Move(p)))
  {
    var t := Apply(numforks, s, Move(p));
    assert Fits(numforks, s[p]);
    if s[p].pc.Waiting? { WaitFindsChild(numforks, s, p); }
    assert forall q: nat, c: nat :: ReapedChild(t, q, c) <==> ReapedChild(s, q, c);
    forall q | 0 <= q < |t| && t[q].level > 0 && PastWait(t[q].pc) ensures OneReaped(t, q) { SameReaped(s, t, q); }
  }

  lemma NoneReapedBefore(numforks: int, s: State, p: nat)
    requires Inv(numforks, s) && p < |s| && !PastWait(s[p].pc)
    ensures forall c :: !ReapedChild(s, p, c)
  {
    forall c | IsChild(s, p, c) ensures !ReapedChild(s, p, c) { assert Linked(s, c); }
  }

  lemma ReapKeepsReapsOne(numforks: int, s: State, p: nat, c: nat)
    requires Inv(numforks, s) && ReapsOne(s) && Enabled(s, Reap(p, c))
    ensures ReapsOne(Apply(numforks, s, Reap(p, c)))
  {
    var t := Apply(numforks, s, Reap(p, c));
    assert ReapedChild(t, p, c);
    NoneReapedBefore(numforks, s, p);
    forall d | ReapedChild(t, p, d) ensures d == c { assert !ReapedChild(s, p, d); }
    forall q: nat | q < |t| && q != p && t[q].level > 0 && PastWait(t[q].pc) ensures OneReaped(t, q) {
      SameReaped(s, t, q);
    }
  }

  /**
   * In every state of every run with at least one fork a process that has gone past its wait has reaped
   * exactly one child of its own, and one that has not yet got there, or is a leaf, has reaped none.
   */
  lemma {:induction false} ReapsExactlyOne(numforks: int, numlevels: nat, run: seq<State>, i: nat, p: nat)
    requires numforks >= 1 && RunOf(numforks, numlevels, run) && i < |run| && p < |run[i]|
    ensures if run[i][p].level > 0 && PastWait(run[i][p].pc) then OneReaped(run[i], p)
            else forall c :: !ReapedChild(run[i], p, c)
  {
    var inv := (s: State) => Inv(numforks, s) && ReapsOne(s);
    forall s, t | inv(s) && Step(numforks)(s, t) ensures inv(t) {
      var a :| Enabled(s, a) && t == Apply(numforks, s, a);
      StepKeepsInv(numforks, s, a);
      match a
      case Move(q) => MoveKeepsReapsOne(numforks, s, q);
      case Reap(q, c) => ReapKeepsReapsOne(numforks, s, q, c);
    }
    InvariantOnRun(Step(numforks), inv, run);
    assert inv(run[i]);
    assert forall c :: IsChild(run[i], p, c) ==> Linked(run[i], c);
  }

  // ----- what waitchildren does and does not wait for

  predicate ChildrenGone(s: State, p: nat) {
    forall c | 0 <= c < |s| && IsChild(s, p, c) :: Ended(s[c].pc)
  }

  /** The message after the wait: in no reachable state has a parent gone on while a child still runs. */
  ghost predicate WaitsForAll(numforks: int, numlevels: nat) {
    forall s: State, p: nat |
      Reachable(Step(numforks), Start(numlevels), s) && p < |s| && s[p].level > 0 && PastWait(s[p].pc)
      :: ChildrenGone(s, p)
  }

  /** With at most one fork, a parent has at most one child, and reaps it before going on. */
  ghost predicate OnlyChild(s: State) {
    && (forall p: nat, c: nat, d: nat :: IsChild(s, p, c) && IsChild(s, p, d) ==> c == d)
    && (forall p: nat, c: nat :: IsChild(s, p, c) ==> DoneWith(s, p, c))
  }

  predicate DoneWith(s: State, p: nat, c: nat)
    requires IsChild(s, p, c)
  {
    && s[p].level > 0 && s[p].pc != Forking(0)
    && (PastWait(s[p].pc) ==> s[c].pc.Reaped?)
  }

  lemma StepKeepsOnlyChild(numforks: int, s: State, a: Action)
    requires Passes(numforks) <= 1 && Inv(numforks, s) && OnlyChild(s) && Enabled(s, a)
    ensures OnlyChild(Apply(numforks, s, a))
  {
    var t := Apply(numforks, s, a);
    assert Fits(numforks, s[a.p]);
    assert forall p: nat, c: nat :: IsChild(t, p, c) && c < |s| ==> IsChild(s, p, c);
    forall p: nat, c: nat | IsChild(t, p, c) ensures DoneWith(t, p, c) {
      if c < |s| { assert DoneWith(s, p, c) && Linked(s, c); }
    }
  }

  lemma OnlyChildGone(s: State, p: nat)
    requires OnlyChild(s) && p < |s| && PastWait(s[p].pc)
    ensures ChildrenGone(s, p)
  {
    forall c | 0 <= c < |s| && IsChild(s, p, c) ensures Ended(s[c].pc) { assert DoneWith(s, p, c); }
  }

  lemma {:induction false} OnlyChildOnReachable(numforks: int, numlevels: nat, s: State)
    requires Passes(numforks) <= 1 && Reachable(Step(numforks), Start(numlevels), s)
    ensures OnlyChild(s)
  {
    var inv := (s: State) => Inv(numforks, s) && OnlyChild(s);
    forall s, t | inv(s) && Step(numforks)(s, t) ensures inv(t) {
      var a :| Enabled(s, a) && t == Apply(numforks, s, a);
      StepKeepsInv(numforks, s, a);
      StepKeepsOnlyChild(numforks, s, a);
    }
    InvariantOnReachable(Step(numforks), inv, Start(numlevels), s);
  }

  lemma {:induction false} FewForksWaitForAll(numforks: int, numlevels: nat)
    requires Passes(numforks) <= 1
    ensures WaitsForAll(numforks, numlevels)
  {
    forall s: State, p: nat | Reachable(Step(numforks), Start(numlevels), s)
      && p < |s| && s[p].level > 0 && PastWait(s[p].pc) ensures ChildrenGone(s, p)
    {
      OnlyChildOnReachable(numforks, numlevels, s);
      OnlyChildGone(s, p);
    }
  }

  lemma ReachableBy(numforks: int, s0: State, s: State, a: Action)
    requires Reachable(Step(numforks), s0, s) && Enabled(s, a)
    ensures Reachable(Step(numforks), s0, Apply(numforks, s, a))
  {
    assert Step(numforks)(s, Apply(numforks, s, a));
    ReachableStep(Step(numforks), s0, s, Apply(numforks, s, a));
  }

  lemma {:induction false} Then(numforks: int, s0: State, s: State, a: Action) returns (t: State)
    requires Reachable(Step(numforks), s0, s) && Inv(numforks, s) && Enabled(s, a)
    ensures Reachable(Step(numforks), s0, t) && Inv(numforks, t) && t == Apply(numforks, s, a)
    ensures Sum(t, Weight(numforks, Steps)) < Sum(s, Weight(numforks, Steps))
  {
    t := Apply(numforks, s, a);
    ReachableBy(numforks, s0, s, a);
    StepKeepsInv(numforks, s, a);
    StepConserves(numforks, s, a, Steps);
  }

  /** Processes 1 and 2 are the first two children of main, and process 2 has not run yet. */
  ghost predicate SecondChildIdle(numlevels: nat, s: State) {
    && |s| >= 3 && s[0].level == numlevels > 0
    && s[1].parent == 0 && s[2] == NewProc(0, numlevels - 1)
  }

  /** While main has not passed its wait, some process other than process 2 can move. */
  lemma MoveWithoutSecond(numforks: int, numlevels: nat, s: State) returns (a: Action)
    requires Inv(numforks, s) && SecondChildIdle(numlevels, s) && !PastWait(s[0].pc)
    ensures Enabled(s, a) && SecondChildIdle(numlevels, Apply(numforks, s, a))
  {
    assert IsChild(s, 0, 1) && IsChild(s, 0, 2) && Linked(s, 1);
    a := Move(0);
    if s[0].pc.Waiting? {
      if s[1].pc.Exited? {
        a := Reap(0, 1);
      } else {
        a := FindEnabled(numforks, s, 1);
        assert !Descends(s, 1, 0) && !Descends(s, 1, 2);
      }
      KeepsSecond(numforks, s, a);
    } else {
      assert Fits(numforks, s[0]);
      KeepsSecond(numforks, s, a);
    }
  }

  lemma KeepsSecond(numforks: int, s: State, a: Action)
    requires |s| >= 3 && s[1].parent == 0 && s[2].parent == 0 && Enabled(s, a) && a.p != 2
    requires a.Reap? ==> a.child != 2
    ensures var t := Apply(numforks, s, a);
            |t| >= 3 && t[0].level == s[0].level && t[1].parent == 0 && t[2] == s[2]
  {}

  /** Main can get past its wait although process 2 never gets to run. */
  lemma {:induction false} LeaveSecondChildBehind(numforks: int, numlevels: nat, s: State) returns (t: State)
    requires Reachable(Step(numforks), Start(numlevels), s) && Inv(numforks, s) && SecondChildIdle(numlevels, s)
    ensures Reachable(Step(numforks), Start(numlevels), t) && SecondChildIdle(numlevels, t) && PastWait(t[0].pc)
    decreases Sum(s, Weight(numforks, Steps))
  {
    if PastWait(s[0].pc) {
      t := s;
    } else {
      var a := MoveWithoutSecond(numforks, numlevels, s);
      var next := Then(numforks, Start(numlevels), s, a);
      t := LeaveSecondChildBehind(numforks, numlevels, next);
    }
  }

  lemma {:induction false} ForkTwice(numforks: int, numlevels: nat) returns (s: State)
    requires numforks >= 2 && numlevels >= 1
    ensures Reachable(Step(numforks), Start(numlevels), s) && Inv(numforks, s) && SecondChildIdle(numlevels, s)
  {
    var s0 := Start(numlevels);
    ReachableRefl(Step(numforks), s0);
    ForkShape(numforks, s0, 0);
    var s1 := Then(numforks, s0, s0, Move(0));
    ForkShape(numforks, s1, 0);
    s := Then(numforks, s0, s1, Move(0));
  }

  lemma ManyForksLeaveChildren(numforks: int, numlevels: nat)
    requires numforks >= 2 && numlevels >= 1
    ensures !WaitsForAll(numforks, numlevels)
  {
    var s := ForkTwice(numforks, numlevels);
    var t := LeaveSecondChildBehind(numforks, numlevels, s);
    assert IsChild(t, 0, 2) && !ChildrenGone(t, 0);
  }

  /**
   * waitchildren announces that all children have exited, but it returns after the first: the
   * announcement is true in every run if and only if there is at most one child to wait for.
   */
  lemma WaitsForAllExactly(numforks: int, numlevels: nat)
    ensures WaitsForAll(numforks, numlevels) <==> numforks <= 1 || numlevels == 0
  {
    if numforks <= 1 {
      FewForksWaitForAll(numforks, numlevels);
    } else if numlevels == 0 {
      LeafHasNoChildren(numforks);
    } else {
      ManyForksLeaveChildren(numforks, numlevels);
    }
  }

  lemma {:induction false} LeafHasNoChildren(numforks: int)
    ensures WaitsForAll(numforks, 0)
  {
    forall s: State | Reachable(Step(numforks), Start(0), s) ensures |s| == 1 && s[0].level == 0 {
      LeafStaysAlone(numforks, s);
    }
  }

  predicate LoneLeaf(s: State) { |s| == 1 && s[0].level == 0 && !s[0].pc.Forking? && !s[0].pc.Waiting? }

  lemma LeafStep(numforks: int, s: State, a: Action)
    requires LoneLeaf(s) && Enabled(s, a)
    ensures LoneLeaf(Apply(numforks, s, a))
  {}

  lemma {:induction false} LeafStaysAlone(numforks: int, s: State)
    requires Reachable(Step(numforks), Start(0), s)
    ensures |s| == 1 && s[0].level == 0
  {
    var inv := (s: State) => LoneLeaf(s);
    forall s, t | inv(s) && Step(numforks)(s, t) ensures inv(t) {
      var a :| Enabled(s, a) && t == Apply(numforks, s, a);
      LeafStep(numforks, s, a);
    }
    InvariantOnReachable(Step(numforks), inv, Start(0), s);
  }

  // ----- the table, updated in place

  /** Process p has a step that does not block. */
  predicate CanMove(s: State, p: nat) {
    p < |s| && (Enabled(s, Move(p)) || exists c | 0 <= c < |s| :: Enabled(s, Reap(p, c)))
  }

  lemma SomeoneCanMove(numforks: int, s: State)
    requires Inv(numforks, s) && !Finished(s)
    ensures exists p: nat :: p < |s| && CanMove(s, p)
  {
    var p :| 0 <= p < |s| && !Ended(s[p].pc);
    var a := FindEnabled(numforks, s, p);
    assert CanMove(s, a.p);
  }

  class ProcessTable {
    const numforks: int
    var procs: seq<Proc>

    constructor (numforks: int, numlevels: nat)
      ensures this.numforks == numforks && procs == Start(numlevels)
    {
      this.numforks := numforks;
      procs := [NewProc(0, numlevels)];
    }

    /** fork() by process p: the child starts one level down, the parent goes round its loop. */
    method Fork(p: nat) returns (cpid: nat)
      requires p < |procs| && procs[p].pc.Forking? && procs[p].pc.made < numforks && procs[p].level > 0
      modifies this
      ensures procs == Apply(numforks, old(procs), Move(p)) && cpid == old(|procs|)
    {
      cpid := |procs|;
      var made := procs[p].pc.made;
      procs := procs[p := procs[p].(pc := Forking(made + 1))];
      procs := procs + [NewProc(p, procs[p].level - 1)];
    }

    /** waitpid(0, ...) by process p, when it does not block: some terminated child, or none left to wait for. */
    method WaitPid(p: nat) returns (w: int)
      requires p < |procs| && procs[p].pc.Waiting?
      requires CanMove(procs, p)
      modifies this
      ensures w == -1 ==> Enabled(old(procs), Move(p)) && procs == Apply(numforks, old(procs), Move(p))
      ensures w != -1 ==> w >= 0 && Enabled(old(procs), Reap(p, w)) && procs == Apply(numforks, old(procs), Reap(p, w))
    {
      w := 0;
      while w < |procs|
        invariant 0 <= w <= |procs| && procs == old(procs)
        invariant forall c :: 0 <= c < w ==> !(IsChild(procs, p, c) && procs[c].pc.Exited?)
      {
        if IsChild(procs, p, w) && procs[w].pc.Exited? {
          procs := procs[w := procs[w].(pc := Reaped)];
          procs := procs[p := procs[p].(pc := Returning)];
          return;
        }
        w := w + 1;
      }
      w := -1;
      procs := procs[p := procs[p].(pc := Returning)];
    }

    /** The end of the fork loop, one thread started or joined, or the exit of process p. */
    method Advance(p: nat)
      requires Enabled(procs, Move(p)) && !procs[p].pc.Waiting?
      requires procs[p].pc.Forking? ==> procs[p].pc.made >= numforks
      modifies this
      ensures procs == Apply(numforks, old(procs), Move(p))
    {
      match procs[p].pc {
        case Forking(_) => procs := procs[p := procs[p].(pc := Waiting)];
        case Spawning(i) =>
          var q := procs[p];
          if i < (if numforks > MAXTHREADS then MAXTHREADS else numforks) {
            q := q.(pc := Spawning(i + 1), started := q.started + 1);
          } else {
            q := q.(pc := Joining(0));
          }
          procs := procs[p := q];
        case Joining(i) =>
          var q := procs[p];
          if i < (if numforks > MAXTHREADS then MAXTHREADS else numforks) {
            q := q.(pc := Joining(i + 1), joined := q.joined + 1);
          } else {
            q := q.(pc := Returning);
          }
          procs := procs[p := q];
        case Returning => procs := procs[p := procs[p].(pc := Exited)];
      }
    }

    /** One step of a process that the scheduler picks among those that can move. */
    method Schedule() returns (ghost a: Action)
      requires Inv(numforks, procs) && !Finished(procs)
      modifies this
      ensures Enabled(old(procs), a) && procs == Apply(numforks, old(procs), a)
    {
      SomeoneCanMove(numforks, procs);
      var p: nat :| p < |procs| && CanMove(procs, p);
      assert Fits(numforks, procs[p]);
      a := Move(p);
      if ForksNext(numforks, procs[p].pc) {
        var cpid := Fork(p);
      } else if procs[p].pc.Waiting? {
        var w := WaitPid(p);
        if w != -1 { a := Reap(p, w); }
      } else {
        Advance(p);
      }
    }

    /** Runs the whole tree to its end. */
    method RunTree(ghost numlevels: nat)
      requires procs == Start(numlevels)
      modifies this
      ensures Finished(procs)
      ensures forall kind: Kind | !kind.Steps? :: Count(numforks, procs, kind) == Total(numforks, numlevels, kind)
    {
      forall kind ensures Sum(procs, Weight(numforks, kind)) == Total(numforks, numlevels, kind) {
        StartWeight(numforks, 0, numlevels, kind);
      }
      while !Finished(procs)
        invariant Inv(numforks, procs)
        invariant forall kind: Kind | !kind.Steps? ::
          Sum(procs, Weight(numforks, kind)) == Total(numforks, numlevels, kind)
        decreases Sum(procs, Weight(numforks, Steps))
      {
        ghost var s := procs;
        ghost var a := Schedule();
        forall kind { StepConserves(numforks, s, a, kind); }
        StepKeepsInv(numforks, s, a);
      }
      forall kind: Kind | !kind.Steps? ensures Count(numforks, procs, kind) == Total(numforks, numlevels, kind) {
        NothingPending(numforks, procs, kind);
      }
    }
  }
}
