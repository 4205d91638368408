/**
 * multiforkexec.c: a loop that forks, has the child exec a command, and waits for that child before
 * going round again. A child whose exec fails, or that has no command, falls through into the loop
 * and goes on forking itself.
 */
module MultiForkExec {
  import opened Basics
  import opened Runs
  import opened Sums

  datatype Pc =
    | Loop                 // about to test forkno < numforks
    | Exec                 // child, about to exec
    | Running              // child whose exec succeeded
    | Waiting(child: nat)  // parent in waitpid(cpid)
    | Exited
    | Reaped

  datatype Proc = Proc(parent: nat, forkno: nat, pc: Pc)

  type State = seq<Proc>

  /** Whether exec can succeed and whether it can fail; with no command given it always fails. */
  datatype Execs = Execs(maySucceed: bool, mayFail: bool)

  /** `execed` says how exec turns out, in the step of a process that is about to exec. */
  datatype Action = Action(p: nat, execed: bool)

  function Start(): State { [Proc(0, 0, Loop)] }

  predicate Enabled(e: Execs, s: State, a: Action) {
    a.p < |s| &&
    match s[a.p].pc
    case Loop => true
    case Exec => if a.execed then e.maySucceed else e.mayFail
    case Running => true
    case Waiting(c) => c < |s| && c != a.p && s[c].pc.Exited?
    case Exited => false
    case Reaped => false
  }

  function Apply(numforks: int, e: Execs, s: State, a: Action): (t: State)
    requires Enabled(e, s, a)
    ensures |s| <= |t| <= |s| + 1
  {
    var p := a.p;
    var q := s[p];
    match q.pc
    case Loop =>
      if q.forkno < numforks
      then s[p := q.(pc := Waiting(|s|))] + [Proc(p, q.forkno, Exec)]
      else s[p := q.(pc := Exited)]
    case Exec => s[p := if a.execed then q.(pc := Running) else q.(pc := Loop, forkno := q.forkno + 1)]
    case Running => s[p := q.(pc := Exited)]
    case Waiting(c) => s[c := s[c].(pc := Reaped)][p := q.(pc := Loop, forkno := q.forkno + 1)]
  }

  ghost function Step(numforks: int, e: Execs): (State, State) -> bool {
    (s, t) => exists a :: Enabled(e, s, a) && t == Apply(numforks, e, s, a)
  }

  // ----- the shape of the table

  predicate Waits(s: State, p: nat, c: nat) { p < |s| && s[p].pc == Waiting(c) }

  predicate Fits(numforks: int, s: State, p: nat)
    requires p < |s|
  {
    var q := s[p];
    && q.forkno <= Passes(numforks)
    && (q.pc.Waiting? || q.pc.Exec? ==> q.forkno < Passes(numforks))
    && (q.pc.Waiting? ==> p < q.pc.child < |s| && s[q.pc.child].parent == p && !s[q.pc.child].pc.Reaped?)
    && (p > 0 && !q.pc.Reaped? ==> q.parent < p && Waits(s, q.parent, p))
  }

  /** A process that is neither blocked in its wait nor gone for good. */
  predicate IsActive(pc: Pc) { !pc.Waiting? && !pc.Reaped? }

  function Active(): Proc -> nat { (p: Proc) => One(IsActive(p.pc)) }

  ghost predicate Inv(numforks: int, s: State) {
    && |s| > 0 && !s[0].pc.Reaped?
    && (forall p :: 0 <= p < |s| ==> Fits(numforks, s, p))
    && Sum(s, Active()) == 1
  }

  lemma ForkKeepsFits(numforks: int, e: Execs, s: State, a: Action)
    requires Inv(numforks, s) && Enabled(e, s, a) && s[a.p].pc.Loop? && s[a.p].forkno < numforks
    ensures var t := Apply(numforks, e, s, a);
            forall q :: 0 <= q < |t| ==> Fits(numforks, t, q)
  {
    var t := Apply(numforks, e, s, a);
    forall q | 0 <= q < |t| ensures Fits(numforks, t, q) {
      if q < |s| { assert Fits(numforks, s, q); }
    }
  }

  lemma ReapKeepsFits(numforks: int, e: Execs, s: State, a: Action)
    requires Inv(numforks, s) && Enabled(e, s, a) && s[a.p].pc.Waiting?
    ensures var t := Apply(numforks, e, s, a);
            forall q :: 0 <= q < |t| ==> Fits(numforks, t, q)
  {
    var t := Apply(numforks, e, s, a);
    assert Fits(numforks, s, a.p);
    forall q | 0 <= q < |t| ensures Fits(numforks, t, q) {
      assert Fits(numforks, s, q);
      if s[q].pc.Waiting? && q != a.p { assert Fits(numforks, s, s[q].pc.child); }
    }
  }

  lemma LocalKeepsFits(numforks: int, s: State, p: nat, q: Proc)
    requires Inv(numforks, s) && p < |s| && IsActive(s[p].pc) && IsActive(q.pc)
    requires q.parent == s[p].parent && q.forkno <= Passes(numforks) && (q.pc.Exec? ==> q.forkno < Passes(numforks))
    ensures var t := s[p := q];
            forall r :: 0 <= r < |t| ==> Fits(numforks, t, r)
  {
    var t := s[p := q];
    forall r | 0 <= r < |t| ensures Fits(numforks, t, r) { assert Fits(numforks, s, r); }
  }

  lemma StepKeepsFits(numforks: int, e: Execs, s: State, a: Action)
    requires Inv(numforks, s) && Enabled(e, s, a)
    ensures var t := Apply(numforks, e, s, a);
            |t| > 0 && !t[0].pc.Reaped? && forall q :: 0 <= q < |t| ==> Fits(numforks, t, q)
  {
    var p := a.p;
    assert Fits(numforks, s, p);
    if s[p].pc.Loop? && s[p].forkno < numforks {
      ForkKeepsFits(numforks, e, s, a);
    } else if s[p].pc.Waiting? {
      ReapKeepsFits(numforks, e, s, a);
    } else {
      LocalKeepsFits(numforks, s, p, Apply(numforks, e, s, a)[p]);
    }
  }

  // ----- counting

  function Pow2(n: nat): nat { if n == 0 then 1 else 2 * Pow2(n - 1) }

  /** Passes of the loop left for a process that has done k of them. */
  function Left(numforks: int, k: nat): nat { if k <= Passes(numforks) then Passes(numforks) - k else 0 }

  /** Steps left at most, with r passes left. */
  function Work(r: nat): nat { if r == 0 then 1 else 3 + 2 * Work(r - 1) }

  /** The most, the least: processes a process still stands for, itself included; and steps left. */
  datatype Kind = Most | Least | Steps

  function Share(kind: Kind, r: nat): nat {
    match kind
    case Most => Pow2(r)
    case Least => 1 + r
    case Steps => Work(r)
  }

  function Weigh(numforks: int, kind: Kind, p: Proc): nat {
    match p.pc
    case Loop => Share(kind, Left(numforks, p.forkno))
    case Exec =>
      (match kind case Least => 1 case _ => Share(kind, Left(numforks, p.forkno + 1)) + One(kind.Steps?))
    case Running => 1
    case Waiting(_) => Share(kind, Left(numforks, p.forkno + 1)) + One(kind.Steps?)
    case _ => One(!kind.Steps?)
  }

  function Weight(numforks: int, kind: Kind): Proc -> nat { p => Weigh(numforks, kind, p) }

  lemma {:induction false} ShareAtLeastOne(kind: Kind, r: nat)
    ensures Share(kind, r) >= 1
  {
    if r > 0 { ShareAtLeastOne(kind, r - 1); }
  }

  /** One pass splits a share into the parent's and the child's. */
  lemma SharePass(numforks: int, k: nat, kind: Kind)
    requires k < Passes(numforks)
    ensures var below := Share(kind, Left(numforks, k + 1));
            Share(kind, Left(numforks, k)) == match kind
              case Most => below + below
              case Least => below + 1
              case Steps => below + below + 3
  {
    assert Left(numforks, k) == Left(numforks, k + 1) + 1;
  }

  // How each kind of step changes the weights of the one or two processes it concerns.

  lemma ForkWeights(numforks: int, q: Proc, c: nat, p: nat, kind: Kind)
    requires q.pc.Loop? && q.forkno < Passes(numforks)
    ensures Weigh(numforks, kind, q.(pc := Waiting(c))) + Weigh(numforks, kind, Proc(p, q.forkno, Exec)) + One(kind.Steps?)
         == Weigh(numforks, kind, q)
  {
    SharePass(numforks, q.forkno, kind);
  }

  lemma ReapWeights(numforks: int, q: Proc, c: Proc, kind: Kind)
    requires q.pc.Waiting? && c.pc.Exited?
    ensures Weigh(numforks, kind, q.(pc := Loop, forkno := q.forkno + 1)) + Weigh(numforks, kind, c.(pc := Reaped))
          + One(kind.Steps?)
         == Weigh(numforks, kind, q) + Weigh(numforks, kind, c)
  {}

  lemma EndWeights(numforks: int, q: Proc, kind: Kind)
    requires q.pc.Running? || (q.pc.Loop? && q.forkno == Passes(numforks))
    ensures Weigh(numforks, kind, q.(pc := Exited)) + One(kind.Steps?) == Weigh(numforks, kind, q)
  {}

  lemma ExecWeights(numforks: int, q: Proc, kind: Kind)
    requires q.pc.Exec? && q.forkno < Passes(numforks)
    ensures var failed := Weigh(numforks, kind, q.(pc := Loop, forkno := q.forkno + 1));
            var execed := Weigh(numforks, kind, q.(pc := Running));
            var before := Weigh(numforks, kind, q);
            match kind
            case Most => failed == before && execed <= before
            case Least => failed >= before && execed == before
            case Steps => failed < before && execed < before
  {
    ShareAtLeastOne(kind, Left(numforks, q.forkno + 1));
  }

  // The effect of each kind of step on a sum over the table.

  lemma {:induction false} ForkSum(numforks: int, e: Execs, s: State, a: Action, w: Proc -> nat)
    requires Inv(numforks, s) && Enabled(e, s, a) && s[a.p].pc.Loop? && s[a.p].forkno < numforks
    ensures Sum(Apply(numforks, e, s, a), w) + w(s[a.p])
         == Sum(s, w) + w(s[a.p].(pc := Waiting(|s|))) + w(Proc(a.p, s[a.p].forkno, Exec))
  {
    var q := s[a.p].(pc := Waiting(|s|));
    SumUpdate(s, a.p, q, w);
    SumAppend(s[a.p := q], Proc(a.p, s[a.p].forkno, Exec), w);
  }

  lemma ReapSum(numforks: int, e: Execs, s: State, a: Action, w: Proc -> nat)
    requires Inv(numforks, s) && Enabled(e, s, a) && s[a.p].pc.Waiting?
    ensures var c, q := s[s[a.p].pc.child], s[a.p];
            Sum(Apply(numforks, e, s, a), w) + w(q) + w(c)
            == Sum(s, w) + w(q.(pc := Loop, forkno := q.forkno + 1)) + w(c.(pc := Reaped))
  {
    var k, q := s[a.p].pc.child, s[a.p];
    SumUpdate(s, k, s[k].(pc := Reaped), w);
    SumUpdate(s[k := s[k].(pc := Reaped)], a.p, q.(pc := Loop, forkno := q.forkno + 1), w);
  }

  lemma StepKeepsInv(numforks: int, e: Execs, s: State, a: Action)
    requires Inv(numforks, s) && Enabled(e, s, a)
    ensures Inv(numforks, Apply(numforks, e, s, a))
  {
    StepKeepsFits(numforks, e, s, a);
    if s[a.p].pc.Loop? && s[a.p].forkno < numforks {
      ForkSum(numforks, e, s, a, Active());
    } else if s[a.p].pc.Waiting? {
      ReapSum(numforks, e, s, a, Active());
    } else {
      SumUpdate(s, a.p, Apply(numforks, e, s, a)[a.p], Active());
    }
  }

  /** What a step does to the weight of the whole table. */
  lemma StepWeighs(numforks: int, e: Execs, s: State, a: Action, kind: Kind)
    requires Inv(numforks, s) && Enabled(e, s, a)
    ensures var before := Sum(s, Weight(numforks, kind));
            var after := Sum(Apply(numforks, e, s, a), Weight(numforks, kind));
            match kind
            case Most => after <= before && (!e.maySucceed ==> after == before)
            case Least => after >= before && (!e.mayFail ==> after == before)
            case Steps => after < before
  {
    var q, w := s[a.p], Weight(numforks, kind);
    assert Fits(numforks, s, a.p);
    match q.pc
    case Loop =>
      if q.forkno < numforks {
        ForkSum(numforks, e, s, a, w);
        ForkWeights(numforks, q, |s|, a.p, kind);
      } else {
        SumUpdate(s, a.p, q.(pc := Exited), w);
        EndWeights(numforks, q, kind);
      }
    case Waiting(c) =>
      ReapSum(numforks, e, s, a, w);
      ReapWeights(numforks, q, s[c], kind);
    case Running =>
      SumUpdate(s, a.p, q.(pc := Exited), w);
      EndWeights(numforks, q, kind);
    case Exec =>
      SumUpdate(s, a.p, Apply(numforks, e, s, a)[a.p], w);
      ExecWeights(numforks, q, kind);
  }

  // ----- every run

  ghost predicate RunOf(numforks: int, e: Execs, run: seq<State>) {
    IsRun(Step(numforks, e), run) && run[0] == Start()
  }

  predicate Finished(s: State) { |s| > 0 && s[0].pc.Exited? }

  ghost predicate Stuck(e: Execs, s: State) { forall a :: !Enabled(e, s, a) }

  lemma StartInv(numforks: int)
    ensures Inv(numforks, Start())
    ensures forall kind :: Sum(Start(), Weight(numforks, kind)) == Share(kind, Passes(numforks))
  {
    forall w: Proc -> nat ensures Sum(Start(), w) == w(Proc(0, 0, Loop)) {
      SumAppend([], Proc(0, 0, Loop), w);
      assert [] + [Proc(0, 0, Loop)] == Start();
    }
    assert Sum(Start(), Active()) == 1;
    forall kind ensures Sum(Start(), Weight(numforks, kind)) == Share(kind, Passes(numforks)) {
      assert Sum(Start(), Weight(numforks, kind)) == Weight(numforks, kind)(Proc(0, 0, Loop));
    }
  }

  lemma {:induction false} OnRun(numforks: int, e: Execs, run: seq<State>, i: nat)
    requires RunOf(numforks, e, run) && i < |run|
    ensures Inv(numforks, run[i])
    ensures Sum(run[i], Weight(numforks, Steps)) + i <= Work(Passes(numforks))
    ensures Sum(run[i], Weight(numforks, Most)) <= Pow2(Passes(numforks))
    ensures Sum(run[i], Weight(numforks, Least)) >= 1 + Passes(numforks)
    ensures !e.maySucceed ==> Sum(run[i], Weight(numforks, Most)) == Pow2(Passes(numforks))
    ensures !e.mayFail ==> Sum(run[i], Weight(numforks, Least)) == 1 + Passes(numforks)
  {
    if i == 0 {
      StartInv(numforks);
      assert forall kind :: Sum(run[0], Weight(numforks, kind)) == Share(kind, Passes(numforks));
    } else {
      OnRun(numforks, e, run, i - 1);
      assert Step(numforks, e)(run[i - 1], run[i]);
      var a :| Enabled(e, run[i - 1], a) && run[i] == Apply(numforks, e, run[i - 1], a);
      StepKeepsInv(numforks, e, run[i - 1], a);
      StepWeighs(numforks, e, run[i - 1], a, Steps);
      StepWeighs(numforks, e, run[i - 1], a, Most);
      StepWeighs(numforks, e, run[i - 1], a, Least);
    }
  }

  /** In every state of every run exactly one process is not blocked in its wait or reaped. */
  lemma OneAtATime(numforks: int, e: Execs, run: seq<State>, i: nat)
    requires RunOf(numforks, e, run) && i < |run|
    ensures exists p :: 0 <= p < |run[i]| && IsActive(run[i][p].pc)
                        && forall q :: 0 <= q < |run[i]| && IsActive(run[i][q].pc) ==> q == p
  {
    OnRun(numforks, e, run, i);
    var s := run[i];
    var p := SumWitness(s, Active());
    forall q | 0 <= q < |s| && IsActive(s[q].pc) ensures q == p {
      if q < p { SumAtLeastTwo(s, q, p, Active()); }
      if p < q { SumAtLeastTwo(s, p, q, Active()); }
    }
  }

  /** From a blocked process the chain of waits leads to an active process further on. */
  lemma {:induction false} ChainEnds(numforks: int, s: State, p: nat) returns (q: nat)
    requires Inv(numforks, s) && p < |s| && !s[p].pc.Reaped?
    ensures p <= q < |s| && IsActive(s[q].pc) && (s[p].pc.Waiting? ==> p < q)
    decreases |s| - p
  {
    assert Fits(numforks, s, p);
    if s[p].pc.Waiting? { q := ChainEnds(numforks, s, s[p].pc.child); } else { q := p; }
  }

  /** Every forked process has been reaped, which only its own parent can do. */
  predicate AllReaped(s: State) { forall p | 0 < p < |s| :: s[p].pc.Reaped? }

  lemma FinishedMeansReaped(numforks: int, s: State)
    requires Inv(numforks, s) && Finished(s)
    ensures AllReaped(s)
  {
    forall p | 0 < p < |s| ensures s[p].pc.Reaped? {
      if !s[p].pc.Reaped? {
        var q := ChainEnds(numforks, s, p);
        SumAtLeastTwo(s, 0, q, Active());
      }
    }
  }

  lemma StuckMeansFinished(numforks: int, e: Execs, s: State)
    requires Inv(numforks, s) && (e.maySucceed || e.mayFail)
    ensures Stuck(e, s) <==> Finished(s)
  {
    if Finished(s) {
      FinishedMeansReaped(numforks, s);
      forall a ensures !Enabled(e, s, a) {}
    } else {
      var p := SumWitness(s, Active());
      assert Fits(numforks, s, p);
      if s[p].pc.Exited? {
        assert Enabled(e, s, Action(s[p].parent, false));
      } else {
        assert Enabled(e, s, Action(p, e.maySucceed));
      }
    }
  }

  lemma FinishedSums(numforks: int, s: State, kind: Kind)
    requires Inv(numforks, s) && Finished(s) && !kind.Steps?
    ensures Sum(s, Weight(numforks, kind)) == |s|
  {
    FinishedMeansReaped(numforks, s);
    SumOnes(s, Weight(numforks, kind));
  }

  /**
   * Every run ends; one that can go no further has every forked process reaped by its own parent and
   * between numforks + 1 and 2^numforks processes in all: 2^numforks if exec always fails or there is
   * no command, numforks + 1 if it always succeeds.
   */
  lemma EveryRunCompletes(numforks: int, e: Execs, run: seq<State>)
    requires (e.maySucceed || e.mayFail) && RunOf(numforks, e, run)
    ensures |run| <= 1 + Work(Passes(numforks))
    ensures Stuck(e, run[|run| - 1]) <==> Finished(run[|run| - 1])
    ensures Finished(run[|run| - 1]) ==>
      && AllReaped(run[|run| - 1])
      && Passes(numforks) + 1 <= |run[|run| - 1]| <= Pow2(Passes(numforks))
      && (!e.maySucceed ==> |run[|run| - 1]| == Pow2(Passes(numforks)))
      && (!e.mayFail ==> |run[|run| - 1]| == Passes(numforks) + 1)
  {
    var last := run[|run| - 1];
    OnRun(numforks, e, run, |run| - 1);
    StuckMeansFinished(numforks, e, last);
    if Finished(last) {
      FinishedMeansReaped(numforks, last);
      FinishedSums(numforks, last, Most);
      FinishedSums(numforks, last, Least);
    }
  }

  // ----- the loop itself

  /**
   * The loop of one process from pass `first` on. As a parent waits for its child before going on, the
   * child's share of the work runs to its end between the fork and the end of the wait. `forked`
   * counts the processes forked by this one and by the children that fall through.
   */
  method LoopFrom(numforks: int, first: nat, e: Execs) returns (forked: nat)
    requires first <= Passes(numforks) && (e.maySucceed || e.mayFail)
    ensures Passes(numforks) - first <= forked < Pow2(Passes(numforks) - first)
    ensures !e.maySucceed ==> forked == Pow2(Passes(numforks) - first) - 1
    ensures !e.mayFail ==> forked == Passes(numforks) - first
    decreases Passes(numforks) - first
  {
    var forkno := first;
    forked := 0;
    while forkno < numforks
      invariant first <= forkno <= Passes(numforks)
      invariant forked >= forkno - first && forked + Pow2(Passes(numforks) - forkno) <= Pow2(Passes(numforks) - first)
      invariant !e.maySucceed ==> forked + Pow2(Passes(numforks) - forkno) == Pow2(Passes(numforks) - first)
      invariant !e.mayFail ==> forked == forkno - first
    {
      var luck: bool := *;
      var execed := !e.mayFail || (e.maySucceed && luck);
      forked := forked + 1;
      if !execed {
        var below := LoopFrom(numforks, forkno + 1, e);
        forked := forked + below;
      }
      assert Passes(numforks) - (forkno + 1) == Passes(numforks) - forkno - 1;
      assert Pow2(Passes(numforks) - forkno - 1) >= 1 by { ShareAtLeastOne(Most, Passes(numforks) - forkno - 1); }
      forkno := forkno + 1;
    }
  }
}
