/**
 * processesgalore.c: main creates threads and joins them in order; each thread forks two children more
 * than its index, keeps only the last child's pid, and waits for that one. Threads and children run in
 * any order.
 */
module ProcessesGalore {
  import opened Basics
  import opened Runs
  import opened Sums

  datatype ThreadPc =
    | Forking(made: nat, cpid: nat)   // cpid: the child forked last
    | Waiting(cpid: nat)
    | Exited(value: nat)

  datatype Thread = Thread(id: nat, pc: ThreadPc)

  datatype KidPc = Running | Zombie | Reaped

  datatype Kid = Kid(owner: nat, no: nat, pc: KidPc)

  datatype State = State(threads: seq<Thread>, kids: seq<Kid>, joined: seq<nat>)

  datatype Action = Create | Move(t: nat) | KidExits(k: nat) | Join

  function Start(): State { State([], [], []) }

  function ForksOf(id: nat): nat { id + 2 }

  /** waitpid(cpid) returns once that child has ended; pthread_join once that thread has. */
  predicate Enabled(total: nat, s: State, a: Action) {
    match a
    case Create => |s.threads| < total
    case Move(t) => t < |s.threads| && (
      match s.threads[t].pc
      case Forking(_, _) => true
      case Waiting(c) => c < |s.kids| && s.kids[c].pc.Zombie?
      case Exited(_) => false)
    case KidExits(k) => k < |s.kids| && s.kids[k].pc.Running?
    case Join =>
      |s.threads| == total && |s.joined| < total && s.threads[|s.joined|].pc.Exited?
  }

  function Apply(total: nat, s: State, a: Action): State
    requires Enabled(total, s, a)
  {
    match a
    case Create => s.(threads := s.threads + [Thread(|s.threads|, Forking(0, 0))])
    case Move(t) => (
      var th := s.threads[t];
      match th.pc
      case Forking(made, cpid) =>
        if made < ForksOf(th.id)
        then s.(threads := s.threads[t := th.(pc := Forking(made + 1, |s.kids|))],
                kids := s.kids + [Kid(t, made, Running)])
        else s.(threads := s.threads[t := th.(pc := Waiting(cpid))])
      case Waiting(c) =>
        s.(threads := s.threads[t := th.(pc := Exited(th.id))], kids := s.kids[c := s.kids[c].(pc := Reaped)]))
    case KidExits(k) => s.(kids := s.kids[k := s.kids[k].(pc := Zombie)])
    case Join => s.(joined := s.joined + [s.threads[|s.joined|].pc.value])
  }

  ghost function Step(total: nat): (State, State) -> bool {
    (s: State, t: State) => exists a :: Enabled(total, s, a) && t == Apply(total, s, a)
  }

  // ----- the invariant

  function Made(): Thread -> nat {
    (th: Thread) => match th.pc case Forking(made, _) => made case _ => th.id + 2
  }

  function ThreadDone(): Thread -> nat { (th: Thread) => if th.pc.Exited? then 1 else 0 }

  function KidReaped(): Kid -> nat { (k: Kid) => if k.pc.Reaped? then 1 else 0 }

  predicate LastKid(s: State, t: nat, c: nat, no: int) {
    c < |s.kids| && s.kids[c].owner == t && s.kids[c].no == no && !s.kids[c].pc.Reaped?
  }

  predicate ThreadFits(s: State, t: nat)
    requires t < |s.threads|
  {
    s.threads[t].id == t &&
    match s.threads[t].pc
    case Forking(made, cpid) => made <= ForksOf(t) && (made > 0 ==> LastKid(s, t, cpid, made - 1))
    case Waiting(cpid) => LastKid(s, t, cpid, t + 1)
    case Exited(value) => value == t
  }

  ghost predicate Inv(total: nat, s: State) {
    && |s.joined| <= |s.threads| <= total
    && (forall t :: 0 <= t < |s.threads| ==> ThreadFits(s, t))
    && (forall k :: 0 <= k < |s.kids| && s.kids[k].pc.Reaped? ==> s.kids[k].no == s.kids[k].owner + 1)
    && (forall i :: 0 <= i < |s.joined| ==> s.joined[i] == i)
    && |s.kids| == Sum(s.threads, Made())
    && Sum(s.kids, KidReaped()) == Sum(s.threads, ThreadDone())
  }

  lemma ForkKeepsFits(total: nat, s: State, t: nat)
    requires Inv(total, s) && t < |s.threads| && s.threads[t].pc.Forking?
    ensures var u := Apply(total, s, Move(t));
            forall q :: 0 <= q < |u.threads| ==> ThreadFits(u, q)
  {
    var u := Apply(total, s, Move(t));
    assert ThreadFits(s, t);
    forall q | 0 <= q < |u.threads| ensures ThreadFits(u, q) { assert ThreadFits(s, q); }
  }

  lemma ForkSums(total: nat, s: State, t: nat)
    requires Inv(total, s) && t < |s.threads| && s.threads[t].pc.Forking?
    ensures var u := Apply(total, s, Move(t));
            && |u.kids| == Sum(u.threads, Made())
            && Sum(u.kids, KidReaped()) == Sum(u.threads, ThreadDone())
  {
    var u := Apply(total, s, Move(t));
    assert ThreadFits(s, t);
    SumUpdate(s.threads, t, u.threads[t], Made());
    SumUpdate(s.threads, t, u.threads[t], ThreadDone());
    if |u.kids| > |s.kids| { SumAppend(s.kids, u.kids[|s.kids|], KidReaped()); }
  }

  lemma ForkKeepsInv(total: nat, s: State, t: nat)
    requires Inv(total, s) && t < |s.threads| && s.threads[t].pc.Forking?
    ensures Inv(total, Apply(total, s, Move(t)))
  {
    ForkKeepsFits(total, s, t);
    ForkSums(total, s, t);
  }

  lemma ReapKeepsInv(total: nat, s: State, t: nat)
    requires Inv(total, s) && t < |s.threads| && s.threads[t].pc.Waiting? && Enabled(total, s, Move(t))
    ensures Inv(total, Apply(total, s, Move(t)))
  {
    var u := Apply(total, s, Move(t));
    var c := s.threads[t].pc.cpid;
    assert ThreadFits(s, t);
    SumUpdate(s.threads, t, u.threads[t], Made());
    SumUpdate(s.threads, t, u.threads[t], ThreadDone());
    SumUpdate(s.kids, c, u.kids[c], KidReaped());
    forall q | 0 <= q < |u.threads| ensures ThreadFits(u, q) { assert ThreadFits(s, q); }
  }

  lemma CreateKeepsInv(total: nat, s: State)
    requires Inv(total, s) && Enabled(total, s, Create)
    ensures Inv(total, Apply(total, s, Create))
  {
    var u := Apply(total, s, Create);
    SumAppend(s.threads, u.threads[|s.threads|], Made());
    SumAppend(s.threads, u.threads[|s.threads|], ThreadDone());
    forall q | 0 <= q < |u.threads| ensures ThreadFits(u, q) {
      if q < |s.threads| { assert ThreadFits(s, q); }
    }
  }

  lemma KidKeepsInv(total: nat, s: State, k: nat)
    requires Inv(total, s) && Enabled(total, s, KidExits(k))
    ensures Inv(total, Apply(total, s, KidExits(k)))
  {
    var u := Apply(total, s, KidExits(k));
    SumUpdate(s.kids, k, u.kids[k], KidReaped());
    forall q | 0 <= q < |u.threads| ensures ThreadFits(u, q) { assert ThreadFits(s, q); }
  }

  lemma StepKeepsInv(total: nat, s: State, a: Action)
    requires Inv(total, s) && Enabled(total, s, a)
    ensures Inv(total, Apply(total, s, a))
  {
    match a
    case Create => CreateKeepsInv(total, s);
    case Move(t) =>
      if s.threads[t].pc.Forking? { ForkKeepsInv(total, s, t); } else { ReapKeepsInv(total, s, t); }
    case KidExits(k) => KidKeepsInv(total, s, k);
    case Join =>
      assert ThreadFits(s, |s.joined|);
      forall q | 0 <= q < |s.threads| ensures ThreadFits(Apply(total, s, a), q) { assert ThreadFits(s, q); }
  }

  // ----- every run

  /** Steps a thread still has to take: forks, with an exit for each child, the end of the loop, and the wait. */
  function ThreadWork(): Thread -> nat {
    (th: Thread) => match th.pc
      case Forking(made, _) => (if made <= th.id + 2 then 2 * (th.id + 2 - made) else 0) + 2
      case Waiting(_) => 1
      case Exited(_) => 0
  }

  function KidWork(): Kid -> nat { (k: Kid) => if k.pc.Running? then 1 else 0 }

  /** Steps of the threads yet to be created, creation and join included. */
  function Uncreated(total: nat, n: nat): nat
    decreases total - n
  {
    if n >= total then 0 else 2 * (n + 2) + 3 + Uncreated(total, n + 1)
  }

  function Work(total: nat, s: State): nat {
    Uncreated(total, |s.threads|) + Sum(s.threads, ThreadWork()) + Sum(s.kids, KidWork())
    + (if |s.joined| <= total then total - |s.joined| else 0)
  }

  lemma ForkLowersWork(total: nat, s: State, t: nat)
    requires Inv(total, s) && t < |s.threads| && s.threads[t].pc.Forking?
    ensures Work(total, Apply(total, s, Move(t))) + 1 == Work(total, s)
  {
    var u := Apply(total, s, Move(t));
    assert ThreadFits(s, t);
    SumUpdate(s.threads, t, u.threads[t], ThreadWork());
    if |u.kids| > |s.kids| { SumAppend(s.kids, u.kids[|s.kids|], KidWork()); }
  }

  lemma WaitLowersWork(total: nat, s: State, t: nat)
    requires Inv(total, s) && t < |s.threads| && s.threads[t].pc.Waiting? && Enabled(total, s, Move(t))
    ensures Work(total, Apply(total, s, Move(t))) + 1 == Work(total, s)
  {
    var u, c := Apply(total, s, Move(t)), s.threads[t].pc.cpid;
    SumUpdate(s.threads, t, u.threads[t], ThreadWork());
    SumUpdate(s.kids, c, u.kids[c], KidWork());
  }

  lemma CreateLowersWork(total: nat, s: State)
    requires Inv(total, s) && Enabled(total, s, Create)
    ensures Work(total, Apply(total, s, Create)) + 1 == Work(total, s)
  {
    SumAppend(s.threads, Thread(|s.threads|, Forking(0, 0)), ThreadWork());
  }

  lemma StepLowersWork(total: nat, s: State, a: Action)
    requires Inv(total, s) && Enabled(total, s, a)
    ensures Work(total, Apply(total, s, a)) + 1 == Work(total, s)
  {
    match a
    case Create => CreateLowersWork(total, s);
    case Move(t) =>
      if s.threads[t].pc.Forking? { ForkLowersWork(total, s, t); } else { WaitLowersWork(total, s, t); }
    case KidExits(k) => SumUpdate(s.kids, k, s.kids[k].(pc := Zombie), KidWork());
    case Join =>
  }

  ghost predicate Stuck(total: nat, s: State) { forall a :: !Enabled(total, s, a) }

  /** Every thread joined and every child ended. */
  predicate Finished(total: nat, s: State) {
    && |s.joined| == |s.threads| == total
    && (forall t | 0 <= t < |s.threads| :: s.threads[t].pc.Exited?)
    && (forall k | 0 <= k < |s.kids| :: !s.kids[k].pc.Running?)
  }

  lemma StuckMeansFinished(total: nat, s: State)
    requires Inv(total, s)
    ensures Stuck(total, s) <==> Finished(total, s)
    ensures Stuck(total, s) <==> Work(total, s) == 0
  {
    if Finished(total, s) {
      SumZero(s.threads, ThreadWork());
      SumZero(s.kids, KidWork());
    } else {
      var a := FindEnabled(total, s);
      StepLowersWork(total, s, a);
    }
  }

  lemma FindEnabled(total: nat, s: State) returns (a: Action)
    requires Inv(total, s) && !Finished(total, s)
    ensures Enabled(total, s, a)
  {
    if k :| 0 <= k < |s.kids| && s.kids[k].pc.Running? {
      a := KidExits(k);
    } else if t :| 0 <= t < |s.threads| && !s.threads[t].pc.Exited? {
      assert ThreadFits(s, t);
      a := Move(t);
    } else if |s.threads| < total {
      a := Create;
    } else {
      a := Join;
    }
  }

  ghost predicate RunOf(total: nat, run: seq<State>) { IsRun(Step(total), run) && run[0] == Start() }

  lemma {:induction false} OnRun(total: nat, run: seq<State>, i: nat)
    requires RunOf(total, run) && i < |run|
    ensures Inv(total, run[i]) && Work(total, run[i]) + i == Work(total, Start())
  {
    if i > 0 {
      OnRun(total, run, i - 1);
      assert Step(total)(run[i - 1], run[i]);
      var a :| Enabled(total, run[i - 1], a) && run[i] == Apply(total, run[i - 1], a);
      StepKeepsInv(total, run[i - 1], a);
      StepLowersWork(total, run[i - 1], a);
    }
  }

  lemma {:induction false} MadeInAll(threads: seq<Thread>)
    requires forall t :: 0 <= t < |threads| ==> threads[t].id == t && threads[t].pc.Exited?
    ensures 2 * Sum(threads, Made()) == |threads| * (|threads| + 3)
    ensures Sum(threads, ThreadDone()) == |threads|
  {
    if threads != [] {
      var last := |threads| - 1;
      MadeInAll(threads[..last]);
      assert (last + 1) * (last + 4) == last * (last + 3) + 2 * (last + 2);
    }
  }

  /** The child forked last by thread t has been waited for. */
  ghost predicate LastReaped(s: State, t: nat) {
    exists k :: 0 <= k < |s.kids| && s.kids[k] == Kid(t, t + 1, Reaped)
  }

  ghost predicate ExitedHasReaped(s: State) {
    forall t :: 0 <= t < |s.threads| && s.threads[t].pc.Exited? ==> LastReaped(s, t)
  }

  lemma StepKeepsReaped(total: nat, s: State, a: Action)
    requires Inv(total, s) && ExitedHasReaped(s) && Enabled(total, s, a)
    ensures ExitedHasReaped(Apply(total, s, a))
  {
    var u := Apply(total, s, a);
    assert forall k :: 0 <= k < |s.kids| && s.kids[k].pc.Reaped? ==> u.kids[k] == s.kids[k];
    forall t | 0 <= t < |u.threads| && u.threads[t].pc.Exited? ensures LastReaped(u, t) {
      if t < |s.threads| && s.threads[t].pc.Exited? {
        var k :| 0 <= k < |s.kids| && s.kids[k] == Kid(t, t + 1, Reaped);
        assert u.kids[k] == Kid(t, t + 1, Reaped);
      } else {
        assert a == Move(t) && ThreadFits(s, t);
        assert u.kids[s.threads[t].pc.cpid] == Kid(t, t + 1, Reaped);
      }
    }
  }

  /** In every state of every run a thread that has ended has waited for the child it forked last. */
  lemma {:induction false} EachWaitsForLast(total: nat, run: seq<State>, i: nat, t: nat)
    requires RunOf(total, run) && i < |run| && t < |run[i].threads| && run[i].threads[t].pc.Exited?
    ensures exists k :: 0 <= k < |run[i].kids| && run[i].kids[k] == Kid(t, t + 1, Reaped)
  {
    ReapedOnRun(total, run, i);
    assert LastReaped(run[i], t);
  }

  lemma {:induction false} ReapedOnRun(total: nat, run: seq<State>, i: nat)
    requires RunOf(total, run) && i < |run|
    ensures ExitedHasReaped(run[i])
  {
    if i > 0 {
      ReapedOnRun(total, run, i - 1);
      OnRun(total, run, i - 1);
      assert Step(total)(run[i - 1], run[i]);
      var a :| Enabled(total, run[i - 1], a) && run[i] == Apply(total, run[i - 1], a);
      StepKeepsReaped(total, run[i - 1], a);
    }
  }

  /**
   * Every run with T threads ends, after the same number of steps whatever the schedule; then T(T+3)/2
   * processes have been forked, exactly T of them have been waited for, each the last one of its thread,
   * and the joins have returned 0, 1, ..., T-1.
   */
  lemma EveryRunCompletes(total: nat, run: seq<State>)
    requires RunOf(total, run)
    ensures |run| - 1 <= Work(total, Start())
    ensures Stuck(total, run[|run| - 1]) <==> |run| - 1 == Work(total, Start())
    ensures var last := run[|run| - 1];
            Stuck(total, last) ==>
              && 2 * |last.kids| == total * (total + 3)
              && Sum(last.kids, KidReaped()) == total
              && (forall k :: k in last.kids && k.pc.Reaped? ==> k.no == k.owner + 1)
              && |last.joined| == total && forall i :: 0 <= i < total ==> last.joined[i] == i
  {
    var last := run[|run| - 1];
    OnRun(total, run, |run| - 1);
    StuckMeansFinished(total, last);
    if Stuck(total, last) {
      forall t | 0 <= t < |last.threads| ensures last.threads[t].id == t { assert ThreadFits(last, t); }
      MadeInAll(last.threads);
    }
  }

  // ----- the arrays of main

  /** `threads` and `thread_ids` have their size fixed before the number of threads is read. */
  const ARRAY_SIZE: nat := 5

  /** Whenever main creates a thread, the slots it writes are inside its arrays. */
  ghost predicate StaysInArrays(total: nat) {
    forall s :: Reachable(Step(total), Start(), s) && Enabled(total, s, Create) ==> |s.threads| < ARRAY_SIZE
  }

  lemma {:induction false} CreateUpTo(total: nat, n: nat) returns (s: State)
    requires n <= total
    ensures Reachable(Step(total), Start(), s) && |s.threads| == n
  {
    if n == 0 {
      s := Start();
      ReachableRefl(Step(total), s);
    } else {
      var before := CreateUpTo(total, n - 1);
      s := Apply(total, before, Create);
      assert Step(total)(before, s);
      ReachableStep(Step(total), Start(), before, s);
    }
  }

  /** main stays inside its arrays in every run if and only if it is asked for at most five threads. */
  lemma ArraysLargeEnough(total: nat)
    ensures StaysInArrays(total) <==> total <= 5
  {
    if total > ARRAY_SIZE {
      var s := CreateUpTo(total, ARRAY_SIZE);
      assert Enabled(total, s, Create);
    }
  }

  // ----- main and its threads over mutable state

  class Table {
    const total: nat
    var threads: seq<Thread>
    var kids: seq<Kid>
    var joined: seq<nat>

    function View(): State
      reads this
    {
      State(threads, kids, joined)
    }

    constructor (total: nat)
      ensures this.total == total && View() == Start()
    {
      this.total := total;
      threads, kids, joined := [], [], [];
    }

    /** One pass of do_thread's fork loop, or the step from the loop into the wait. */
    method ForkPass(t: nat)
      requires t < |threads| && threads[t].pc.Forking?
      modifies this
      ensures View() == Apply(total, old(View()), Move(t))
    {
      var th := threads[t];
      if th.pc.made < ForksOf(th.id) {
        kids := kids + [Kid(t, th.pc.made, Running)];
        threads := threads[t := th.(pc := Forking(th.pc.made + 1, |kids| - 1))];
      } else {
        threads := threads[t := th.(pc := Waiting(th.pc.cpid))];
      }
    }

    /** The wait for the last child, and the thread's exit with its own index. */
    method WaitLast(t: nat)
      requires t < |threads| && threads[t].pc.Waiting? && Enabled(total, View(), Move(t))
      modifies this
      ensures View() == Apply(total, old(View()), Move(t))
    {
      var c := threads[t].pc.cpid;
      kids := kids[c := kids[c].(pc := Reaped)];
      threads := threads[t := threads[t].(pc := Exited(threads[t].id))];
    }

    /** pthread_create in main's first loop. */
    method CreateThread()
      requires Enabled(total, View(), Create)
      modifies this
      ensures View() == Apply(total, old(View()), Create)
    {
      threads := threads + [Thread(|threads|, Forking(0, 0))];
    }

    /** A forked process exits. */
    method EndKid(k: nat)
      requires Enabled(total, View(), KidExits(k))
      modifies this
      ensures View() == Apply(total, old(View()), KidExits(k))
    {
      kids := kids[k := kids[k].(pc := Zombie)];
    }

    /** pthread_join in main's second loop. */
    method JoinNext()
      requires Enabled(total, View(), Join)
      modifies this
      ensures View() == Apply(total, old(View()), Join)
    {
      joined := joined + [threads[|joined|].pc.value];
    }

    predicate ThreadReady(t: nat)
      reads this
    {
      t < |threads| && Enabled(total, View(), Move(t))
    }

    predicate KidReady(k: nat)
      reads this
    {
      k < |kids| && kids[k].pc.Running?
    }

    /** One step of main, of a thread or of a forked process, as the scheduler picks. */
    method Schedule()
      requires Inv(total, View()) && !Finished(total, View())
      modifies this
      ensures Inv(total, View()) && Work(total, View()) + 1 == old(Work(total, View()))
    {
      ghost var s := View();
      ghost var a := FindEnabled(total, s);
      assert a.Move? ==> ThreadReady(a.t);
      assert a.KidExits? ==> KidReady(a.k);
      if {
        case |threads| < total =>
          a := Create;
          CreateThread();
        case exists t: nat | t < |threads| :: ThreadReady(t) =>
          var t: nat :| t < |threads| && ThreadReady(t);
          a := Move(t);
          if threads[t].pc.Forking? { ForkPass(t); } else { WaitLast(t); }
        case exists k: nat | k < |kids| :: KidReady(k) =>
          var k: nat :| k < |kids| && KidReady(k);
          a := KidExits(k);
          EndKid(k);
        case |threads| == total && |joined| < total && threads[|joined|].pc.Exited? =>
          a := Join;
          JoinNext();
      }
      assert Enabled(total, s, a) && View() == Apply(total, s, a);
      StepKeepsInv(total, s, a);
      StepLowersWork(total, s, a);
    }

    /** Any schedule of main, its threads and the forked processes runs to the end. */
    method RunAll()
      requires View() == Start()
      modifies this
      ensures Finished(total, View())
      ensures 2 * |kids| == total * (total + 3) && Sum(kids, KidReaped()) == total
      ensures |joined| == total && forall i :: 0 <= i < total ==> joined[i] == i
    {
      while !Finished(total, View())
        invariant Inv(total, View())
        decreases Work(total, View())
      {
        Schedule();
      }
      forall t | 0 <= t < |threads| ensures threads[t].id == t { assert ThreadFits(View(), t); }
      MadeInAll(threads);
    }
  }
}
