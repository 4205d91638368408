/**
 * serialfork.c: a loop that forks a child, waits for it to end, and only then goes on. Parent and child
 * have their own copies of every variable. A step is the loop's test and fork, one store to a variable,
 * one exit, one report of waitpid, or one signal from outside that stops, continues or kills the child.
 */
module SerialFork {
  import opened Basics
  import opened Runs
  import opened Sums

  datatype Cells = Cells(local: int, static_: int, global: int, heap: int)

  const INITIAL := Cells(0x01, 0x11, 0x21, 0x31)
  const BY_CHILD := Cells(0x02, 0x12, 0x22, 0x32)
  const BY_PARENT := Cells(0x03, 0x13, 0x23, 0x33)

  /** The four variables when the first n have been overwritten. */
  function Mixed(n: nat, after: Cells, before: Cells): Cells {
    Cells(if n > 0 then after.local else before.local, if n > 1 then after.static_ else before.static_,
          if n > 2 then after.global else before.global, if n > 3 then after.heap else before.heap)
  }

  /** Overwrites variable n. */
  function Store(cells: Cells, n: nat, from: Cells): Cells {
    match n
    case 0 => cells.(local := from.local)
    case 1 => cells.(static_ := from.static_)
    case 2 => cells.(global := from.global)
    case _ => cells.(heap := from.heap)
  }

  datatype Report = Exited(status: nat) | Signaled(signal: nat) | Stopped(signal: nat) | Continued

  predicate Terminal(r: Report) { r.Exited? || r.Signaled? }

  datatype KidPc =
    | Running(stores: nat)   // after so many of its four stores
    | Zombie(how: Report)
    | Reaped(how: Report)

  /** A forked process: its number, what it started from, and the change of state waitpid has not yet reported. */
  datatype Kid = Kid(no: nat, seen: Cells, cells: Cells, pc: KidPc, stopped: bool, news: Option<Report>)

  datatype MainPc = Loop | Waiting | Storing(stores: nat) | Done

  /** `reports` are the terminal reports in the order they came; `stops` counts the stop signals so far, `kills` lists the fatal ones. */
  datatype State = State(
    cells: Cells, forkno: nat, pc: MainPc,
    kids: seq<Kid>, reports: seq<(nat, Report)>, stops: nat, kills: seq<(nat, nat)>)

  datatype Action =
    | Main
    | Move(k: nat)
    | Kill(k: nat, signal: nat)
    | Stop(k: nat, signal: nat)
    | Continue(k: nat)

  function Start(): State { State(INITIAL, 0, Loop, [], [], 0, []) }

  /** cpid is always the child forked last. */
  function Last(s: State): nat { if |s.kids| > 0 then |s.kids| - 1 else 0 }

  predicate Live(s: State, k: nat) { k < |s.kids| && s.kids[k].pc.Running? }

  /** waitpid blocks while there is nothing to report; a stopped child makes no step of its own. */
  predicate Enabled(s: State, a: Action) {
    match a
    case Main => (
      match s.pc
      case Loop => true
      case Waiting => |s.kids| > 0 && s.kids[Last(s)].news.Some?
      case Storing(n) => true
      case Done => false)
    case Move(k) => Live(s, k) && !s.kids[k].stopped
    case Kill(k, _) => Live(s, k)
    case Stop(k, _) => Live(s, k) && !s.kids[k].stopped
    case Continue(k) => Live(s, k) && s.kids[k].stopped
  }

  /** What an action that concerns the child alone does to it. */
  function KidStep(kid: Kid, a: Action): Kid
    requires kid.pc.Running?
  {
    match a
    case Move(_) =>
      if kid.pc.stores < 4
      then kid.(cells := Store(kid.cells, kid.pc.stores, BY_CHILD), pc := Running(kid.pc.stores + 1))
      else kid.(pc := Zombie(Exited(kid.no % 256)), news := Some(Exited(kid.no % 256)))
    case Kill(_, signal) => kid.(pc := Zombie(Signaled(signal)), news := Some(Signaled(signal)))
    case Stop(_, signal) => kid.(stopped := true, news := Some(Stopped(signal)))
    case Continue(_) => kid.(stopped := false, news := Some(Continued))
    case Main => kid
  }

  /** waitpid takes the news; the do-while loop goes on unless it says that the child has ended. */
  function Collect(s: State): State
    requires |s.kids| > 0 && s.kids[Last(s)].news.Some?
  {
    var kid, r := s.kids[Last(s)], s.kids[Last(s)].news.value;
    if Terminal(r)
    then s.(kids := s.kids[Last(s) := kid.(news := None, pc := Reaped(r))],
            reports := s.reports + [(Last(s), r)], pc := Storing(0))
    else s.(kids := s.kids[Last(s) := kid.(news := None)])
  }

  function MainStep(numforks: int, s: State): State
    requires Enabled(s, Main)
  {
    match s.pc
    case Loop =>
      if s.forkno < numforks
      then s.(kids := s.kids + [Kid(s.forkno, s.cells, s.cells, Running(0), false, None)], pc := Waiting)
      else s.(pc := Done)
    case Waiting => Collect(s)
    case Storing(n) =>
      var stored := s.(cells := Store(s.cells, n, BY_PARENT));
      if n < 3 then stored.(pc := Storing(n + 1)) else stored.(pc := Loop, forkno := s.forkno + 1)
  }

  function Apply(numforks: int, s: State, a: Action): State
    requires Enabled(s, a)
  {
    if a.Main? then MainStep(numforks, s)
    else s.(kids := s.kids[a.k := KidStep(s.kids[a.k], a)], stops := s.stops + One(a.Stop?),
            kills := if a.Kill? then s.kills + [(a.k, a.signal)] else s.kills)
  }

  ghost function Step(numforks: int): (State, State) -> bool {
    (s: State, t: State) => exists a :: Enabled(s, a) && t == Apply(numforks, s, a)
  }

  // ----- the invariant

  /** What the parent's variables hold at the start of pass k, and so what child k starts from. */
  function AtPass(k: nat): Cells { if k == 0 then INITIAL else BY_PARENT }

  predicate KidFits(kid: Kid, k: nat) {
    && kid.no == k && kid.seen == AtPass(k)
    && (match kid.pc
        case Running(n) =>
          && n <= 4 && kid.cells == Mixed(n, BY_CHILD, kid.seen)
          && (kid.news.Some? ==> !Terminal(kid.news.value))
        case Zombie(how) => EndFits(kid, how) && kid.news == Some(how)
        case Reaped(how) => EndFits(kid, how) && kid.news.None?)
  }

  /** How a child can have ended: by exit after all its stores, or by a signal after any number of them. */
  predicate EndFits(kid: Kid, how: Report) {
    && Terminal(how)
    && (how.Exited? ==> how.status == kid.no % 256 && kid.cells == BY_CHILD)
    && exists n: nat | n <= 4 :: kid.cells == Mixed(n, BY_CHILD, kid.seen)
  }

  predicate MainFits(numforks: int, s: State) {
    && s.forkno <= Passes(numforks)
    && |s.kids| == s.forkno + One(s.pc.Waiting? || s.pc.Storing?)
    && |s.reports| == s.forkno + One(s.pc.Storing?)
    && (s.pc.Waiting? || s.pc.Storing? ==> s.forkno < Passes(numforks))
    && (s.pc.Done? ==> s.forkno == Passes(numforks))
    && (if s.pc.Storing? then s.pc.stores < 4 && s.cells == Mixed(s.pc.stores, BY_PARENT, AtPass(s.forkno))
        else s.cells == AtPass(s.forkno))
  }

  /** The children up to the last report have been reaped, each with the report that came for it. */
  predicate ReapedWith(s: State, k: nat)
    requires k < |s.kids| && k < |s.reports|
  {
    s.kids[k].pc.Reaped? && s.reports[k] == (k, s.kids[k].pc.how)
  }

  /** A child was ended by a signal exactly if, and as, it was sent one. */
  ghost predicate KilledBy(s: State, k: nat)
    requires k < |s.kids|
  {
    forall signal: nat :: (k, signal) in s.kills <==> EndOf(s.kids[k].pc) == Some(Signaled(signal))
  }

  function EndOf(pc: KidPc): Option<Report> { if pc.Running? then None else Some(pc.how) }

  ghost predicate Inv(numforks: int, s: State) {
    && MainFits(numforks, s)
    && (forall k :: 0 <= k < |s.kids| ==> KilledBy(s, k))
    && (forall e :: e in s.kills ==> e.0 < |s.kids|)
    && (forall k :: 0 <= k < |s.kids| ==> KidFits(s.kids[k], k))
    && (forall k :: 0 <= k < |s.reports| ==> ReapedWith(s, k))
    && (s.pc.Waiting? ==> !s.kids[Last(s)].pc.Reaped?)
  }

  lemma KidStepFits(kid: Kid, k: nat, a: Action)
    requires KidFits(kid, k) && kid.pc.Running? && !a.Main?
    ensures KidFits(KidStep(kid, a), k) && !KidStep(kid, a).pc.Reaped?
  {
    var n := kid.pc.stores;
    assert Mixed(4, BY_CHILD, kid.seen) == BY_CHILD;
    assert n <= 4 && kid.cells == Mixed(n, BY_CHILD, kid.seen);
  }

  lemma KidKeepsInv(numforks: int, s: State, a: Action)
    requires Inv(numforks, s) && Enabled(s, a) && !a.Main?
    ensures Inv(numforks, Apply(numforks, s, a))
  {
    var t := Apply(numforks, s, a);
    KidStepFits(s.kids[a.k], a.k, a);
    KidKeepsKills(numforks, s, a);
    forall k | 0 <= k < |t.reports| ensures ReapedWith(t, k) { assert ReapedWith(s, k); }
  }

  lemma KidKeepsKills(numforks: int, s: State, a: Action)
    requires Inv(numforks, s) && Enabled(s, a) && !a.Main?
    ensures var t := Apply(numforks, s, a);
            (forall k :: 0 <= k < |t.kids| ==> KilledBy(t, k)) && forall e :: e in t.kills ==> e.0 < |t.kids|
  {
    var t := Apply(numforks, s, a);
    forall k | 0 <= k < |t.kids| ensures KilledBy(t, k) { assert KilledBy(s, k); }
  }

  lemma MainKeepsKills(numforks: int, s: State)
    requires Inv(numforks, s) && Enabled(s, Main)
    ensures var t := MainStep(numforks, s);
            (forall k :: 0 <= k < |t.kids| ==> KilledBy(t, k)) && forall e :: e in t.kills ==> e.0 < |t.kids|
  {
    var t := MainStep(numforks, s);
    if s.pc.Waiting? { assert KidFits(s.kids[Last(s)], Last(s)); }
    forall k | 0 <= k < |t.kids| ensures KilledBy(t, k) {
      if k < |s.kids| { assert KilledBy(s, k); }
    }
  }

  lemma CollectKeepsInv(numforks: int, s: State)
    requires Inv(numforks, s) && s.pc.Waiting? && Enabled(s, Main)
    ensures Inv(numforks, Collect(s))
  {
    var t := Collect(s);
    MainKeepsKills(numforks, s);
    assert KidFits(s.kids[Last(s)], Last(s));
    assert KidFits(t.kids[Last(s)], Last(s));
    forall k | 0 <= k < |t.reports| ensures ReapedWith(t, k) {
      if k < |s.reports| { assert ReapedWith(s, k); }
    }
  }

  lemma StepKeepsInv(numforks: int, s: State, a: Action)
    requires Inv(numforks, s) && Enabled(s, a)
    ensures Inv(numforks, Apply(numforks, s, a))
  {
    if !a.Main? {
      KidKeepsInv(numforks, s, a);
    } else if s.pc.Waiting? {
      CollectKeepsInv(numforks, s);
    } else {
      var t := Apply(numforks, s, a);
      MainKeepsKills(numforks, s);
      assert Mixed(4, BY_PARENT, AtPass(s.forkno)) == BY_PARENT;
      forall k | 0 <= k < |t.reports| ensures ReapedWith(t, k) { assert ReapedWith(s, k); }
    }
  }

  // ----- how long a run can be

  /** Steps the child and its reports can still take without another stop signal. */
  function KidWork(): Kid -> nat {
    (kid: Kid) => match kid.pc
      case Running(n) =>
        (if n <= 4 then 5 - n else 0) + 1 + (if kid.stopped then 2 else 0) + (if kid.news.Some? then 1 else 0)
      case Zombie(_) => 1
      case Reaped(_) => 0
  }

  /** Steps of a pass of the loop: the fork, all of a child's, and the parent's four stores. */
  const PASS: nat := 1 + 6 + 4

  function MainWork(numforks: int, s: State): nat {
    var left := if s.forkno <= Passes(numforks) then Passes(numforks) - s.forkno else 0;
    match s.pc
    case Loop => left * PASS + 1
    case Waiting => (if left > 0 then left - 1 else 0) * PASS + 4 + 1
    case Storing(n) => (if left > 0 then left - 1 else 0) * PASS + (if n < 4 then 4 - n else 0) + 1
    case Done => 0
  }

  function Work(numforks: int, s: State): nat { MainWork(numforks, s) + Sum(s.kids, KidWork()) }

  lemma KidStepWork(kid: Kid, k: nat, a: Action)
    requires KidFits(kid, k) && kid.pc.Running? && !a.Main?
    requires a.Continue? ==> kid.stopped
    ensures KidWork()(KidStep(kid, a)) + 1 <= KidWork()(kid) + 4 * One(a.Stop?)
  {}

  lemma MainStepWork(numforks: int, s: State)
    requires Inv(numforks, s) && Enabled(s, Main)
    ensures Work(numforks, MainStep(numforks, s)) < Work(numforks, s)
  {
    match s.pc
    case Loop =>
      if s.forkno < numforks {
        SumAppend(s.kids, Kid(s.forkno, s.cells, s.cells, Running(0), false, None), KidWork());
      }
    case Waiting =>
      var t := Collect(s);
      assert KidFits(s.kids[Last(s)], Last(s));
      SumUpdate(s.kids, Last(s), t.kids[Last(s)], KidWork());
    case Storing(_) =>
  }

  lemma StepWork(numforks: int, s: State, a: Action)
    requires Inv(numforks, s) && Enabled(s, a)
    ensures Work(numforks, Apply(numforks, s, a)) + 1 <= Work(numforks, s) + 4 * One(a.Stop?)
  {
    if a.Main? {
      MainStepWork(numforks, s);
    } else {
      KidStepWork(s.kids[a.k], a.k, a);
      SumUpdate(s.kids, a.k, KidStep(s.kids[a.k], a), KidWork());
    }
  }

  // ----- every run

  ghost predicate RunOf(numforks: int, run: seq<State>) { IsRun(Step(numforks), run) && run[0] == Start() }

  lemma OnStep(numforks: int, s: State, t: State)
    requires Inv(numforks, s) && Step(numforks)(s, t)
    ensures Inv(numforks, t) && Work(numforks, t) + 1 + 4 * s.stops <= Work(numforks, s) + 4 * t.stops
  {
    var a :| Enabled(s, a) && t == Apply(numforks, s, a);
    StepKeepsInv(numforks, s, a);
    StepWork(numforks, s, a);
  }

  lemma {:induction false} OnRun(numforks: int, run: seq<State>, i: nat)
    requires RunOf(numforks, run) && i < |run|
    ensures Inv(numforks, run[i])
    ensures Work(numforks, run[i]) + i <= Passes(numforks) * PASS + 1 + 4 * run[i].stops
  {
    if i > 0 {
      OnRun(numforks, run, i - 1);
      assert Step(numforks)(run[i - 1], run[i]);
      OnStep(numforks, run[i - 1], run[i]);
    }
  }

  /**
   * In every state of every run at most one process other than main is live, namely the one forked last,
   * and while it has not been reaped main is in its wait for it.
   */
  lemma OneChildAtATime(numforks: int, run: seq<State>, i: nat)
    requires RunOf(numforks, run) && i < |run|
    ensures forall k, m :: Live(run[i], k) && Live(run[i], m) ==> k == m == |run[i].kids| - 1
    ensures forall k :: 0 <= k < |run[i].kids| && !run[i].kids[k].pc.Reaped? ==> run[i].pc.Waiting? && k == Last(run[i])
  {
    OnRun(numforks, run, i);
    var s := run[i];
    forall k: nat | k < |s.kids| && !s.kids[k].pc.Reaped? ensures s.pc.Waiting? && k == Last(s) {
      UnreapedIsLast(numforks, s, k);
    }
  }

  lemma UnreapedIsLast(numforks: int, s: State, k: nat)
    requires Inv(numforks, s) && k < |s.kids| && !s.kids[k].pc.Reaped?
    ensures s.pc.Waiting? && k == Last(s)
  {
    assert k < |s.reports| ==> ReapedWith(s, k);
  }

  /** The first few variables have the values `after` and the others the values `before`. */
  predicate Overwritten(cells: Cells, after: Cells, before: Cells) {
    || cells == before
    || cells == before.(local := after.local)
    || cells == before.(local := after.local, static_ := after.static_)
    || cells == before.(local := after.local, static_ := after.static_, global := after.global)
    || cells == after
  }

  lemma MixedIsOverwritten(n: nat, after: Cells, before: Cells)
    requires n <= 4
    ensures Overwritten(Mixed(n, after, before), after, before)
  {}

  /** What a child holds: what it started from, with 02/12/22/32 written over it, all of it once it has exited. */
  predicate OverwrittenByChild(kid: Kid) {
    && Overwritten(kid.cells, Cells(0x02, 0x12, 0x22, 0x32), kid.seen)
    && ((kid.pc.Zombie? || kid.pc.Reaped?) && kid.pc.how.Exited? ==> kid.cells == Cells(0x02, 0x12, 0x22, 0x32))
  }

  /**
   * In every state of every run main's variables hold 01/11/21/31 or, from the first on, 03/13/23/33, and
   * never what a child wrote; every child but the first starts from 03/13/23/33; a child's own variables
   * are what it started from with 02/12/22/32 written over the first few, and over all four if it exits.
   */
  lemma SeparateCopies(numforks: int, run: seq<State>, i: nat)
    requires RunOf(numforks, run) && i < |run|
    ensures Overwritten(run[i].cells, Cells(0x03, 0x13, 0x23, 0x33), Cells(0x01, 0x11, 0x21, 0x31))
    ensures forall k :: 0 <= k < |run[i].kids| ==>
      && run[i].kids[k].seen == (if k == 0 then Cells(0x01, 0x11, 0x21, 0x31) else Cells(0x03, 0x13, 0x23, 0x33))
      && OverwrittenByChild(run[i].kids[k])
  {
    OnRun(numforks, run, i);
    MainOverwritten(numforks, run[i]);
    forall k | 0 <= k < |run[i].kids| ensures run[i].kids[k].seen == AtPass(k) && OverwrittenByChild(run[i].kids[k]) {
      KidOverwritten(run[i].kids[k], k);
    }
  }

  lemma MainOverwritten(numforks: int, s: State)
    requires MainFits(numforks, s)
    ensures Overwritten(s.cells, BY_PARENT, INITIAL)
  {
    if s.pc.Storing? && s.forkno == 0 { MixedIsOverwritten(s.pc.stores, BY_PARENT, INITIAL); }
  }

  lemma KidOverwritten(kid: Kid, k: nat)
    requires KidFits(kid, k)
    ensures kid.seen == AtPass(k) && OverwrittenByChild(kid)
  {
    var n: nat :| n <= 4 && kid.cells == Mixed(n, BY_CHILD, kid.seen);
    MixedIsOverwritten(n, BY_CHILD, kid.seen);
  }

  /**
   * What main has been told of child k: how it really ended; that is by exit with its number if no fatal
   * signal was sent to it, and by the signal sent to it otherwise.
   */
  ghost predicate ToldOf(s: State, k: nat)
    requires k < |s.reports|
  {
    && k < |s.kids| && s.kids[k].pc == Reaped(s.reports[k].1) && s.reports[k].0 == k
    && match s.reports[k].1
       case Exited(status) => status == k % 256 && forall signal: nat :: (k, signal) !in s.kills
       case Signaled(signal) => (k, signal) in s.kills
       case _ => false
  }

  /** In every state of every run the terminal reports so far are those of the children 0, 1, 2, ... in fork order. */
  lemma ReportsInForkOrder(numforks: int, run: seq<State>, i: nat)
    requires RunOf(numforks, run) && i < |run|
    ensures |run[i].reports| <= |run[i].kids| <= |run[i].reports| + 1
    ensures forall k :: 0 <= k < |run[i].reports| ==> ToldOf(run[i], k)
  {
    OnRun(numforks, run, i);
    AllTold(numforks, run[i]);
  }

  lemma AllTold(numforks: int, s: State)
    requires Inv(numforks, s)
    ensures forall k :: 0 <= k < |s.reports| ==> ToldOf(s, k)
  {
    forall k | 0 <= k < |s.reports| ensures ToldOf(s, k) {
      assert ReapedWith(s, k) && KidFits(s.kids[k], k) && KilledBy(s, k);
    }
  }

  // ----- what a stop signal does

  ghost function StepWithoutContinue(numforks: int, k: nat): (State, State) -> bool {
    (s: State, t: State) => exists a :: Enabled(s, a) && a != Continue(k) && t == Apply(numforks, s, a)
  }

  /** A stopped child stores nothing and does not exit until it is continued; it can only be killed. */
  lemma {:induction false} StoppedStaysPut(numforks: int, s: State, k: nat, signal: nat, t: State)
    requires Enabled(s, Stop(k, signal))
    requires Reachable(StepWithoutContinue(numforks, k), Apply(numforks, s, Stop(k, signal)), t)
    ensures k < |t.kids| && t.kids[k].cells == s.kids[k].cells
    ensures EndOf(t.kids[k].pc).Some? ==> EndOf(t.kids[k].pc).value.Signaled?
  {
    var cells := s.kids[k].cells;
    var inv := (v: State) => Halted(v, k, cells);
    forall v, v' | inv(v) && StepWithoutContinue(numforks, k)(v, v') ensures inv(v') {
      var a :| Enabled(v, a) && a != Continue(k) && v' == Apply(numforks, v, a);
      HaltedStep(numforks, v, a, k, cells);
    }
    InvariantOnReachable(StepWithoutContinue(numforks, k), inv, Apply(numforks, s, Stop(k, signal)), t);
  }

  predicate Halted(s: State, k: nat, cells: Cells) {
    && k < |s.kids| && s.kids[k].cells == cells
    && match s.kids[k].pc
       case Running(_) => s.kids[k].stopped && (s.kids[k].news.Some? ==> !Terminal(s.kids[k].news.value))
       case Zombie(how) => how.Signaled? && s.kids[k].news == Some(how)
       case Reaped(how) => how.Signaled? && s.kids[k].news.None?
  }

  lemma HaltedStep(numforks: int, s: State, a: Action, k: nat, cells: Cells)
    requires Halted(s, k, cells) && Enabled(s, a) && a != Continue(k)
    ensures Halted(Apply(numforks, s, a), k, cells)
  {}

  ghost predicate Stuck(s: State) { forall a :: !Enabled(s, a) }

  /** Neither main nor the child can go on without a signal from outside. */
  predicate Blocked(s: State) { !Enabled(s, Main) && !(|s.kids| > 0 && Enabled(s, Move(Last(s)))) }

  /** The child is stopped, and main has been told so. */
  predicate HeldUp(s: State) {
    s.pc.Waiting? && Live(s, Last(s)) && s.kids[Last(s)].stopped && s.kids[Last(s)].news.None?
  }

  /** Before its end the program waits for the outside only while the child is stopped and has been reported so. */
  lemma BlockedExactly(numforks: int, s: State)
    requires Inv(numforks, s)
    ensures Blocked(s) <==> s.pc.Done? || HeldUp(s)
  {
    if s.pc.Waiting? {
      assert KidFits(s.kids[Last(s)], Last(s));
    } else if |s.kids| > 0 {
      assert ReapedWith(s, Last(s));
    }
  }

  lemma StuckMeansDone(numforks: int, s: State)
    requires Inv(numforks, s)
    ensures Stuck(s) <==> s.pc.Done?
  {
    BlockedExactly(numforks, s);
    if s.pc.Done? {
      forall k: nat | k < |s.kids| ensures !Live(s, k) { assert ReapedWith(s, k); }
    } else if HeldUp(s) {
      assert Enabled(s, Continue(Last(s)));
    } else {
      assert Enabled(s, Main) || Enabled(s, Move(Last(s)));
    }
  }

  /** Every child has been forked, has ended and has been reported, in order. */
  ghost predicate Outcome(numforks: int, s: State) {
    && |s.kids| == |s.reports| == Passes(numforks)
    && s.cells == (if numforks > 0 then Cells(0x03, 0x13, 0x23, 0x33) else Cells(0x01, 0x11, 0x21, 0x31))
    && forall k | 0 <= k < |s.reports| :: ToldOf(s, k)
  }

  lemma DoneOutcome(numforks: int, s: State)
    requires Inv(numforks, s) && s.pc.Done?
    ensures Outcome(numforks, s)
  {
    AllTold(numforks, s);
  }

  /**
   * No run is longer than a bound fixed at the start and four steps for each stop signal; a run is stuck
   * exactly when main is done, and then numforks children have been forked, reaped and reported in order.
   */
  lemma EveryRunCompletes(numforks: int, run: seq<State>)
    requires RunOf(numforks, run)
    ensures |run| - 1 <= Passes(numforks) * PASS + 1 + 4 * run[|run| - 1].stops
    ensures Stuck(run[|run| - 1]) <==> run[|run| - 1].pc.Done?
    ensures run[|run| - 1].pc.Done? ==> Outcome(numforks, run[|run| - 1])
  {
    var s := run[|run| - 1];
    OnRun(numforks, run, |run| - 1);
    StuckMeansDone(numforks, s);
    if s.pc.Done? { DoneOutcome(numforks, s); }
  }

  // ----- the loop of main over mutable state

  /** main's variables, and the processes it has forked. */
  class Program {
    const numforks: int
    var cells: Cells
    var forkno: nat
    var pc: MainPc
    var kids: seq<Kid>
    var reports: seq<(nat, Report)>
    ghost var stops: nat
    ghost var kills: seq<(nat, nat)>

    ghost function View(): State
      reads this
    {
      State(cells, forkno, pc, kids, reports, stops, kills)
    }

    constructor (numforks: int)
      ensures this.numforks == numforks && View() == Start()
    {
      this.numforks := numforks;
      cells, forkno, pc := INITIAL, 0, Loop;
      kids, reports, stops, kills := [], [], 0, [];
    }

    /** fork(): the child gets a copy of main's variables. */
    method Fork() returns (cpid: nat)
      requires pc.Loop? && forkno < numforks
      modifies this
      ensures View() == Apply(numforks, old(View()), Main) && cpid == |old(kids)| == Last(View())
    {
      cpid := |kids|;
      kids := kids + [Kid(forkno, cells, cells, Running(0), false, None)];
      pc := Waiting;
    }

    /** waitpid(cpid, ..., WUNTRACED | WCONTINUED), when it does not block. */
    method WaitPid(cpid: nat) returns (status: Report)
      requires pc.Waiting? && |kids| > 0 && cpid == |kids| - 1 && kids[cpid].news.Some?
      modifies this
      ensures View() == Apply(numforks, old(View()), Main) && Some(status) == old(kids[cpid].news)
    {
      status := kids[cpid].news.value;
      if Terminal(status) {
        kids := kids[cpid := kids[cpid].(news := None, pc := Reaped(status))];
        reports := reports + [(cpid, status)];
        pc := Storing(0);
      } else {
        kids := kids[cpid := kids[cpid].(news := None)];
      }
    }

    /** The child's next store or its exit, or a signal sent to it. */
    method ChildGoesOn(a: Action)
      requires !a.Main? && Enabled(View(), a)
      modifies this
      ensures View() == Apply(numforks, old(View()), a)
    {
      var kid := kids[a.k];
      match a {
        case Move(_) =>
          if kid.pc.stores < 4 {
            var n := kid.pc.stores;
            kid := kid.(cells := Store(kid.cells, n, BY_CHILD), pc := Running(n + 1));
          } else {
            kid := kid.(pc := Zombie(Exited(kid.no % 256)), news := Some(Exited(kid.no % 256)));
          }
        case Kill(k, signal) =>
          kid := kid.(pc := Zombie(Signaled(signal)), news := Some(Signaled(signal)));
          kills := kills + [(k, signal)];
        case Stop(_, signal) =>
          kid := kid.(stopped := true, news := Some(Stopped(signal)));
          stops := stops + 1;
        case Continue(_) => kid := kid.(stopped := false, news := Some(Continued));
      }
      kids := kids[a.k := kid];
    }

    /**
     * The do-while loop over waitpid: it goes on over stop and continue reports and ends with the first
     * report that the child has ended. Meanwhile the child runs, and may be stopped up to `signals` times,
     * continued and killed at any point.
     */
    method AwaitEnd(cpid: nat, signals: nat) returns (status: Report, left: nat)
      requires Inv(numforks, View()) && pc.Waiting? && cpid == |kids| - 1
      modifies this
      ensures Inv(numforks, View()) && pc == Storing(0) && Terminal(status)
      ensures reports == old(reports) + [(cpid, status)] && kids[..cpid] == old(kids[..cpid]) && |kids| == |old(kids)|
      ensures cells == old(cells) && forkno == old(forkno) && left <= signals
    {
      status, left := Continued, signals;
      while !Terminal(status)
        invariant Inv(numforks, View()) && pc == if Terminal(status) then Storing(0) else Waiting
        invariant reports == old(reports) + if Terminal(status) then [(cpid, status)] else []
        invariant |kids| == |old(kids)| && kids[..cpid] == old(kids[..cpid])
        invariant cells == old(cells) && forkno == old(forkno) && left <= signals
        decreases Work(numforks, View()) + 4 * left
      {
        ghost var s := View();
        assert KidFits(kids[cpid], cpid);
        var live, stopped := kids[cpid].pc.Running?, kids[cpid].stopped;
        var a := Main;
        if {
          case kids[cpid].news.Some? => status := WaitPid(cpid);
          case live && !stopped => a := Move(cpid);
          case live && stopped => a := Continue(cpid);
          case live && !stopped && left > 0 =>
            var signal: nat := *;
            a, left := Stop(cpid, signal), left - 1;
          case live =>
            var signal: nat := *;
            a := Kill(cpid, signal);
        }
        if !a.Main? { ChildGoesOn(a); }
        StepKeepsInv(numforks, s, a);
        StepWork(numforks, s, a);
      }
    }

    /** The four stores of main after its child has ended. */
    method StoreAll()
      requires Inv(numforks, View()) && pc == Storing(0)
      modifies this
      ensures Inv(numforks, View()) && pc.Loop? && forkno == old(forkno) + 1
      ensures kids == old(kids) && reports == old(reports) && stops == old(stops)
    {
      for n := 0 to 4
        invariant Inv(numforks, View()) && forkno == old(forkno) + One(n == 4)
        invariant pc == if n < 4 then Storing(n) else Loop
        invariant kids == old(kids) && reports == old(reports) && stops == old(stops)
      {
        ghost var s := View();
        cells := Store(cells, n, BY_PARENT);
        if n < 3 { pc := Storing(n + 1); } else { pc, forkno := Loop, forkno + 1; }
        assert View() == Apply(numforks, s, Main);
        StepKeepsInv(numforks, s, Main);
      }
    }

    /** The loop of main, whatever the children and the outside do: it ends with every child reported in order. */
    method ForkLoop(signals: nat)
      requires View() == Start()
      modifies this
      ensures pc.Done? && Inv(numforks, View()) && Outcome(numforks, View())
    {
      var left := signals;
      while forkno < numforks
        invariant Inv(numforks, View()) && pc.Loop?
        decreases numforks - forkno
      {
        ghost var s := View();
        var cpid := Fork();
        StepKeepsInv(numforks, s, Main);
        var status;
        status, left := AwaitEnd(cpid, left);
        StoreAll();
      }
      ghost var s := View();
      pc := Done;
      assert View() == Apply(numforks, s, Main);
      StepKeepsInv(numforks, s, Main);
      DoneOutcome(numforks, View());
    }
  }
}
