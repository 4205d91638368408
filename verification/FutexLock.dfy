/**
 * threadlockfail.c: a lock word taken by compare-exchange, with futex sleep and wake, and a recovery
 * path for a lock whose owner died. Any number of threads run lock_acquire and lock_release in any
 * order; each step below is one atomic operation of one thread.
 */
module FutexLock {
  import opened Basics
  import opened Runs

  const FUTEX_OWNER_DIED: bv32 := 0x4000_0000

  datatype Pc =
    | Idle
    | Cas               // about to compare-exchange
    | Wait              // about to call futex_wait with 0
    | Asleep
    | Link              // lock taken, list entry not yet added
    | Held
    | Waking            // word stored 0, about to call futex_wake
    | Load              // recovery: about to read the word
    | Test(val: bv32)   // recovery: about to look at the died bit
    | Clear             // recovery: about to store 0
    | Gone

  /** pthread_self of every thread, and the threads that start with the recovery code. */
  datatype Config = Config(self: seq<bv64>, recoverers: set<nat>)

  /** `abandoned` is history: the last holder ended without releasing and no one has cleared the word since. */
  datatype State = State(word: bv32, abandoned: bool, pcs: seq<Pc>)

  datatype Action =
    | Begin(t: nat)
    | CompareExchange(t: nat, spurious: bool)
    | FutexWait(t: nat)
    | ReturnFromWait(t: nat)
    | AddToList(t: nat)
    | StoreZero(t: nat)
    | FutexWake(t: nat, sleeper: Option<nat>)
    | LoadWord(t: nat)
    | TestBit(t: nat)
    | ClearWord(t: nat)
    | Exit(t: nat, mark: Option<bv32>)

  /** The word a thread writes: pthread_self cut to 32 bits. */
  function Id(c: Config, t: nat): bv32
    requires t < |c.self|
  {
    (c.self[t] & 0xFFFF_FFFF) as bv32
  }

  predicate Died(w: bv32) { w & FUTEX_OWNER_DIED != 0 }

  /** The word is pthread_self modulo 2^32, and the died bit is bit 30 of it. */
  lemma WordOfThread(c: Config, t: nat, w: bv32)
    requires t < |c.self|
    ensures Id(c, t) as bv64 == c.self[t] % 0x1_0000_0000
    ensures Died(w) <==> (w >> 30) % 2 == 1
  {}

  predicate Holding(pc: Pc) { pc.Link? || pc.Held? }

  predicate Recovering(pc: Pc) { pc.Load? || pc.Test? || pc.Clear? }

  predicate Holds(s: State, t: nat) { t < |s.pcs| && Holding(s.pcs[t]) }

  predicate WellFormed(c: Config) { forall r :: r in c.recoverers ==> r < |c.self| }

  function Start(c: Config): State {
    State(0, false, seq(|c.self|, t => if t in c.recoverers then Load else Idle))
  }

  // ----- the steps

  /**
   * futex_wake(1) wakes one sleeper when there is one. A sleeper may also return for no reason. When a
   * holder whose list entry is in place ends, the kernel may set the died bit or leave the word alone.
   */
  predicate Enabled(s: State, a: Action) {
    a.t < |s.pcs| &&
    var pc := s.pcs[a.t];
    match a
    case Begin(_) => pc.Idle?
    case CompareExchange(_, _) => pc.Cas?
    case FutexWait(_) => pc.Wait?
    case ReturnFromWait(_) => pc.Asleep?
    case AddToList(_) => pc.Link?
    case StoreZero(_) => pc.Held?
    case FutexWake(_, None) => pc.Waking? && Asleep !in s.pcs
    case FutexWake(_, Some(u)) => pc.Waking? && u < |s.pcs| && s.pcs[u].Asleep?
    case LoadWord(_) => pc.Load?
    case TestBit(_) => pc.Test?
    case ClearWord(_) => pc.Clear?
    case Exit(_, mark) => !pc.Gone? && (mark.Some? ==> pc.Held? && Died(mark.value))
  }

  function Apply(c: Config, s: State, a: Action): (s': State)
    requires |s.pcs| == |c.self| && Enabled(s, a)
    ensures |s'.pcs| == |s.pcs|
  {
    var t := a.t;
    var to := (pc: Pc) => s.(pcs := s.pcs[t := pc]);
    match a
    case Begin(_) => to(Cas)
    case CompareExchange(_, spurious) =>
      if s.word == 0 && !spurious then to(Link).(word := Id(c, t)) else to(Wait)
    case FutexWait(_) => if s.word == 0 then to(Asleep) else to(Cas)
    case ReturnFromWait(_) => to(Cas)
    case AddToList(_) => to(Held)
    case StoreZero(_) => to(Waking).(word := 0)
    case FutexWake(_, None) => to(Idle)
    case FutexWake(_, Some(u)) => s.(pcs := s.pcs[t := Idle][u := Cas])
    case LoadWord(_) => to(Test(s.word))
    case TestBit(_) => if Died(s.pcs[t].val) then to(Clear) else to(Cas)
    case ClearWord(_) => to(Cas).(word := 0, abandoned := false)
    case Exit(_, mark) =>
      if Holding(s.pcs[t])
      then to(Gone).(abandoned := true, word := if mark.Some? then mark.value else s.word)
      else to(Gone)
  }

  ghost function Step(c: Config): (State, State) -> bool {
    (s: State, s': State) => |s.pcs| == |c.self| && exists a :: Enabled(s, a) && s' == Apply(c, s, a)
  }

  // ----- the invariant

  /**
   * Owner ids are not 0; among three threads or more at most one runs the recovery code; and no other
   * thread's id carries the bit that the recovery code takes for a dead owner.
   */
  ghost predicate Good(c: Config) {
    && (forall t :: 0 <= t < |c.self| ==> Id(c, t) != 0)
    && (|c.self| >= 3 ==> forall q, r :: q in c.recoverers && r in c.recoverers ==> q == r)
    && (forall r, t :: r in c.recoverers && 0 <= t < |c.self| && t != r ==> !Died(Id(c, t)))
  }

  ghost predicate Exclusive(s: State) { forall t, u :: Holds(s, t) && Holds(s, u) ==> t == u }

  ghost predicate Owned(c: Config, s: State)
    requires |s.pcs| == |c.self|
  {
    forall t :: Holds(s, t) ==> s.word == Id(c, t) && !s.abandoned
  }

  ghost predicate SomeoneHolds(s: State) { exists t :: Holds(s, t) }

  /** A recoverer that has read a word with the died bit and not yet cleared it. */
  predicate SawDied(pc: Pc) { pc.Clear? || (pc.Test? && Died(pc.val)) }

  /** No thread but t is still in the recovery code. */
  ghost predicate LastToRecover(s: State, t: nat) {
    forall u :: 0 <= u < |s.pcs| && u != t ==> !Recovering(s.pcs[u])
  }

  ghost predicate RecoveryAt(c: Config, s: State, t: nat)
    requires t < |s.pcs|
  {
    Recovering(s.pcs[t]) ==>
      && t in c.recoverers
      && (SawDied(s.pcs[t]) ==> s.abandoned && Died(s.word) && LastToRecover(s, t))
      && (SawDied(s.pcs[t]) && s.pcs[t].Test? ==> s.word == s.pcs[t].val)
  }

  ghost predicate Recovery(c: Config, s: State) { forall t :: 0 <= t < |s.pcs| ==> RecoveryAt(c, s, t) }

  ghost predicate Inv(c: Config, s: State) {
    && |s.pcs| == |c.self|
    && Exclusive(s)
    && Owned(c, s)
    && (s.word != 0 <==> s.abandoned || SomeoneHolds(s))
    && (s.abandoned ==> Gone in s.pcs)
    && Recovery(c, s)
  }

  /** Steps that leave the word, the history and the set of holders alone. */
  predicate Quiet(s: State, a: Action) {
    match a
    case CompareExchange(_, spurious) => spurious || s.word != 0
    case Exit(t, _) => t < |s.pcs| && !Holding(s.pcs[t])
    case StoreZero(_) => false
    case ClearWord(_) => false
    case _ => true
  }

  lemma QuietKeepsHolders(c: Config, s: State, a: Action)
    requires |s.pcs| == |c.self| && Enabled(s, a) && Quiet(s, a)
    ensures Apply(c, s, a).word == s.word && Apply(c, s, a).abandoned == s.abandoned
    ensures forall t :: Holds(Apply(c, s, a), t) <==> Holds(s, t)
  {}

  lemma GoneStays(c: Config, s: State, a: Action)
    requires |s.pcs| == |c.self| && Enabled(s, a) && Gone in s.pcs
    ensures Gone in Apply(c, s, a).pcs
  {
    var t :| 0 <= t < |s.pcs| && s.pcs[t].Gone?;
    assert Apply(c, s, a).pcs[t].Gone?;
  }

  /** No step takes a thread into the recovery code. */
  lemma RecoveringBefore(c: Config, s: State, a: Action, t: nat)
    requires |s.pcs| == |c.self| && Enabled(s, a) && t < |s.pcs| && Recovering(Apply(c, s, a).pcs[t])
    ensures Recovering(s.pcs[t])
    ensures t != a.t ==> Apply(c, s, a).pcs[t] == s.pcs[t]
  {}

  /** A recoverer that reads the died bit reads the word of an abandoned lock, and no other is left to do so. */
  lemma SeesDeadOwner(c: Config, s: State, r: nat)
    requires Good(c) && Inv(c, s) && r < |s.pcs| && s.pcs[r].Load? && Died(s.word)
    ensures s.abandoned && LastToRecover(s, r)
  {
    assert RecoveryAt(c, s, r);
    forall h | Holds(s, h) ensures s.abandoned { assert h != r; }
    var g :| 0 <= g < |s.pcs| && s.pcs[g].Gone?;
    forall u | 0 <= u < |s.pcs| && u != r ensures !Recovering(s.pcs[u]) {
      assert RecoveryAt(c, s, u);
      if |c.self| < 3 { assert u == g; }
    }
  }

  lemma {:induction false} QuietKeepsRecovery(c: Config, s: State, a: Action)
    requires Good(c) && Inv(c, s) && Enabled(s, a) && Quiet(s, a)
    ensures Recovery(c, Apply(c, s, a))
  {
    var s' := Apply(c, s, a);
    QuietKeepsHolders(c, s, a);
    forall t | 0 <= t < |s'.pcs| ensures RecoveryAt(c, s', t) {
      if Recovering(s'.pcs[t]) {
        RecoveringBefore(c, s, a, t);
        assert RecoveryAt(c, s, t);
        if SawDied(s'.pcs[t]) {
          SawDiedBefore(c, s, a, t);
          StillLastToRecover(c, s, a, t);
        }
      }
    }
  }

  lemma StillLastToRecover(c: Config, s: State, a: Action, t: nat)
    requires |s.pcs| == |c.self| && Enabled(s, a) && LastToRecover(s, t)
    ensures LastToRecover(Apply(c, s, a), t)
  {
    forall u | 0 <= u < |s.pcs| && u != t && Recovering(Apply(c, s, a).pcs[u]) ensures false {
      RecoveringBefore(c, s, a, u);
    }
  }

  lemma SawDiedBefore(c: Config, s: State, a: Action, t: nat)
    requires Good(c) && Inv(c, s) && Enabled(s, a) && Quiet(s, a) && t < |s.pcs|
    requires Recovering(s.pcs[t]) && SawDied(Apply(c, s, a).pcs[t])
    requires t != a.t ==> Apply(c, s, a).pcs[t] == s.pcs[t]
    ensures s.abandoned && Died(s.word) && LastToRecover(s, t)
    ensures var pc := Apply(c, s, a).pcs[t]; pc.Test? ==> s.word == pc.val
  {
    assert RecoveryAt(c, s, t);
    if s.pcs[t].Load? {
      assert a == LoadWord(t);
      SeesDeadOwner(c, s, t);
    }
  }

  /** While the lock is held, or free, no recoverer has seen the died bit, and it stays so until the word changes. */
  lemma {:induction false} NobodySawDied(c: Config, s: State, a: Action)
    requires Good(c) && Inv(c, s) && Enabled(s, a) && !Quiet(s, a) && !s.abandoned
    ensures Recovery(c, Apply(c, s, a))
  {
    var s' := Apply(c, s, a);
    forall t | 0 <= t < |s'.pcs| ensures RecoveryAt(c, s', t) {
      if Recovering(s'.pcs[t]) {
        RecoveringBefore(c, s, a, t);
        assert RecoveryAt(c, s, t);
      }
    }
  }

  lemma TakeKeepsInv(c: Config, s: State, t: nat)
    requires Good(c) && Inv(c, s) && Enabled(s, CompareExchange(t, false)) && s.word == 0
    ensures Inv(c, Apply(c, s, CompareExchange(t, false)))
  {
    var s' := Apply(c, s, CompareExchange(t, false));
    NobodySawDied(c, s, CompareExchange(t, false));
    assert Holds(s', t);
    assert forall u :: u != t ==> Holds(s', u) == Holds(s, u);
  }

  lemma StoreZeroKeepsInv(c: Config, s: State, t: nat)
    requires Good(c) && Inv(c, s) && Enabled(s, StoreZero(t))
    ensures Inv(c, Apply(c, s, StoreZero(t)))
  {
    var s' := Apply(c, s, StoreZero(t));
    assert Holds(s, t);
    NobodySawDied(c, s, StoreZero(t));
    assert forall u :: u != t ==> Holds(s', u) == Holds(s, u);
  }

  lemma ClearKeepsInv(c: Config, s: State, t: nat)
    requires Good(c) && Inv(c, s) && Enabled(s, ClearWord(t))
    ensures Inv(c, Apply(c, s, ClearWord(t)))
  {
    var s' := Apply(c, s, ClearWord(t));
    assert RecoveryAt(c, s, t);
    assert forall u :: Holds(s', u) == Holds(s, u);
    assert forall u :: 0 <= u < |s.pcs| ==> !Recovering(s'.pcs[u]);
  }

  lemma ExitHoldingKeepsInv(c: Config, s: State, t: nat, mark: Option<bv32>)
    requires Good(c) && Inv(c, s) && Enabled(s, Exit(t, mark)) && Holding(s.pcs[t])
    ensures Inv(c, Apply(c, s, Exit(t, mark)))
  {
    var s' := Apply(c, s, Exit(t, mark));
    assert Holds(s, t);
    NobodySawDied(c, s, Exit(t, mark));
    assert s'.pcs[t].Gone?;
    assert forall u :: u != t ==> Holds(s', u) == Holds(s, u);
  }

  lemma StepKeepsInv(c: Config, s: State, a: Action)
    requires Good(c) && Inv(c, s) && Enabled(s, a)
    ensures Inv(c, Apply(c, s, a))
  {
    if Quiet(s, a) {
      QuietKeepsHolders(c, s, a);
      QuietKeepsRecovery(c, s, a);
      assert SomeoneHolds(Apply(c, s, a)) <==> SomeoneHolds(s);
      if s.abandoned { GoneStays(c, s, a); }
    } else {
      match a
      case CompareExchange(t, _) => TakeKeepsInv(c, s, t);
      case StoreZero(t) => StoreZeroKeepsInv(c, s, t);
      case ClearWord(t) => ClearKeepsInv(c, s, t);
      case Exit(t, mark) => ExitHoldingKeepsInv(c, s, t, mark);
    }
  }

  lemma StartInv(c: Config)
    requires WellFormed(c)
    ensures Inv(c, Start(c))
  {}

  lemma InvOnReachable(c: Config, s: State)
    requires WellFormed(c) && Good(c) && Reachable(Step(c), Start(c), s)
    ensures Inv(c, s)
  {
    StartInv(c);
    var inv := (s: State) => Inv(c, s);
    forall s, s' | inv(s) && Step(c)(s, s') ensures inv(s') {
      var a :| Enabled(s, a) && s' == Apply(c, s, a);
      StepKeepsInv(c, s, a);
    }
    InvariantOnReachable(Step(c), inv, Start(c), s);
  }

  // ----- mutual exclusion, and exactly when it holds

  ghost predicate AlwaysExclusive(c: Config) {
    forall s :: Reachable(Step(c), Start(c), s) ==> Exclusive(s)
  }

  lemma ThenFrom(c: Config, s0: State, s: State, a: Action) returns (s': State)
    requires Reachable(Step(c), s0, s) && |s.pcs| == |c.self| && Enabled(s, a)
    ensures s' == Apply(c, s, a) && Reachable(Step(c), s0, s')
  {
    s' := Apply(c, s, a);
    assert Step(c)(s, s');
    ReachableStep(Step(c), s0, s, s');
  }

  lemma {:induction false} Then(c: Config, s: State, a: Action) returns (s': State)
    requires Reachable(Step(c), Start(c), s) && |s.pcs| == |c.self| && Enabled(s, a)
    ensures s' == Apply(c, s, a) && Reachable(Step(c), Start(c), s')
  {
    s' := ThenFrom(c, Start(c), s, a);
  }

  /** From the start, thread t can be the one that next compare-exchanges. */
  lemma {:induction false} ReachCas(c: Config, s: State, t: nat) returns (s': State)
    requires Reachable(Step(c), Start(c), s) && |s.pcs| == |c.self| && t < |s.pcs|
    requires s.pcs[t].Idle? || (s.pcs[t].Load? && !Died(s.word))
    ensures Reachable(Step(c), Start(c), s')
    ensures s' == s.(pcs := s.pcs[t := Cas])
  {
    if s.pcs[t].Idle? {
      s' := Then(c, s, Begin(t));
    } else {
      s' := Then(c, s, LoadWord(t));
      s' := Then(c, s', TestBit(t));
      assert s'.pcs == s.pcs[t := Cas];
    }
  }

  lemma {:induction false} Take(c: Config, s0: State, s: State, t: nat) returns (s': State)
    requires Reachable(Step(c), s0, s) && |s.pcs| == |c.self| && t < |s.pcs| && s.pcs[t].Cas? && s.word == 0
    ensures Reachable(Step(c), s0, s') && s' == s.(word := Id(c, t), pcs := s.pcs[t := Link])
  {
    s' := ThenFrom(c, s0, s, CompareExchange(t, false));
  }

  lemma {:induction false} SeeDiedBit(c: Config, s0: State, s: State, r: nat) returns (s': State)
    requires Reachable(Step(c), s0, s) && |s.pcs| == |c.self| && r < |s.pcs| && s.pcs[r].Load? && Died(s.word)
    ensures Reachable(Step(c), s0, s') && s' == s.(pcs := s.pcs[r := Clear])
  {
    s' := ThenFrom(c, s0, s, LoadWord(r));
    s' := ThenFrom(c, s0, s', TestBit(r));
    assert s'.pcs == s.pcs[r := Clear];
  }

  lemma {:induction false} Wipe(c: Config, s0: State, s: State, r: nat) returns (s': State)
    requires Reachable(Step(c), s0, s) && |s.pcs| == |c.self| && r < |s.pcs| && s.pcs[r].Clear?
    ensures Reachable(Step(c), s0, s') && s' == s.(word := 0, abandoned := false, pcs := s.pcs[r := Cas])
  {
    s' := ThenFrom(c, s0, s, ClearWord(r));
  }

  lemma DieMarked(c: Config, s0: State, s: State, t: nat) returns (s': State)
    requires Reachable(Step(c), s0, s) && |s.pcs| == |c.self| && t < |s.pcs| && s.pcs[t].Link?
    ensures Reachable(Step(c), s0, s')
    ensures s' == State(FUTEX_OWNER_DIED, true, s.pcs[t := Gone])
  {
    s' := ThenFrom(c, s0, s, AddToList(t));
    s' := ThenFrom(c, s0, s', Exit(t, Some(FUTEX_OWNER_DIED)));
    assert s'.pcs == s.pcs[t := Gone];
  }

  /** A thread whose truncated id is 0 takes the lock without marking it taken. */
  lemma ZeroIdBreaksExclusion(c: Config, t: nat, u: nat)
    requires WellFormed(c) && t < |c.self| && u < |c.self| && t != u && Id(c, t) == 0
    ensures !AlwaysExclusive(c)
  {
    ReachableRefl(Step(c), Start(c));
    var s := ReachCas(c, Start(c), t);
    s := Take(c, Start(c), s, t);
    s := ReachCas(c, s, u);
    s := Take(c, Start(c), s, u);
    assert Holds(s, t) && Holds(s, u);
  }

  /** The recovery code takes a live owner whose id carries the died bit for a dead one. */
  lemma DiedBitInIdBreaksExclusion(c: Config, r: nat, t: nat)
    requires WellFormed(c) && r in c.recoverers && t < |c.self| && t != r && Died(Id(c, t))
    ensures !AlwaysExclusive(c)
  {
    ReachableRefl(Step(c), Start(c));
    var s := ReachCas(c, Start(c), t);
    s := Take(c, Start(c), s, t);
    s := SeeDiedBit(c, Start(c), s, r);
    s := Wipe(c, Start(c), s, r);
    s := Take(c, Start(c), s, r);
    assert Holds(s, t) && Holds(s, r);
  }

  /** Both recoverers have seen the died bit before either clears the word. */
  lemma BothSeeDiedBit(c: Config, q: nat, r: nat, t: nat) returns (s: State)
    requires WellFormed(c) && q in c.recoverers && r in c.recoverers && t < |c.self|
    requires q != r && t != q && t != r
    ensures Reachable(Step(c), Start(c), s) && |s.pcs| == |c.self|
    ensures s.pcs[q].Clear? && s.pcs[r].Clear?
  {
    ReachableRefl(Step(c), Start(c));
    s := ReachCas(c, Start(c), t);
    s := Take(c, Start(c), s, t);
    s := DieMarked(c, Start(c), s, t);
    assert s.pcs[q].Load? && s.pcs[r].Load?;
    s := SeeDiedBit(c, Start(c), s, q);
    s := SeeDiedBit(c, Start(c), s, r);
  }

  /** Two recoverers: the slower one clears the word after the faster one has taken the lock. */
  lemma TwoRecoverersBreakExclusion(c: Config, q: nat, r: nat, t: nat)
    requires WellFormed(c) && q in c.recoverers && r in c.recoverers && t < |c.self|
    requires q != r && t != q && t != r
    ensures !AlwaysExclusive(c)
  {
    var s := BothSeeDiedBit(c, q, r, t);
    s := Wipe(c, Start(c), s, q);
    s := Take(c, Start(c), s, q);
    s := Wipe(c, Start(c), s, r);
    s := Take(c, Start(c), s, r);
    assert Holds(s, q) && Holds(s, r);
  }

  lemma SizeOnReachable(c: Config, s: State)
    requires Reachable(Step(c), Start(c), s)
    ensures |s.pcs| == |c.self|
  {
    var inv := (s: State) => |s.pcs| == |c.self|;
    forall s, s' | inv(s) && Step(c)(s, s') ensures inv(s') {
      var a :| Enabled(s, a) && s' == Apply(c, s, a);
    }
    InvariantOnReachable(Step(c), inv, Start(c), s);
  }

  /** No schedule lets two threads hold the lock if and only if there is but one, or the configuration is good. */
  lemma ExclusionExactly(c: Config)
    requires WellFormed(c)
    ensures AlwaysExclusive(c) <==> |c.self| <= 1 || Good(c)
  {
    if |c.self| <= 1 {
      AloneIsExclusive(c);
    } else if Good(c) {
      forall s | Reachable(Step(c), Start(c), s) ensures Exclusive(s) { InvOnReachable(c, s); }
    } else if t :| 0 <= t < |c.self| && Id(c, t) == 0 {
      ZeroIdBreaksExclusion(c, t, if t == 0 then 1 else 0);
    } else if r, t :| r in c.recoverers && 0 <= t < |c.self| && t != r && Died(Id(c, t)) {
      DiedBitInIdBreaksExclusion(c, r, t);
    } else {
      var q, r :| q in c.recoverers && r in c.recoverers && q != r;
      var t := if q != 0 && r != 0 then 0 else if q != 1 && r != 1 then 1 else 2;
      TwoRecoverersBreakExclusion(c, q, r, t);
    }
  }

  lemma AloneIsExclusive(c: Config)
    requires |c.self| <= 1
    ensures AlwaysExclusive(c)
  {
    forall s | Reachable(Step(c), Start(c), s) ensures Exclusive(s) {
      SizeOnReachable(c, s);
    }
  }

  /** The word is not 0 exactly while the lock is held or was left behind by a holder that ended. */
  lemma WordTellsTheTruth(c: Config, s: State)
    requires WellFormed(c) && Good(c) && Reachable(Step(c), Start(c), s)
    ensures Exclusive(s)
    ensures s.word != 0 <==> s.abandoned || SomeoneHolds(s)
    ensures !(s.abandoned && SomeoneHolds(s))
    ensures forall t :: Holds(s, t) ==> s.word == Id(c, t)
  {
    InvOnReachable(c, s);
  }

  // ----- recovery

  /** A recoverer is about to read the died bit, or has read it and not yet cleared it. */
  ghost predicate RecoveryPending(s: State) {
    exists r :: 0 <= r < |s.pcs| && (SawDied(s.pcs[r]) || (s.pcs[r].Load? && Died(s.word)))
  }

  lemma {:induction false} PendingRecovers(c: Config, s: State, r: nat)
    requires Good(c) && Inv(c, s) && s.abandoned && r < |s.pcs|
    requires SawDied(s.pcs[r]) || (s.pcs[r].Load? && Died(s.word))
    ensures exists u :: Reachable(Step(c), s, u) && Holds(u, r)
  {
    ReachableRefl(Step(c), s);
    var u := s;
    if s.pcs[r].Load? {
      u := SeeDiedBit(c, s, s, r);
    } else if s.pcs[r].Test? {
      u := ThenFrom(c, s, s, TestBit(r));
    }
    u := Wipe(c, s, u, r);
    u := Take(c, s, u, r);
    assert Holds(u, r);
  }

  ghost predicate Lost(c: Config, s: State) { Inv(c, s) && s.abandoned && !RecoveryPending(s) }

  lemma {:induction false} StepKeepsLost(c: Config, s: State, a: Action)
    requires Good(c) && Lost(c, s) && Enabled(s, a)
    ensures Lost(c, Apply(c, s, a)) && Apply(c, s, a).word == s.word
  {
    var s' := Apply(c, s, a);
    StepKeepsInv(c, s, a);
    assert Holding(s.pcs[a.t]) ==> Holds(s, a.t);
    assert !SawDied(s.pcs[a.t]);
    forall r | 0 <= r < |s'.pcs| && Recovering(s'.pcs[r])
      ensures !SawDied(s'.pcs[r]) && !(s'.pcs[r].Load? && Died(s'.word))
    {
      RecoveringBefore(c, s, a, r);
    }
  }

  /** An abandoned lock that no recoverer is about to clear keeps its word and is never held again. */
  lemma {:induction false} LostForEver(c: Config, s: State, u: State)
    requires Good(c) && Lost(c, s) && Reachable(Step(c), s, u)
    ensures u.abandoned && u.word == s.word && !SomeoneHolds(u)
  {
    var w := s.word;
    var inv := (v: State) => Lost(c, v) && v.word == w;
    forall v, v' | inv(v) && Step(c)(v, v') ensures inv(v') {
      var a :| Enabled(v, a) && v' == Apply(c, v, a);
      StepKeepsLost(c, v, a);
    }
    InvariantOnReachable(Step(c), inv, s, u);
  }

  /**
   * In every reachable state an abandoned lock can be held again if and only if a recoverer is yet to
   * look at a word that carries the died bit, or has read that bit and not yet cleared it.
   */
  lemma RecoveryExactly(c: Config, s: State)
    requires WellFormed(c) && Good(c) && Reachable(Step(c), Start(c), s) && s.abandoned
    ensures RecoveryPending(s) <==> exists u :: Reachable(Step(c), s, u) && SomeoneHolds(u)
  {
    InvOnReachable(c, s);
    if RecoveryPending(s) {
      var r :| 0 <= r < |s.pcs| && (SawDied(s.pcs[r]) || (s.pcs[r].Load? && Died(s.word)));
      PendingRecovers(c, s, r);
    } else {
      forall u | Reachable(Step(c), s, u) ensures !SomeoneHolds(u) { LostForEver(c, s, u); }
    }
  }

  /** An abandoned lock whose word carries no died bit keeps that word for ever. */
  lemma UnmarkedStays(c: Config, s: State, u: State)
    requires Good(c) && Inv(c, s) && s.abandoned && !Died(s.word) && Reachable(Step(c), s, u)
    ensures u.abandoned && u.word == s.word && !SomeoneHolds(u)
  {
    forall r | 0 <= r < |s.pcs| ensures !SawDied(s.pcs[r]) { assert RecoveryAt(c, s, r); }
    LostForEver(c, s, u);
  }

  /**
   * A holder that ends before its entry is on the robust list cannot be marked: unless its own id carries
   * the died bit, the lock is lost for good.
   */
  lemma DeathBeforeListing(c: Config, s: State, t: nat, mark: Option<bv32>, u: State)
    requires WellFormed(c) && Good(c) && Reachable(Step(c), Start(c), s)
    requires t < |c.self| && Holds(s, t) && !s.pcs[t].Held? && !Died(Id(c, t))
    requires |s.pcs| == |c.self| && Enabled(s, Exit(t, mark))
    requires Reachable(Step(c), Apply(c, s, Exit(t, mark)), u)
    ensures u.abandoned && u.word == Id(c, t) && !SomeoneHolds(u)
  {
    InvOnReachable(c, s);
    StepKeepsInv(c, s, Exit(t, mark));
    UnmarkedStays(c, Apply(c, s, Exit(t, mark)), u);
  }

  /**
   * While a recoverer has yet to look, as in the program, whose main joins the first thread before it
   * creates the second, the died bit alone decides.
   */
  lemma RecoveryBeforeLook(c: Config, s: State, r: nat)
    requires WellFormed(c) && Good(c) && Reachable(Step(c), Start(c), s)
    requires s.abandoned && r < |s.pcs| && s.pcs[r].Load?
    ensures Died(s.word) <==> exists u :: Reachable(Step(c), s, u) && SomeoneHolds(u)
  {
    InvOnReachable(c, s);
    if Died(s.word) {
      PendingRecovers(c, s, r);
    } else {
      forall u | Reachable(Step(c), s, u) ensures !SomeoneHolds(u) { UnmarkedStays(c, s, u); }
    }
  }

  lemma {:induction false} ReachTooEarly(c: Config, r: nat, t: nat) returns (s: State)
    requires WellFormed(c) && c.recoverers == {r} && t < |c.self| && t != r
    ensures Reachable(Step(c), Start(c), s)
    ensures s == State(FUTEX_OWNER_DIED, true, Start(c).pcs[r := Cas][t := Gone])
  {
    ReachableRefl(Step(c), Start(c));
    s := ReachCas(c, Start(c), r);
    s := ReachCas(c, s, t);
    s := Take(c, Start(c), s, t);
    s := DieMarked(c, Start(c), s, t);
    assert s.pcs == Start(c).pcs[r := Cas][t := Gone];
  }

  /**
   * The died bit alone does not save the lock: when the one recoverer looks at the word before the owner
   * dies, the word ends up marked and yet no schedule ever lets a thread hold the lock again.
   */
  lemma LookedTooEarly(c: Config, r: nat, t: nat)
    requires WellFormed(c) && Good(c) && c.recoverers == {r} && t < |c.self| && t != r
    ensures exists s :: Reachable(Step(c), Start(c), s) && s.abandoned && Died(s.word)
                        && forall u :: Reachable(Step(c), s, u) ==> !SomeoneHolds(u)
  {
    var s := ReachTooEarly(c, r, t);
    InvOnReachable(c, s);
    assert forall u :: 0 <= u < |s.pcs| ==> !Recovering(s.pcs[u]);
    assert FUTEX_OWNER_DIED & FUTEX_OWNER_DIED != 0;
    forall u | Reachable(Step(c), s, u) ensures !SomeoneHolds(u) { LostForEver(c, s, u); }
  }

  // ----- what the wait does

  lemma FallsAsleep(c: Config, s: State, a: Action, t: nat)
    requires |s.pcs| == |c.self| && Enabled(s, a) && t < |s.pcs|
    requires !s.pcs[t].Asleep? && Apply(c, s, a).pcs[t].Asleep?
    ensures a == Action.FutexWait(t) && s.word == 0
  {}

  /**
   * The wait passes 0, so a thread that goes to sleep does so on a lock that is free, and while the
   * lock is held a waiter goes round the compare-exchange loop without sleeping.
   */
  lemma SleepsOnlyWhenFree(c: Config, s: State, a: Action, t: nat)
    requires WellFormed(c) && Good(c) && Reachable(Step(c), Start(c), s) && |s.pcs| == |c.self|
    requires Enabled(s, a) && t < |s.pcs| && !s.pcs[t].Asleep? && Apply(c, s, a).pcs[t].Asleep?
    ensures s.word == 0 && !SomeoneHolds(s) && !s.abandoned
  {
    FallsAsleep(c, s, a, t);
    InvOnReachable(c, s);
  }

  lemma OneRound(c: Config, s: State, t: nat) returns (tried: State)
    requires |s.pcs| == |c.self| && t < |s.pcs| && s.pcs[t].Cas? && s.word != 0
    ensures tried == s.(pcs := s.pcs[t := Wait]) && s == s.(pcs := s.pcs[t := Cas])
    ensures Step(c)(s, tried) && Step(c)(tried, s)
  {
    tried := Apply(c, s, CompareExchange(t, false));
    assert s.pcs[t := Cas] == s.pcs && tried.pcs[t := Cas] == s.pcs;
    assert Apply(c, tried, Action.FutexWait(t)) == s;
  }

  /** Thread t is at its compare-exchange and at its wait in turn, and nothing else changes. */
  ghost predicate GoesRound(s: State, t: nat, run: seq<State>)
    requires t < |s.pcs|
  {
    forall i :: 0 <= i < |run| ==> run[i] == s.(pcs := s.pcs[t := if i % 2 == 0 then Cas else Wait])
  }

  /**
   * While the word is not 0 a waiter can go round its loop any number of times: there are runs of every
   * length in which it never sleeps and nothing else changes.
   */
  lemma SpinsWhileHeld(c: Config, s: State, t: nat, rounds: nat)
    requires |s.pcs| == |c.self| && t < |s.pcs| && s.pcs[t].Cas? && s.word != 0
    ensures exists run :: IsRun(Step(c), run) && |run| == 2 * rounds + 1 && GoesRound(s, t, run)
  {
    var tried := OneRound(c, s, t);
    var run := TakeTurns(Step(c), s, tried, 2 * rounds + 1);
  }

  /** Steps other than the return of a wait for no reason. */
  ghost function PromptedStep(c: Config): (State, State) -> bool {
    (s: State, s': State) =>
      |s.pcs| == |c.self| && exists a :: Enabled(s, a) && !a.ReturnFromWait? && s' == Apply(c, s, a)
  }

  /** Of all threads asleep in s just thread u has gone back to its compare-exchange, and t is done waking. */
  ghost predicate OneWoken(s: State, s': State, t: nat, u: nat) {
    && |s'.pcs| == |s.pcs| && t < |s.pcs| && u < |s.pcs|
    && s.pcs[u].Asleep? && s'.pcs[u].Cas? && s'.pcs[t].Idle?
    && s'.word == s.word && s'.abandoned == s.abandoned
    && forall v :: 0 <= v < |s.pcs| && v != t && v != u ==> s'.pcs[v] == s.pcs[v]
  }

  /** A wake wakes exactly one thread when any is asleep, and none otherwise, and changes nothing else. */
  lemma WakeWakesOne(c: Config, s: State, a: Action)
    requires |s.pcs| == |c.self| && Enabled(s, a) && a.FutexWake?
    ensures Asleep in s.pcs ==> exists u :: OneWoken(s, Apply(c, s, a), a.t, u)
    ensures Asleep !in s.pcs ==> Apply(c, s, a) == s.(pcs := s.pcs[a.t := Idle])
  {
    if Asleep in s.pcs { assert OneWoken(s, Apply(c, s, a), a.t, a.sleeper.value); }
  }

  /** With no return for no reason, a thread asleep stays so in every step but a wake. */
  lemma OnlyWakesWake(c: Config, s: State, a: Action, u: nat)
    requires |s.pcs| == |c.self| && Enabled(s, a) && !a.ReturnFromWait? && a.t != u
    requires u < |s.pcs| && s.pcs[u].Asleep? && !Apply(c, s, a).pcs[u].Asleep?
    ensures a.FutexWake? && OneWoken(s, Apply(c, s, a), a.t, u)
  {}

  /** A wait that returns for no reason takes the thread back to the loop, where it can take a free lock. */
  lemma ReturnsForNoReason(c: Config, s: State, u: nat)
    requires |s.pcs| == |c.self| && u < |s.pcs| && s.pcs[u].Asleep? && s.word == 0
    ensures exists run :: IsRun(Step(c), run) && |run| == 3 && run[0] == s && Holds(run[2], u)
  {
    var s1 := Apply(c, s, ReturnFromWait(u));
    var s2 := Apply(c, s1, CompareExchange(u, false));
    assert Step(c)(s, s1) && Step(c)(s1, s2);
    assert IsRun(Step(c), [s, s1, s2]);
  }

  lemma GoneStep(c: Config, s: State, a: Action, t: nat)
    requires |s.pcs| == |c.self| && Enabled(s, a) && t < |s.pcs| && s.pcs[t].Gone?
    ensures Apply(c, s, a).pcs[t].Gone?
  {
    MoverIsAlive(s, a);
    OthersStay(c, s, a, t);
  }

  lemma MoverIsAlive(s: State, a: Action)
    requires Enabled(s, a)
    ensures !s.pcs[a.t].Gone?
  {}

  /** A step changes the place of the thread that makes it and of the one it wakes, and no other. */
  lemma OthersStay(c: Config, s: State, a: Action, t: nat)
    requires |s.pcs| == |c.self| && Enabled(s, a) && t < |s.pcs| && t != a.t
    requires a.FutexWake? && a.sleeper.Some? ==> a.sleeper.value != t
    ensures Apply(c, s, a).pcs[t] == s.pcs[t]
  {}

  /** A thread that has ended, at whatever point, takes no part any more. */
  lemma {:induction false} DeadStaysDead(c: Config, s: State, t: nat, mark: Option<bv32>, u: State)
    requires |s.pcs| == |c.self| && Enabled(s, Exit(t, mark)) && Reachable(Step(c), Apply(c, s, Exit(t, mark)), u)
    ensures t < |u.pcs| && u.pcs[t].Gone?
  {
    var s' := Apply(c, s, Exit(t, mark));
    var inv := (v: State) => t < |v.pcs| && v.pcs[t].Gone?;
    forall v, v' | inv(v) && Step(c)(v, v') ensures inv(v') {
      var a :| Enabled(v, a) && v' == Apply(c, v, a);
      GoneStep(c, v, a, t);
    }
    assert inv(s');
    InvariantOnReachable(Step(c), inv, s', u);
  }

  /** The store of 0, the wake of thread u and its compare-exchange, one after the other. */
  lemma {:induction false} HandOver(c: Config, s: State, t: nat, u: nat) returns (run: seq<State>)
    requires |s.pcs| == |c.self| && t < |s.pcs| && u < |s.pcs| && s.pcs[t].Held? && s.pcs[u].Asleep?
    ensures IsRun(PromptedStep(c), run) && |run| == 4 && run[0] == s
    ensures run[1] == s.(word := 0, pcs := s.pcs[t := Waking])
    ensures run[2] == run[1].(pcs := s.pcs[t := Idle][u := Cas])
    ensures run[3] == run[2].(word := Id(c, u), pcs := s.pcs[t := Idle][u := Link])
  {
    var s1 := Apply(c, s, StoreZero(t));
    var s2 := Apply(c, s1, Action.FutexWake(t, Some(u)));
    var s3 := Apply(c, s2, CompareExchange(u, false));
    assert s2.pcs == s.pcs[t := Idle][u := Cas];
    assert s3.pcs == s.pcs[t := Idle][u := Link];
    assert PromptedStep(c)(s, s1) && PromptedStep(c)(s1, s2) && PromptedStep(c)(s2, s3);
    run := [s, s1, s2, s3];
  }

  /**
   * A release that finds thread u asleep can pass the lock on to it in three steps, the store, the wake
   * and u's compare-exchange, without any return for no reason; nobody else moves.
   */
  lemma ReleaseHandsOver(c: Config, s: State, t: nat, u: nat)
    requires Reachable(Step(c), Start(c), s)
    requires t < |s.pcs| && u < |s.pcs| && s.pcs[t].Held? && s.pcs[u].Asleep?
    ensures exists run :: IsRun(PromptedStep(c), run) && |run| == 4 && run[0] == s && HandedOver(s, run[3], t, u)
  {
    SizeOnReachable(c, s);
    var run := HandOver(c, s, t, u);
    assert HandedOver(s, run[3], t, u);
  }

  ghost predicate HandedOver(s: State, s': State, t: nat, u: nat) {
    && |s'.pcs| == |s.pcs| && Holds(s', u) && t < |s.pcs| && s'.pcs[t].Idle?
    && forall v :: 0 <= v < |s.pcs| && v != t && v != u ==> s'.pcs[v] == s.pcs[v]
  }

  predicate AllAsleepOrGone(s: State) { forall t | 0 <= t < |s.pcs| :: s.pcs[t].Asleep? || s.pcs[t].Gone? }

  lemma AsleepCannotMove(s: State, a: Action)
    requires AllAsleepOrGone(s)
    ensures Enabled(s, a) ==> a.ReturnFromWait? || a.Exit?
  {}

  lemma ExitLeavesAsleep(c: Config, s: State, a: Action)
    requires |s.pcs| == |c.self| && AllAsleepOrGone(s) && a.Exit? && Enabled(s, a)
    ensures AllAsleepOrGone(Apply(c, s, a))
  {}

  /** Threads all asleep wait for ever, unless a wait returns for no reason. */
  lemma {:induction false} NobodyWakes(c: Config, s: State, u: State)
    requires AllAsleepOrGone(s) && Reachable(PromptedStep(c), s, u)
    ensures AllAsleepOrGone(u) && !SomeoneHolds(u)
  {
    var inv := (v: State) => AllAsleepOrGone(v);
    forall v, v' | inv(v) && PromptedStep(c)(v, v') ensures inv(v') {
      var a :| Enabled(v, a) && !a.ReturnFromWait? && v' == Apply(c, v, a);
      AsleepCannotMove(v, a);
      ExitLeavesAsleep(c, v, a);
    }
    InvariantOnReachable(PromptedStep(c), inv, s, u);
  }

  lemma {:induction false} ReachAllAsleep(c: Config) returns (s: State)
    requires WellFormed(c)
    ensures Reachable(Step(c), Start(c), s) && s.word == 0 && !s.abandoned
    ensures |s.pcs| == |c.self| && forall t :: 0 <= t < |s.pcs| ==> s.pcs[t].Asleep?
  {
    ReachableRefl(Step(c), Start(c));
    s := Start(c);
    var n := 0;
    while n < |c.self|
      invariant 0 <= n <= |c.self|
      invariant Reachable(Step(c), Start(c), s) && s.word == 0 && !s.abandoned && |s.pcs| == |c.self|
      invariant forall t :: 0 <= t < n ==> s.pcs[t].Asleep?
      invariant forall t :: n <= t < |s.pcs| ==> s.pcs[t] == Start(c).pcs[t]
    {
      s := ReachCas(c, s, n);
      s := Then(c, s, CompareExchange(n, true));
      s := Then(c, s, FutexWait(n));
      n := n + 1;
    }
  }

  /**
   * Every thread can be asleep on a lock that is free, with nobody left to call futex_wake: from there no
   * thread ever holds the lock unless a wait returns for no reason.
   */
  lemma AllAsleepOnFreeLock(c: Config)
    requires WellFormed(c)
    ensures exists s :: Reachable(Step(c), Start(c), s) && s.word == 0 && !s.abandoned
                        && |s.pcs| == |c.self| && (forall t :: 0 <= t < |s.pcs| ==> s.pcs[t].Asleep?)
                        && forall u :: Reachable(PromptedStep(c), s, u) ==> !SomeoneHolds(u)
  {
    var s := ReachAllAsleep(c);
    forall u | Reachable(PromptedStep(c), s, u) ensures !SomeoneHolds(u) { NobodyWakes(c, s, u); }
  }

  // ----- the lock word and the threads' positions, updated in place

  /** What the scheduler decides for one step: whose it is, and how what the step leaves open turns out. */
  datatype Choice = Choice(t: nat, spurious: bool, ends: bool, mark: Option<bv32>)

  predicate Alive(s: State, t: nat) { t < |s.pcs| && !s.pcs[t].Gone? }

  /** One method per atomic operation of lock_acquire, lock_release and the recovery in thread2. */
  class Lock {
    const c: Config
    const pcs: array<Pc>
    var word: bv32
    ghost var abandoned: bool

    ghost predicate Valid()
    {
      pcs.Length == |c.self|
    }

    ghost function View(): State
      reads this, pcs
    {
      State(word, abandoned, pcs[..])
    }

    constructor (c: Config)
      ensures Valid() && this.c == c && View() == Start(c) && fresh(pcs)
    {
      this.c := c;
      word, abandoned := 0, false;
      pcs := new Pc[|c.self|](t requires 0 <= t => if t in c.recoverers then Load else Idle);
    }

    /** atomic_compare_exchange_weak from 0, which may fail even when the word is 0. */
    method TryAcquire(t: nat, spurious: bool) returns (taken: bool)
      requires Valid() && Enabled(View(), CompareExchange(t, spurious))
      modifies this, pcs
      ensures Valid() && View() == Apply(c, old(View()), CompareExchange(t, spurious))
      ensures taken <==> Holding(View().pcs[t])
    {
      taken := word == 0 && !spurious;
      if taken {
        word := Id(c, t);
        pcs[t] := Link;
      } else {
        pcs[t] := Wait;
      }
    }

    /** futex_wait with 0: sleeps only when the word is 0, otherwise returns at once. */
    method WaitOnZero(t: nat)
      requires Valid() && Enabled(View(), Action.FutexWait(t))
      modifies pcs
      ensures Valid() && View() == Apply(c, old(View()), Action.FutexWait(t))
    {
      pcs[t] := if word == 0 then Asleep else Cas;
    }

    /** atomic_store of 0. */
    method Release(t: nat)
      requires Valid() && Enabled(View(), StoreZero(t))
      modifies this, pcs
      ensures Valid() && View() == Apply(c, old(View()), StoreZero(t))
    {
      word := 0;
      pcs[t] := Waking;
    }

    /** futex_wake(1): wakes a sleeping thread if there is one. */
    method Wake(t: nat) returns (sleeper: Option<nat>)
      requires Valid() && t < pcs.Length && pcs[t].Waking?
      modifies pcs
      ensures Valid() && Enabled(old(View()), Action.FutexWake(t, sleeper))
      ensures View() == Apply(c, old(View()), Action.FutexWake(t, sleeper))
      ensures sleeper.None? <==> Asleep !in old(View()).pcs
      ensures sleeper.Some? ==> OneWoken(old(View()), View(), t, sleeper.value)
    {
      var u := 0;
      while u < pcs.Length && !pcs[u].Asleep?
        invariant u <= pcs.Length && forall v :: 0 <= v < u ==> !pcs[v].Asleep?
      {
        u := u + 1;
      }
      pcs[t] := Idle;
      if u < pcs.Length {
        sleeper := Some(u);
        pcs[u] := Cas;
      } else {
        sleeper := None;
      }
    }

    method ReadWord(r: nat)
      requires Valid() && Enabled(View(), LoadWord(r))
      modifies pcs
      ensures Valid() && View() == Apply(c, old(View()), LoadWord(r))
    {
      pcs[r] := Test(word);
    }

    method TestDied(r: nat)
      requires Valid() && Enabled(View(), TestBit(r))
      modifies pcs
      ensures Valid() && View() == Apply(c, old(View()), TestBit(r))
    {
      pcs[r] := if pcs[r].val & FUTEX_OWNER_DIED != 0 then Clear else Cas;
    }

    method ClearDied(r: nat)
      requires Valid() && Enabled(View(), ClearWord(r))
      modifies this, pcs
      ensures Valid() && View() == Apply(c, old(View()), ClearWord(r))
    {
      word, abandoned := 0, false;
      pcs[r] := Cas;
    }

    /** The next of the three steps of the recovery. */
    method Recover(r: nat) returns (ghost a: Action)
      requires Valid() && r < pcs.Length && Recovering(pcs[r])
      modifies this, pcs
      ensures Valid() && a.t == r && Enabled(old(View()), a) && View() == Apply(c, old(View()), a)
    {
      if pcs[r].Load? {
        a := LoadWord(r);
        ReadWord(r);
      } else if pcs[r].Test? {
        a := TestBit(r);
        TestDied(r);
      } else {
        a := ClearWord(r);
        ClearDied(r);
      }
    }

    /** A thread ends; `mark` is what the kernel writes for a holder that had not released. */
    method End(t: nat, mark: Option<bv32>)
      requires Valid() && Enabled(View(), Exit(t, mark))
      modifies this, pcs
      ensures Valid() && View() == Apply(c, old(View()), Exit(t, mark))
    {
      if Holding(pcs[t]) {
        abandoned := true;
        if mark.Some? { word := mark.value; }
      }
      pcs[t] := Gone;
    }

    /** The steps that only move a thread on: into the loop, out of the sleep, onto the robust list. */
    method Advance(t: nat) returns (ghost a: Action)
      requires Valid() && t < pcs.Length && (pcs[t].Idle? || pcs[t].Asleep? || pcs[t].Link?)
      modifies pcs
      ensures Valid() && a.t == t && Enabled(old(View()), a) && View() == Apply(c, old(View()), a)
    {
      a := if pcs[t].Idle? then Begin(t) else if pcs[t].Asleep? then ReturnFromWait(t) else AddToList(t);
      pcs[t] := if pcs[t].Link? then Held else Cas;
    }

    /** The next step of thread t's own code. */
    method Continue(t: nat, spurious: bool) returns (ghost a: Action)
      requires Valid() && t < pcs.Length && !pcs[t].Gone?
      modifies this, pcs
      ensures Valid() && a.t == t && Enabled(old(View()), a) && View() == Apply(c, old(View()), a)
    {
      if pcs[t].Cas? {
        a := CompareExchange(t, spurious);
        var taken := TryAcquire(t, spurious);
      } else if pcs[t].Wait? {
        a := Action.FutexWait(t);
        WaitOnZero(t);
      } else if pcs[t].Held? {
        a := StoreZero(t);
        Release(t);
      } else if pcs[t].Waking? {
        var sleeper := Wake(t);
        a := Action.FutexWake(t, sleeper);
      } else if Recovering(pcs[t]) {
        a := Recover(t);
      } else {
        a := Advance(t);
      }
    }

    /** One step of the thread the scheduler picks; a thread that has ended has none. */
    method Schedule(choice: Choice)
      requires Valid() && Good(c) && Inv(c, View())
      modifies this, pcs
      ensures Valid() && Inv(c, View())
      ensures if Alive(old(View()), choice.t) then Step(c)(old(View()), View()) else View() == old(View())
    {
      var t := choice.t;
      if t < pcs.Length && !pcs[t].Gone? {
        ghost var s := View();
        ghost var a;
        if choice.ends && (choice.mark.Some? ==> pcs[t].Held? && Died(choice.mark.value)) {
          a := Exit(t, choice.mark);
          End(t, choice.mark);
        } else {
          a := Continue(t, choice.spurious);
        }
        StepKeepsInv(c, s, a);
      }
    }

    /** Whatever the scheduler decides, at every step at most one thread holds the lock and the word says so. */
    method Run(choices: seq<Choice>)
      requires Valid() && WellFormed(c) && Good(c) && View() == Start(c)
      modifies this, pcs
      ensures Valid() && Reachable(Step(c), Start(c), View())
      ensures Exclusive(View())
      ensures View().word != 0 <==> View().abandoned || SomeoneHolds(View())
    {
      StartInv(c);
      ReachableRefl(Step(c), Start(c));
      for i := 0 to |choices|
        invariant Valid() && Inv(c, View()) && Reachable(Step(c), Start(c), View())
      {
        ghost var s := View();
        Schedule(choices[i]);
        if Alive(s, choices[i].t) { ReachableStep(Step(c), Start(c), s, View()); }
      }
    }
  }
}
