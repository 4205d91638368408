/**
 * socketforkserver.c: the server accepts its clients and then polls all their sockets, answering data
 * and closing on end of file, until no client is open, three polls have timed out, or one poll has
 * reported three sockets. A closed descriptor stays in the poll set. One step is one pass of the loop.
 */
module PollServer {
  import opened Basics
  import opened Runs
  import opened Sums

  const MAX_TIMEOUTS: nat := 3

  /** The bits of revents that matter to the loop. */
  datatype Revents = Revents(pollin: bool, pollerr: bool, pollhup: bool, pollnval: bool)

  const NOTHING := Revents(false, false, false, false)
  const INPUT := Revents(true, false, false, false)
  const INVALID := Revents(false, false, false, true)

  /**
   * `events` is whether POLLIN is asked for; `closes` counts the calls of closefd on the descriptor, and
   * `got` the reads from it that returned data.
   */
  datatype PollFd = PollFd(open: bool, events: bool, closes: nat, got: nat)

  /** What poll returned, and what read returns for each socket the loop reads from. */
  datatype Poll = Poll(count: int, revents: seq<Revents>, nreads: seq<int>)

  datatype Status =
    | Polling
    | Drained                 // no client open
    | TimedOut
    | Reported(last: Poll)    // poll_count == 3
    | PollFailed

  datatype State = State(fds: seq<PollFd>, numOpen: int, timeouts: nat, replies: nat, status: Status)

  /** All n connections accepted. */
  function Start(n: nat): State {
    State(seq(n, i => PollFd(true, true, 0, 0)), n, 0, 0, Polling)
  }

  // ----- what poll can return

  function NonZero(): Revents -> nat { (r: Revents) => if r != NOTHING then 1 else 0 }

  /** A closed descriptor is always reported, and as POLLNVAL; an open one only for what was asked, or an error. */
  predicate MayReport(f: PollFd, revents: Revents) {
    if f.open then (revents.pollin ==> f.events) && !revents.pollnval else revents == INVALID
  }

  predicate MayReportAll(fds: seq<PollFd>, p: Poll)
    requires |fds| == |p.revents|
  {
    forall i | 0 <= i < |fds| :: MayReport(fds[i], p.revents[i])
  }

  predicate Possible(s: State, p: Poll) {
    && |p.revents| == |p.nreads| == |s.fds|
    && (p.count >= 0 ==>
          && p.count == Sum(p.revents, NonZero())
          && MayReportAll(s.fds, p))
  }

  // ----- one pass of the loop

  function Handle(f: PollFd, revents: Revents, nread: int): PollFd {
    if revents.pollin then (
      if nread > 0 then f.(got := f.got + 1)
      else if nread == 0 then f.(open := false, closes := f.closes + 1)
      else f)
    else if revents != NOTHING then f.(events := false)
    else f
  }

  predicate Replies(revents: Revents, nread: int) { revents.pollin && nread > 0 }

  predicate Closes(revents: Revents, nread: int) { revents.pollin && nread == 0 }

  /** The poll set after its first k entries have been handled. */
  function Handled(fds: seq<PollFd>, p: Poll, k: nat): (r: seq<PollFd>)
    requires k <= |fds| == |p.revents| == |p.nreads|
  {
    seq(|fds|, i requires 0 <= i < |fds| => if i < k then Handle(fds[i], p.revents[i], p.nreads[i]) else fds[i])
  }

  function ClosesIn(p: Poll, k: nat): nat
    requires k <= |p.revents| == |p.nreads|
  {
    if k == 0 then 0 else ClosesIn(p, k - 1) + One(Closes(p.revents[k - 1], p.nreads[k - 1]))
  }

  function RepliesIn(p: Poll, k: nat): nat
    requires k <= |p.revents| == |p.nreads|
  {
    if k == 0 then 0 else RepliesIn(p, k - 1) + One(Replies(p.revents[k - 1], p.nreads[k - 1]))
  }

  function HandleFirst(s: State, p: Poll, k: nat): State
    requires k <= |s.fds| == |p.revents| == |p.nreads|
  {
    s.(fds := Handled(s.fds, p, k), numOpen := s.numOpen - ClosesIn(p, k), replies := s.replies + RepliesIn(p, k))
  }

  function Pass(s: State, p: Poll): State
    requires Possible(s, p)
  {
    if s.numOpen <= 0 then s.(status := Drained)
    else if s.timeouts >= MAX_TIMEOUTS then s.(status := TimedOut)
    else if p.count < 0 then s.(status := PollFailed)
    else
      var t := if p.count == 0 then s.(timeouts := s.timeouts + 1) else HandleFirst(s, p, |s.fds|);
      if p.count == 3 then t.(status := Reported(p)) else t
  }

  ghost function Step(): (State, State) -> bool {
    (s: State, t: State) => s.status.Polling? && exists p :: Possible(s, p) && t == Pass(s, p)
  }

  // ----- the invariant

  function DataReads(): PollFd -> nat { (f: PollFd) => f.got }

  function OpenWeight(): PollFd -> nat { (f: PollFd) => if f.open then 1 else 0 }

  predicate FdInv(f: PollFd) { f.closes == One(!f.open) }

  predicate AllOpen(s: State) { forall i | 0 <= i < |s.fds| :: s.fds[i].open }

  ghost predicate Inv(n: nat, s: State) {
    && |s.fds| == n
    && (forall i :: 0 <= i < n ==> FdInv(s.fds[i]))
    && s.numOpen == Sum(s.fds, OpenWeight())
    && s.replies == Sum(s.fds, DataReads())
    && s.timeouts <= MAX_TIMEOUTS
    && (s.timeouts == MAX_TIMEOUTS ==> AllOpen(s))
    && match s.status
       case Drained => s.numOpen == 0
       case TimedOut => s.numOpen > 0 && s.timeouts == MAX_TIMEOUTS
       case Reported(p) => p.count == 3 && |p.revents| == n && Sum(p.revents, NonZero()) == 3
       case _ => true
  }

  /** A closed descriptor is never read from, so it is never closed again. */
  lemma HandleKeepsFd(f: PollFd, revents: Revents, nread: int)
    requires FdInv(f) && MayReport(f, revents)
    ensures FdInv(Handle(f, revents, nread))
  {}

  lemma HandleNext(fds: seq<PollFd>, p: Poll, k: nat)
    requires k < |fds| == |p.revents| == |p.nreads|
    ensures Handled(fds, p, k)[k] == fds[k]
    ensures Handled(fds, p, k + 1) == Handled(fds, p, k)[k := Handle(fds[k], p.revents[k], p.nreads[k])]
  {}

  lemma {:induction false} ClosesAreCounted(fds: seq<PollFd>, p: Poll, k: nat)
    requires k <= |fds| == |p.revents| == |p.nreads|
    requires MayReportAll(fds, p)
    ensures Sum(Handled(fds, p, k), OpenWeight()) + ClosesIn(p, k) == Sum(fds, OpenWeight())
  {
    if k == 0 {
      assert Handled(fds, p, 0) == fds;
    } else {
      ClosesAreCounted(fds, p, k - 1);
      HandleNext(fds, p, k - 1);
      OneClose(fds[k - 1], p.revents[k - 1], p.nreads[k - 1]);
      SumUpdate(Handled(fds, p, k - 1), k - 1, Handle(fds[k - 1], p.revents[k - 1], p.nreads[k - 1]), OpenWeight());
    }
  }

  /** Every reply in the loop answers a read that returned data. */
  lemma {:induction false} RepliesAreCounted(fds: seq<PollFd>, p: Poll, k: nat)
    requires k <= |fds| == |p.revents| == |p.nreads|
    ensures Sum(Handled(fds, p, k), DataReads()) == Sum(fds, DataReads()) + RepliesIn(p, k)
  {
    if k == 0 {
      assert Handled(fds, p, 0) == fds;
    } else {
      RepliesAreCounted(fds, p, k - 1);
      HandleNext(fds, p, k - 1);
      OneReply(fds[k - 1], p.revents[k - 1], p.nreads[k - 1]);
      SumUpdate(Handled(fds, p, k - 1), k - 1, Handle(fds[k - 1], p.revents[k - 1], p.nreads[k - 1]), DataReads());
    }
  }

  lemma OneReply(f: PollFd, revents: Revents, nread: int)
    ensures DataReads()(Handle(f, revents, nread)) == DataReads()(f) + One(Replies(revents, nread))
  {}

  lemma OneClose(f: PollFd, revents: Revents, nread: int)
    requires MayReport(f, revents)
    ensures OpenWeight()(Handle(f, revents, nread)) + One(Closes(revents, nread)) == OpenWeight()(f)
  {}

  /** Once a client has been closed every poll reports something. */
  lemma ClosedIsReported(s: State, p: Poll)
    requires Possible(s, p) && p.count >= 0 && !AllOpen(s)
    ensures p.count >= 1
  {
    var i :| 0 <= i < |s.fds| && !s.fds[i].open;
    SumAtLeast(p.revents, i, NonZero());
  }

  lemma PassKeepsInv(n: nat, s: State, p: Poll)
    requires Inv(n, s) && s.status.Polling? && Possible(s, p)
    ensures Inv(n, Pass(s, p))
  {
    if s.numOpen > 0 && s.timeouts < MAX_TIMEOUTS && p.count >= 0 {
      if p.count == 0 {
        if !AllOpen(s) { ClosedIsReported(s, p); }
      } else {
        ClosesAreCounted(s.fds, p, n);
        RepliesAreCounted(s.fds, p, n);
        forall i | 0 <= i < n ensures FdInv(Pass(s, p).fds[i]) {
          HandleKeepsFd(s.fds[i], p.revents[i], p.nreads[i]);
        }
      }
    }
  }

  // ----- every run

  ghost predicate RunOf(n: nat, run: seq<State>) {
    IsRun(Step(), run) && run[0] == Start(n)
  }

  lemma StartInv(n: nat)
    ensures Inv(n, Start(n))
  {
    SumOnes(Start(n).fds, OpenWeight());
    SumZero(Start(n).fds, DataReads());
  }

  lemma InvOnRun(n: nat, run: seq<State>)
    requires RunOf(n, run)
    ensures forall i :: 0 <= i < |run| ==> Inv(n, run[i])
  {
    StartInv(n);
    var inv := (s: State) => Inv(n, s);
    forall s, t | inv(s) && Step()(s, t) ensures inv(t) {
      var p :| Possible(s, p) && t == Pass(s, p);
      PassKeepsInv(n, s, p);
    }
    InvariantOnRun(Step(), inv, run);
    forall i | 0 <= i < |run| ensures Inv(n, run[i]) { assert inv(run[i]); }
  }

  /** num_open is the number of clients not yet closed, and no client is closed twice. */
  lemma OpenCount(n: nat, run: seq<State>, i: nat)
    requires RunOf(n, run) && i < |run|
    ensures |run[i].fds| == n && run[i].numOpen == Sum(run[i].fds, OpenWeight())
    ensures forall f :: f in run[i].fds ==> f.closes == One(!f.open) <= 1
  {
    InvOnRun(n, run);
    assert Inv(n, run[i]);
  }

  lemma ClosedStaysClosed(s: State, p: Poll)
    requires Possible(s, p) && !AllOpen(s)
    ensures !AllOpen(Pass(s, p)) && Pass(s, p).timeouts == s.timeouts
  {
    var i :| 0 <= i < |s.fds| && !s.fds[i].open;
    if p.count >= 0 { ClosedIsReported(s, p); }
    assert !Pass(s, p).fds[i].open;
  }

  /** Once any client has been closed the timeout branch is never taken again. */
  lemma {:induction false} NoTimeoutAfterClose(n: nat, run: seq<State>, i: nat, j: nat)
    requires RunOf(n, run) && i <= j < |run| && !AllOpen(run[i])
    ensures !AllOpen(run[j]) && run[j].timeouts == run[i].timeouts
  {
    if i < j {
      NoTimeoutAfterClose(n, run, i, j - 1);
      assert Step()(run[j - 1], run[j]);
      var p :| Possible(run[j - 1], p) && run[j] == Pass(run[j - 1], p);
      ClosedStaysClosed(run[j - 1], p);
    }
  }

  predicate Muted(s: State, k: nat) { k < |s.fds| && s.fds[k].open && !s.fds[k].events }

  /**
   * An open client that is not asked about is never asked about again, so it is never read from and never
   * closed, and num_open never reaches 0.
   */
  lemma {:induction false} MutedStaysMuted(n: nat, run: seq<State>, i: nat, j: nat, k: nat)
    requires RunOf(n, run) && i <= j < |run| && Muted(run[i], k)
    ensures Muted(run[j], k) && run[j].fds[k].got == run[i].fds[k].got && !run[j].status.Drained?
  {
    if i < j {
      MutedStaysMuted(n, run, i, j - 1, k);
      assert Step()(run[j - 1], run[j]);
      var p :| Possible(run[j - 1], p) && run[j] == Pass(run[j - 1], p);
      MutedPass(run[j - 1], p, k);
    }
    InvOnRun(n, run);
    assert Inv(n, run[j]);
    SumAtLeast(run[j].fds, k, OpenWeight());
  }

  lemma MutedPass(s: State, p: Poll, k: nat)
    requires Possible(s, p) && Muted(s, k)
    ensures Muted(Pass(s, p), k) && Pass(s, p).fds[k].got == s.fds[k].got
  {
    if p.count >= 0 { MutedNotRead(s.fds[k], p.revents[k], p.nreads[k]); }
  }

  lemma MutedNotRead(f: PollFd, revents: Revents, nread: int)
    requires f.open && !f.events && MayReport(f, revents)
    ensures Handle(f, revents, nread) == f
  {}

  // ----- the state as a function of what the polls and reads returned

  /** The run together with what poll and the reads returned in each pass. */
  ghost predicate RunWith(n: nat, run: seq<State>, polls: seq<Poll>) {
    && |run| == |polls| + 1 && run[0] == Start(n)
    && forall i :: 0 <= i < |polls| ==> PassFrom(run, polls, i)
  }

  ghost predicate PassFrom(run: seq<State>, polls: seq<Poll>, i: nat)
    requires |run| == |polls| + 1 && i < |polls|
  {
    run[i].status.Polling? && Possible(run[i], polls[i]) && run[i + 1] == Pass(run[i], polls[i])
  }

  lemma OnePollMore(n: nat, run: seq<State>, polls: seq<Poll>, p: Poll, next: State)
    requires RunWith(n, run, polls) && run[|polls|].status.Polling?
    requires Possible(run[|polls|], p) && next == Pass(run[|polls|], p)
    ensures RunWith(n, run + [next], polls + [p])
  {
    forall i | 0 <= i < |polls| + 1 ensures PassFrom(run + [next], polls + [p], i) {
      if i < |polls| { assert PassFrom(run, polls, i); }
    }
  }

  lemma {:induction false} PollsOfRun(n: nat, run: seq<State>) returns (polls: seq<Poll>)
    requires RunOf(n, run)
    ensures RunWith(n, run, polls)
  {
    var last := |run| - 1;
    if last == 0 {
      polls := [];
    } else {
      var shorter := run[..last];
      assert IsRun(Step(), shorter) && shorter[0] == run[0];
      var earlier := PollsOfRun(n, shorter);
      assert Step()(run[last - 1], run[last]);
      var p :| Possible(run[last - 1], p) && run[last] == Pass(run[last - 1], p);
      OnePollMore(n, shorter, earlier, p, run[last]);
      polls := earlier + [p];
      assert shorter + [run[last]] == run;
    }
  }

  lemma RunWithIsRun(n: nat, run: seq<State>, polls: seq<Poll>)
    requires RunWith(n, run, polls)
    ensures RunOf(n, run)
  {
    forall i {:trigger run[i]} | 0 < i < |run| ensures Step()(run[i - 1], run[i]) {
      assert PassFrom(run, polls, i - 1);
    }
  }

  /** The loop goes on to poll, and the poll reports something. */
  predicate LooksAt(s: State, p: Poll) { s.numOpen > 0 && s.timeouts < 3 && p.count > 0 }

  predicate Covers(p: Poll, k: nat) { k < |p.revents| == |p.nreads| }

  predicate DataFrom(s: State, p: Poll, k: nat) {
    LooksAt(s, p) && Covers(p, k) && p.revents[k].pollin && p.nreads[k] > 0
  }

  predicate EofFrom(s: State, p: Poll, k: nat) {
    LooksAt(s, p) && Covers(p, k) && p.revents[k].pollin && p.nreads[k] == 0
  }

  predicate ErrorFrom(s: State, p: Poll, k: nat) {
    && LooksAt(s, p) && Covers(p, k) && !p.revents[k].pollin
    && (p.revents[k].pollerr || p.revents[k].pollhup || p.revents[k].pollnval)
  }

  predicate TimesOut(s: State, p: Poll) { s.numOpen > 0 && s.timeouts < 3 && p.count == 0 }

  /** What one pass makes of client k and of the timeouts. */
  lemma PassOnClient(s: State, p: Poll, k: nat)
    requires Possible(s, p) && k < |s.fds|
    ensures var t := Pass(s, p);
            && |t.fds| == |s.fds|
            && (t.fds[k].open <==> s.fds[k].open && !EofFrom(s, p, k))
            && (t.fds[k].events <==> s.fds[k].events && !ErrorFrom(s, p, k))
            && t.fds[k].got == s.fds[k].got + One(DataFrom(s, p, k))
            && t.timeouts == s.timeouts + One(TimesOut(s, p))
  {}

  ghost predicate Happened(event: (State, Poll) -> bool, run: seq<State>, polls: seq<Poll>, j: nat) {
    exists i :: 0 <= i < j && InRun(run, polls, i) && event(run[i], polls[i])
  }

  ghost function PassesWith(event: (State, Poll) -> bool, run: seq<State>, polls: seq<Poll>, j: nat): set<nat> {
    set i: nat | i < j && InRun(run, polls, i) && event(run[i], polls[i])
  }

  predicate InRun(run: seq<State>, polls: seq<Poll>, i: nat) { i < |run| && i < |polls| }

  lemma OnePassMore(event: (State, Poll) -> bool, run: seq<State>, polls: seq<Poll>, j: nat)
    requires InRun(run, polls, j)
    ensures |PassesWith(event, run, polls, j + 1)| == |PassesWith(event, run, polls, j)| + One(event(run[j], polls[j]))
  {
    var before, after := PassesWith(event, run, polls, j), PassesWith(event, run, polls, j + 1);
    if event(run[j], polls[j]) { assert after == before + {j}; } else { assert after == before; }
  }

  lemma HappenedByNow(event: (State, Poll) -> bool, run: seq<State>, polls: seq<Poll>, j: nat)
    requires InRun(run, polls, j)
    ensures Happened(event, run, polls, j + 1) <==> Happened(event, run, polls, j) || event(run[j], polls[j])
  {}

  /**
   * The state of the loop says exactly what has happened. In every state of every run a client is closed if
   * and only if a read from it has returned 0; it is no longer asked about if and only if it has been
   * reported without input; it has been answered once for each read that returned data; and `timeouts` is
   * the number of polls that returned 0, at most 3.
   */
  lemma {:induction false} HistoryExactly(n: nat, run: seq<State>, polls: seq<Poll>, j: nat, k: nat)
    requires RunWith(n, run, polls) && j < |run| && k < n
    ensures |run[j].fds| == n
    ensures !run[j].fds[k].open <==> Happened((s, p) => EofFrom(s, p, k), run, polls, j)
    ensures !run[j].fds[k].events <==> Happened((s, p) => ErrorFrom(s, p, k), run, polls, j)
    ensures run[j].fds[k].got == |PassesWith((s, p) => DataFrom(s, p, k), run, polls, j)|
    ensures run[j].timeouts == |PassesWith((s, p) => TimesOut(s, p), run, polls, j)| <= 3
  {
    var eof, error, data := (s, p) => EofFrom(s, p, k), (s, p) => ErrorFrom(s, p, k), (s, p) => DataFrom(s, p, k);
    var timesOut := (s, p) => TimesOut(s, p);
    if j == 0 {
      assert PassesWith(data, run, polls, 0) == {} && PassesWith(timesOut, run, polls, 0) == {};
    } else {
      HistoryExactly(n, run, polls, j - 1, k);
      assert PassFrom(run, polls, j - 1);
      PassOnClient(run[j - 1], polls[j - 1], k);
      HappenedByNow(eof, run, polls, j - 1);
      HappenedByNow(error, run, polls, j - 1);
      OnePassMore(data, run, polls, j - 1);
      OnePassMore(timesOut, run, polls, j - 1);
    }
  }

  /** An open client reported without input is never read from, answered or closed again. */
  lemma ErrorMutes(n: nat, run: seq<State>, polls: seq<Poll>, i: nat, j: nat, k: nat)
    requires RunWith(n, run, polls) && i < j < |run| && k < |run[i].fds|
    requires run[i].fds[k].open && ErrorFrom(run[i], polls[i], k)
    ensures Muted(run[j], k) && run[j].fds[k].got == run[i].fds[k].got && !run[j].status.Drained?
  {
    assert PassFrom(run, polls, i);
    PassOnClient(run[i], polls[i], k);
    RunWithIsRun(n, run, polls);
    MutedStaysMuted(n, run, i + 1, j, k);
  }

  /** How each pass leaves the loop, or goes on. */
  lemma EndsExactly(n: nat, run: seq<State>, polls: seq<Poll>, i: nat)
    requires RunWith(n, run, polls) && i < |polls|
    ensures run[i + 1].status.Drained? <==> forall k :: 0 <= k < |run[i].fds| ==> !run[i].fds[k].open
    ensures run[i + 1].status.TimedOut? <==> run[i].timeouts == 3 && run[i].numOpen > 0
    ensures run[i + 1].status.PollFailed? <==> run[i].timeouts < 3 && run[i].numOpen > 0 && polls[i].count < 0
    ensures run[i + 1].status.Reported? <==> run[i].timeouts < 3 && run[i].numOpen > 0 && polls[i].count == 3
  {
    RunWithIsRun(n, run, polls);
    InvOnRun(n, run);
    assert PassFrom(run, polls, i) && Inv(n, run[i]);
    if run[i].numOpen > 0 {
      var k := SumWitness(run[i].fds, OpenWeight());
    } else if k :| 0 <= k < n && run[i].fds[k].open {
      SumAtLeast(run[i].fds, k, OpenWeight());
    }
  }

  // ----- replies

  /**
   * In every state of every run the replies sent are the reads that returned data, and a client that has
   * been closed is never read from or answered again.
   */
  lemma OneReplyPerRead(n: nat, run: seq<State>, i: nat, j: nat, k: nat)
    requires RunOf(n, run) && i <= j < |run| && k < n
    ensures run[i].replies == Sum(run[i].fds, DataReads()) <= run[j].replies
    ensures |run[i].fds| == |run[j].fds| == n && run[i].fds[k].got <= run[j].fds[k].got
    ensures !run[i].fds[k].open ==> !run[j].fds[k].open && run[j].fds[k].got == run[i].fds[k].got
  {
    InvOnRun(n, run);
    assert Inv(n, run[i]) && Inv(n, run[j]);
    ReadsOnlyGrow(n, run, i, j, k);
  }

  /** Of the client in slot k and of the replies: neither count falls, and a closed client's stays. */
  predicate ReadsGrow(k: nat, s: State, t: State) {
    && k < |s.fds| == |t.fds|
    && s.replies <= t.replies && s.fds[k].got <= t.fds[k].got
    && (!s.fds[k].open ==> !t.fds[k].open && t.fds[k].got == s.fds[k].got)
  }

  lemma {:induction false} ReadsOnlyGrow(n: nat, run: seq<State>, i: nat, j: nat, k: nat)
    requires RunOf(n, run) && i <= j < |run| && k < |run[i].fds|
    ensures ReadsGrow(k, run[i], run[j])
  {
    if i < j {
      ReadsOnlyGrow(n, run, i, j - 1, k);
      assert Step()(run[j - 1], run[j]);
      var p :| Possible(run[j - 1], p) && run[j] == Pass(run[j - 1], p);
      PassReads(run[j - 1], p, k);
    }
  }

  lemma PassReads(s: State, p: Poll, k: nat)
    requires Possible(s, p) && k < |s.fds|
    ensures ReadsGrow(k, s, Pass(s, p))
  {
    if p.count >= 0 { assert MayReport(s.fds[k], p.revents[k]); }
  }

  // ----- how the loop ends

  /** All n entries have been reported when the last open client is closed. */
  lemma LastCloseReportsAll(n: nat, s: State, p: Poll)
    requires Inv(n, s) && s.status.Polling? && s.numOpen > 0 && s.timeouts < MAX_TIMEOUTS
    requires Possible(s, p) && p.count >= 0 && Pass(s, p).numOpen <= 0
    ensures p.count == n
  {
    PassKeepsInv(n, s, p);
    var t := Pass(s, p);
    forall i | 0 <= i < n ensures NonZero()(p.revents[i]) == 1 {
      SumAtLeast(t.fds, i, OpenWeight());
      assert !t.fds[i].open;
    }
    SumOnes(p.revents, NonZero());
  }

  ghost predicate CanDrain(n: nat) { exists s :: Reachable(Step(), Start(n), s) && s.status.Drained? }

  lemma ThreeNeverDrain()
    ensures !CanDrain(3)
  {
    StartInv(3);
    var inv := (s: State) => Inv(3, s) && !s.status.Drained? && (s.status.Polling? ==> s.numOpen > 0);
    forall s, t | inv(s) && Step()(s, t) ensures inv(t) {
      var p :| Possible(s, p) && t == Pass(s, p);
      PassKeepsInv(3, s, p);
      if s.timeouts < MAX_TIMEOUTS && p.count >= 0 && t.numOpen <= 0 { LastCloseReportsAll(3, s, p); }
    }
    forall s | Reachable(Step(), Start(3), s) ensures !s.status.Drained? {
      InvariantOnReachable(Step(), inv, Start(3), s);
    }
  }

  lemma OthersCanDrain(n: nat)
    requires n != 3
    ensures CanDrain(n)
  {
    var s := Start(n);
    StartInv(n);
    ReachableRefl(Step(), s);
    if n > 0 {
      var p := Poll(n, seq(n, i => INPUT), seq(n, i => 0));
      SumOnes(p.revents, NonZero());
      var t := Pass(s, p);
      assert Possible(s, p) && Step()(s, t);
      ReachableStep(Step(), s, s, t);
      PassKeepsInv(n, s, p);
      SumZero(t.fds, OpenWeight());
      s := t;
    }
    var q := Poll(-1, seq(n, i => INPUT), seq(n, i => 0));
    assert Possible(s, q) && Pass(s, q) == s.(status := Drained);
    assert Step()(s, s.(status := Drained));
    ReachableStep(Step(), Start(n), s, s.(status := Drained));
  }

  /**
   * The loop condition num_open > 0 can end the loop for any number of clients but three: with three,
   * the poll that lets the last one be closed has reported all three, and the test of poll_count comes first.
   */
  lemma DrainsExactly(n: nat)
    ensures CanDrain(n) <==> n != 3
  {
    if n == 3 { ThreeNeverDrain(); } else { OthersCanDrain(n); }
  }

  /**
   * With the three clients of the program the loop ends in one of three ways only: poll failed; or it
   * timed out three times and no client was ever closed; or the last poll reported all three.
   */
  lemma HowTheLoopEnds(run: seq<State>)
    requires RunOf(3, run) && !run[|run| - 1].status.Polling?
    ensures var last := run[|run| - 1];
            match last.status
            case TimedOut => last.timeouts == 3 && AllOpen(last) && last.numOpen == 3
            case Reported(p) => |p.revents| == 3 && forall i :: 0 <= i < 3 ==> p.revents[i] != NOTHING
            case PollFailed => true
            case _ => false
  {
    var last := run[|run| - 1];
    InvOnRun(3, run);
    assert Inv(3, last);
    match last.status
    case TimedOut => SumOnes(last.fds, OpenWeight());
    case Reported(p) =>
      forall i | 0 <= i < 3 ensures p.revents[i] != NOTHING {
        if p.revents[i] == NOTHING { FullSumNoZero(p.revents, i); }
      }
    case Drained =>
      DrainedMeansCanDrain(run);
      ThreeNeverDrain();
    case _ =>
  }

  lemma DrainedMeansCanDrain(run: seq<State>)
    requires RunOf(3, run) && run[|run| - 1].status.Drained?
    ensures CanDrain(3)
  {
    var last := run[|run| - 1];
    assert Reachable(Step(), Start(3), last);
  }

  lemma {:induction false} FullSumNoZero(r: seq<Revents>, i: nat)
    requires i < |r| && r[i] == NOTHING
    ensures Sum(r, NonZero()) < |r|
  {
    var last := |r| - 1;
    assert Sum(r, NonZero()) == Sum(r[..last], NonZero()) + NonZero()(r[last]);
    if i < last {
      FullSumNoZero(r[..last], i);
    } else {
      SumAtMost(r[..last]);
    }
  }

  lemma {:induction false} SumAtMost(r: seq<Revents>)
    ensures Sum(r, NonZero()) <= |r|
  {
    if r != [] {
      var last := |r| - 1;
      assert Sum(r, NonZero()) == Sum(r[..last], NonZero()) + NonZero()(r[last]);
      SumAtMost(r[..last]);
    }
  }

  // ----- there is no measure

  /** The poll reports no client that is open. */
  predicate ReportsNoOpen(s: State, p: Poll)
    requires Possible(s, p)
  {
    forall i | 0 <= i < |s.fds| :: s.fds[i].open ==> p.revents[i] == NOTHING
  }

  predicate Continues(s: State) { s.status.Polling? && s.numOpen > 0 && s.timeouts < MAX_TIMEOUTS }

  /** A pass over such a poll after which the loop goes on, with the same count of timeouts. */
  ghost function IdleStep(): (State, State) -> bool {
    (s: State, t: State) => s.status.Polling? && Continues(t) && t.timeouts == s.timeouts
      && exists p :: Possible(s, p) && ReportsNoOpen(s, p) && t == Pass(s, p)
  }

  ghost predicate CanSpinFor(s: State, passes: nat) {
    exists run :: IsRun(IdleStep(), run) && |run| == passes + 1 && run[0] == s
  }

  /** The loop can make any number of such passes. */
  ghost predicate CanSpin(s: State) { forall passes: nat :: CanSpinFor(s, passes) }

  /** Only the closed descriptors are reported. */
  function QuietPoll(s: State): Poll {
    var revents := seq(|s.fds|, i requires 0 <= i < |s.fds| => if s.fds[i].open then NOTHING else INVALID);
    Poll(Sum(revents, NonZero()), revents, seq(|s.fds|, i => 0))
  }

  /** What is reported and what is open make up the whole set. */
  lemma {:induction false} ReportedAreClosed(fds: seq<PollFd>, revents: seq<Revents>)
    requires |fds| == |revents|
    requires forall i :: 0 <= i < |fds| ==> (revents[i] == NOTHING <==> fds[i].open)
    ensures Sum(revents, NonZero()) + Sum(fds, OpenWeight()) == |fds|
  {
    if fds != [] { ReportedAreClosed(fds[..|fds| - 1], revents[..|fds| - 1]); }
  }

  lemma {:induction false} NothingRead(p: Poll, k: nat)
    requires k <= |p.revents| == |p.nreads|
    requires forall i :: 0 <= i < k ==> !p.revents[i].pollin
    ensures ClosesIn(p, k) == 0 && RepliesIn(p, k) == 0
  {
    if k > 0 { NothingRead(p, k - 1); }
  }

  /** A poll that reports no open client reports all the closed ones, and nothing is read. */
  lemma IdlePoll(n: nat, s: State, p: Poll)
    requires Inv(n, s) && Possible(s, p) && p.count >= 0 && ReportsNoOpen(s, p)
    ensures p.count == n - s.numOpen
    ensures ClosesIn(p, n) == 0 && RepliesIn(p, n) == 0
  {
    forall i | 0 <= i < n ensures (p.revents[i] == NOTHING <==> s.fds[i].open) && !p.revents[i].pollin {
      assert MayReport(s.fds[i], p.revents[i]);
    }
    ReportedAreClosed(s.fds, p.revents);
    NothingRead(p, n);
  }

  lemma QuietIsPossible(n: nat, s: State)
    requires Inv(n, s)
    ensures Possible(s, QuietPoll(s)) && ReportsNoOpen(s, QuietPoll(s))
  {}

  lemma IdleStepTaken(n: nat, s: State) returns (t: State)
    requires Inv(n, s) && Continues(s) && n - s.numOpen !in {0, 3}
    ensures IdleStep()(s, t) && Inv(n, t) && Continues(t) && t.numOpen == s.numOpen
  {
    var p := QuietPoll(s);
    QuietIsPossible(n, s);
    IdlePoll(n, s, p);
    t := Pass(s, p);
    PassKeepsInv(n, s, p);
  }

  lemma {:induction false} SpinFor(n: nat, s: State, k: nat) returns (run: seq<State>)
    requires Inv(n, s) && Continues(s) && n - s.numOpen !in {0, 3}
    ensures IsRun(IdleStep(), run) && |run| == k + 1 && run[0] == s
  {
    run := [s];
    var last := s;
    while |run| < k + 1
      invariant IsRun(IdleStep(), run) && |run| <= k + 1 && run[0] == s && run[|run| - 1] == last
      invariant Inv(n, last) && Continues(last) && last.numOpen == s.numOpen
      decreases k + 1 - |run|
    {
      var next := IdleStepTaken(n, last);
      run, last := run + [next], next;
    }
  }

  /**
   * The loop can go round for ever on closed descriptors alone if and only if the number of closed
   * clients is neither 0, when such a poll times out, nor 3, when it ends the loop.
   */
  lemma SpinsExactly(n: nat, s: State)
    requires Reachable(Step(), Start(n), s) && Continues(s)
    ensures CanSpin(s) <==> n - s.numOpen !in {0, 3}
  {
    InvOnReachable(n, s);
    if n - s.numOpen !in {0, 3} {
      forall passes: nat ensures CanSpinFor(s, passes) {
        var run := SpinFor(n, s, passes);
      }
    } else if CanSpin(s) {
      assert CanSpinFor(s, 1);
      var run :| IsRun(IdleStep(), run) && |run| == 1 + 1 && run[0] == s;
      assert IdleStep()(run[0], run[1]);
      var p :| Possible(s, p) && ReportsNoOpen(s, p) && run[1] == Pass(s, p);
      IdlePoll(n, s, p);
    }
  }

  lemma InvOnReachable(n: nat, s: State)
    requires Reachable(Step(), Start(n), s)
    ensures Inv(n, s)
  {
    var run :| IsRun(Step(), run) && run[0] == Start(n) && run[|run| - 1] == s;
    InvOnRun(n, run);
  }

  /** The poll in which the first client, and no other, has sent end of file. */
  function FirstHangsUp(n: nat): Poll {
    Poll(1, seq(n, i => if i == 0 then INPUT else NOTHING), seq(n, i => 0))
  }

  lemma {:induction false} FirstIsReported(r: seq<Revents>)
    requires |r| > 0 && r[0] == INPUT && forall i :: 0 < i < |r| ==> r[i] == NOTHING
    ensures Sum(r, NonZero()) == 1
  {
    if |r| > 1 { FirstIsReported(r[..|r| - 1]); } else { assert r[..0] == []; }
  }

  lemma {:induction false} FirstCloses(n: nat, k: nat)
    requires 0 < k <= n
    ensures ClosesIn(FirstHangsUp(n), k) == 1
  {
    if k > 1 { FirstCloses(n, k - 1); } else { assert ClosesIn(FirstHangsUp(n), 0) == 0; }
  }

  lemma AfterFirstHangsUp(n: nat) returns (s: State)
    requires n >= 2
    ensures Reachable(Step(), Start(n), s) && Continues(s) && s.numOpen == n - 1
  {
    var p := FirstHangsUp(n);
    FirstIsReported(p.revents);
    assert Possible(Start(n), p);
    s := Pass(Start(n), p);
    FirstCloses(n, n);
    ReachableRefl(Step(), Start(n));
    assert Step()(Start(n), s);
    ReachableStep(Step(), Start(n), Start(n), s);
  }

  /** A state from which the loop can spin for ever can be reached if and only if there are two clients or more. */
  lemma SpinReachableExactly(n: nat)
    ensures (exists s :: Reachable(Step(), Start(n), s) && Continues(s) && CanSpin(s)) <==> n >= 2
  {
    if n >= 2 {
      var s := AfterFirstHangsUp(n);
      SpinsExactly(n, s);
    } else {
      forall s | Reachable(Step(), Start(n), s) && Continues(s) ensures !CanSpin(s) {
        InvOnReachable(n, s);
        OpenAtMost(s.fds);
        SpinsExactly(n, s);
      }
    }
  }

  lemma {:induction false} OpenAtMost(fds: seq<PollFd>)
    ensures Sum(fds, OpenWeight()) <= |fds|
  {
    if fds != [] { OpenAtMost(fds[..|fds| - 1]); }
  }

  // ----- but there is a bound on everything else

  /** Changes a descriptor can still go through: muted once, closed once. */
  function ChangesLeft(): PollFd -> nat {
    (f: PollFd) => (if f.open then 2 else 0) + (if f.events then 1 else 0)
  }

  function Budget(s: State): nat {
    Sum(s.fds, ChangesLeft()) + if s.timeouts <= MAX_TIMEOUTS then MAX_TIMEOUTS - s.timeouts else 0
  }

  lemma HandleSpends(f: PollFd, revents: Revents, nread: int)
    requires MayReport(f, revents)
    ensures ChangesLeft()(Handle(f, revents, nread)) <= ChangesLeft()(f)
    ensures ChangesLeft()(Handle(f, revents, nread)) == ChangesLeft()(f) ==>
      Handle(f, revents, nread).(got := f.got) == f && !Closes(revents, nread)
  {}

  /** The two poll sets differ at most in what has been read. */
  predicate SameButReads(a: seq<PollFd>, b: seq<PollFd>) {
    |a| == |b| && forall i | 0 <= i < |a| :: b[i].(got := a[i].got) == a[i]
  }

  lemma {:induction false} NoneClosed(p: Poll, k: nat)
    requires k <= |p.revents| == |p.nreads|
    requires forall i :: 0 <= i < k ==> !Closes(p.revents[i], p.nreads[i])
    ensures ClosesIn(p, k) == 0
  {
    if k > 0 { NoneClosed(p, k - 1); }
  }

  lemma HandledSpends(fds: seq<PollFd>, p: Poll)
    requires |fds| == |p.revents| == |p.nreads| && MayReportAll(fds, p)
    ensures var after := Handled(fds, p, |fds|);
            && Sum(after, ChangesLeft()) <= Sum(fds, ChangesLeft())
            && (Sum(after, ChangesLeft()) == Sum(fds, ChangesLeft()) ==>
                  SameButReads(fds, after) && ClosesIn(p, |fds|) == 0)
  {
    var after := Handled(fds, p, |fds|);
    forall i | 0 <= i < |fds| ensures ChangesLeft()(after[i]) <= ChangesLeft()(fds[i]) {
      HandleSpends(fds[i], p.revents[i], p.nreads[i]);
    }
    SumNoMore(after, fds, ChangesLeft());
    if Sum(after, ChangesLeft()) == Sum(fds, ChangesLeft()) {
      forall i | 0 <= i < |fds| ensures after[i].(got := fds[i].got) == fds[i] && !Closes(p.revents[i], p.nreads[i]) {
        HandleSpends(fds[i], p.revents[i], p.nreads[i]);
      }
      NoneClosed(p, |fds|);
    }
  }

  /**
   * A pass that goes on polling either uses up some of a budget fixed at the start, or leaves every
   * descriptor and count as it was, at most reading data and sending replies.
   */
  lemma PassSpendsOrIdles(n: nat, s: State, p: Poll)
    requires Inv(n, s) && s.status.Polling? && Possible(s, p) && Pass(s, p).status.Polling?
    ensures var t := Pass(s, p);
            || Budget(t) < Budget(s)
            || (SameButReads(s.fds, t.fds) && t == s.(fds := t.fds, replies := t.replies))
  {
    if p.count > 0 { HandledSpends(s.fds, p); }
  }

  // ----- the server's own variables, updated in place

  class Server {
    const fds: array<PollFd>
    var numOpen: int
    var timeouts: nat
    var replies: nat
    var status: Status

    ghost function View(): State
      reads this, fds
    {
      State(fds[..], numOpen, timeouts, replies, status)
    }

    /** The state after the accept loop. */
    constructor (n: nat)
      ensures View() == Start(n) && fresh(fds)
    {
      fds := new PollFd[n](i => PollFd(true, true, 0, 0));
      numOpen, timeouts, replies, status := n, 0, 0, Polling;
    }

    /** The handling of one poll that reported something. */
    method HandleAll(p: Poll)
      requires Possible(View(), p) && p.count >= 0
      modifies this, fds
      ensures View() == HandleFirst(old(View()), p, fds.Length)
    {
      ghost var was := fds[..];
      assert Handled(was, p, 0) == was;
      for i := 0 to fds.Length
        invariant fds[..] == Handled(was, p, i)
        invariant numOpen == old(numOpen) - ClosesIn(p, i) && replies == old(replies) + RepliesIn(p, i)
        invariant timeouts == old(timeouts) && status == old(status)
      {
        HandleNext(was, p, i);
        assert fds[i] == was[i];
        if p.revents[i].pollin {
          if p.nreads[i] > 0 {
            fds[i] := fds[i].(got := fds[i].got + 1);
            replies := replies + 1;
          } else if p.nreads[i] == 0 {
            fds[i] := fds[i].(open := false, closes := fds[i].closes + 1);
            numOpen := numOpen - 1;
          }
        } else if p.revents[i] != NOTHING {
          fds[i] := fds[i].(events := false);
        }
      }
    }

    /** One pass of the poll loop. */
    method PollOnce(p: Poll)
      requires status.Polling? && Possible(View(), p)
      modifies this, fds
      ensures View() == Pass(old(View()), p)
    {
      if !(numOpen > 0 && timeouts < MAX_TIMEOUTS) {
        status := if numOpen <= 0 then Drained else TimedOut;
        return;
      }
      if p.count < 0 {
        status := PollFailed;
        return;
      } else if p.count == 0 {
        timeouts := timeouts + 1;
      } else {
        HandleAll(p);
      }
      if p.count == 3 { status := Reported(p); }
    }
  }
}
