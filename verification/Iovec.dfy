/**
 * iovec_demo.c: writev gathers its segments into one stream, readv scatters a stream over windows of
 * one or more buffers, filling each window before it goes on to the next.
 */
module Iovec {
  import opened Basics
  import opened Sums

  /** `len` bytes of a buffer from `off` on. */
  datatype Window = Window(base: array<char>, off: nat, len: nat)

  /** The stream writev makes of its segments. */
  function Gather(segments: seq<string>): string {
    if segments == [] then "" else Gather(segments[..|segments| - 1]) + segments[|segments| - 1]
  }

  function Bytes(): string -> nat { (segment: string) => |segment| }

  function Room(): Window -> nat { (w: Window) => w.len }

  /** The stream is as long as the segments together. */
  lemma {:induction false} GatherLength(segments: seq<string>)
    ensures |Gather(segments)| == Sum(segments, Bytes())
  {
    if segments != [] { GatherLength(segments[..|segments| - 1]); }
  }

  /** Byte k of segment i is in the stream behind all of the segments before it. */
  lemma {:induction false} GatherAt(segments: seq<string>, i: nat, k: nat)
    requires i < |segments| && k < |segments[i]|
    ensures Sum(segments[..i], Bytes()) + k < |Gather(segments)|
    ensures Gather(segments)[Sum(segments[..i], Bytes()) + k] == segments[i][k]
  {
    var last := |segments| - 1;
    var before := segments[..last];
    if i == last {
      GatherLength(before);
    } else {
      GatherAt(before, i, k);
      assert before[..i] == segments[..i];
    }
  }

  /** Where window i begins in the stream. */
  function StartOf(iov: seq<Window>, i: nat): nat
    requires i <= |iov|
  {
    if i == 0 then 0 else StartOf(iov, i - 1) + iov[i - 1].len
  }

  lemma {:induction false} StartIsSum(iov: seq<Window>, i: nat)
    requires i <= |iov|
    ensures StartOf(iov, i) == Sum(iov[..i], Room())
  {
    if i > 0 {
      StartIsSum(iov, i - 1);
      assert iov[..i][..i - 1] == iov[..i - 1];
    }
  }

  function Total(iov: seq<Window>): nat { StartOf(iov, |iov|) }

  lemma TotalIsSum(iov: seq<Window>)
    ensures Total(iov) == Sum(iov, Room())
  {
    StartIsSum(iov, |iov|);
    assert iov[..|iov|] == iov;
  }

  /** The part of the stream that goes to window i. */
  function Part(data: string, iov: seq<Window>, i: nat): (p: string)
    requires i < |iov|
    ensures |p| <= iov[i].len
  {
    data[Min(StartOf(iov, i), |data|)..Min(StartOf(iov, i + 1), |data|)]
  }

  predicate InBuffer(w: Window) { w.off + w.len <= w.base.Length }

  /** Cell k of the array is one of the window's. */
  predicate InWindow(w: Window, base: array<char>, k: int) { w.base == base && w.off <= k < w.off + w.len }

  ghost predicate InNoWindow(iov: seq<Window>, base: array<char>, k: int) {
    forall i :: 0 <= i < |iov| ==> !InWindow(iov[i], base, k)
  }

  /** No cell is in both windows. */
  predicate Apart(v: Window, w: Window) {
    v.base != w.base || v.off + v.len <= w.off || w.off + w.len <= v.off
  }

  ghost predicate Valid(iov: seq<Window>) {
    && (forall i :: 0 <= i < |iov| ==> InBuffer(iov[i]))
    && (forall i, j :: 0 <= i < j < |iov| ==> Apart(iov[i], iov[j]))
  }

  ghost function Bases(iov: seq<Window>): set<object> { set i | 0 <= i < |iov| :: iov[i].base }

  function Contents(w: Window): string
    requires InBuffer(w)
    reads w.base
  {
    w.base[w.off..w.off + w.len]
  }

  /** Copies as much of the data as fits to the front of one window and changes nothing else. */
  method Fill(w: Window, data: string) returns (n: nat)
    requires InBuffer(w)
    modifies w.base
    ensures n == Min(|data|, w.len)
    ensures w.base[w.off..w.off + n] == data[..n]
    ensures forall k :: 0 <= k < w.base.Length && !(w.off <= k < w.off + n) ==> w.base[k] == old(w.base[k])
  {
    n := 0;
    while n < |data| && n < w.len
      invariant n <= |data| && n <= w.len
      invariant w.base[w.off..w.off + n] == data[..n]
      invariant forall k :: 0 <= k < w.base.Length && !(w.off <= k < w.off + n) ==> w.base[k] == old(w.base[k])
    {
      w.base[w.off + n] := data[n];
      n := n + 1;
    }
  }

  /** Filling window i of several leaves the others alone. */
  method FillWindow(iov: seq<Window>, i: nat, data: string) returns (n: nat)
    requires Valid(iov) && i < |iov|
    modifies iov[i].base
    ensures n == Min(|data|, iov[i].len)
    ensures Contents(iov[i]) == data[..n] + old(Contents(iov[i]))[n..]
    ensures forall j :: 0 <= j < |iov| && j != i ==> Contents(iov[j]) == old(Contents(iov[j]))
    ensures forall k :: 0 <= k < iov[i].base.Length && !InWindow(iov[i], iov[i].base, k) ==>
      iov[i].base[k] == old(iov[i].base[k])
  {
    n := Fill(iov[i], data);
    forall j | 0 <= j < |iov| && j != i ensures Contents(iov[j]) == old(Contents(iov[j])) {
      assert Apart(iov[i], iov[j]) || Apart(iov[j], iov[i]);
    }
  }

  /** What every window holds. */
  ghost function Snapshot(iov: seq<Window>): (r: seq<string>)
    requires Valid(iov)
    reads Bases(iov)
    ensures |r| == |iov| && forall i :: 0 <= i < |iov| ==> r[i] == Contents(iov[i])
  {
    seq(|iov|, i requires 0 <= i < |iov| reads Bases(iov) => Contents(iov[i]))
  }

  /** The whole of every buffer that has a window in it. */
  ghost function Buffers(iov: seq<Window>): (r: seq<string>)
    reads Bases(iov)
    ensures |r| == |iov| && forall i :: 0 <= i < |iov| ==> r[i] == iov[i].base[..]
  {
    seq(|iov|, i requires 0 <= i < |iov| reads Bases(iov) => iov[i].base[..])
  }

  ghost predicate SameBut(iov: seq<Window>, j: nat, was: string, now: string)
    requires j < |iov|
  {
    |was| == |now| && forall k :: 0 <= k < |was| && InNoWindow(iov, iov[j].base, k) ==> now[k] == was[k]
  }

  /** No cell outside of all windows has changed. */
  ghost predicate SameOutside(iov: seq<Window>, was: seq<string>, now: seq<string>) {
    |was| == |now| == |iov| && forall j :: 0 <= j < |iov| ==> SameBut(iov, j, was[j], now[j])
  }

  lemma SameOutsideTwice(iov: seq<Window>, a: seq<string>, b: seq<string>, c: seq<string>)
    requires SameOutside(iov, a, b) && SameOutside(iov, b, c)
    ensures SameOutside(iov, a, c)
  {
    forall j | 0 <= j < |iov| ensures SameBut(iov, j, a[j], c[j]) {
      assert SameBut(iov, j, a[j], b[j]) && SameBut(iov, j, b[j], c[j]);
    }
  }

  /** Window i went from holding `was` to holding its part of the data with the rest of `was` behind it. */
  predicate GotPart(data: string, iov: seq<Window>, i: nat, was: string, now: string) {
    && i < |iov| && |was| == iov[i].len
    && now == Part(data, iov, i) + was[|Part(data, iov, i)|..]
  }

  lemma PartIsNext(data: string, iov: seq<Window>, i: nat, rn: nat, was: string, now: string)
    requires i < |iov| && |was| == iov[i].len && rn == Min(|data|, StartOf(iov, i))
    requires var n := Min(|data| - rn, iov[i].len); now == data[rn..][..n] + was[n..]
    ensures GotPart(data, iov, i, was, now)
    ensures rn + Min(|data| - rn, iov[i].len) == Min(|data|, StartOf(iov, i + 1))
  {
    assert Part(data, iov, i) == data[rn..][..Min(|data| - rn, iov[i].len)];
  }

  /** One window of a readv that has delivered rn bytes to the windows before it. */
  method FillNext(data: string, iov: seq<Window>, i: nat, rn: nat) returns (n: nat)
    requires Valid(iov) && i < |iov| && rn == Min(|data|, StartOf(iov, i))
    modifies iov[i].base
    ensures rn + n == Min(|data|, StartOf(iov, i + 1))
    ensures GotPart(data, iov, i, old(Snapshot(iov))[i], Snapshot(iov)[i])
    ensures forall j :: 0 <= j < |iov| && j != i ==> Snapshot(iov)[j] == old(Snapshot(iov))[j]
    ensures SameOutside(iov, old(Buffers(iov)), Buffers(iov))
  {
    ghost var was, buffers := Contents(iov[i]), Buffers(iov);
    n := FillWindow(iov, i, data[rn..]);
    PartIsNext(data, iov, i, rn, was, Contents(iov[i]));
    forall j | 0 <= j < |iov| ensures SameBut(iov, j, buffers[j], Buffers(iov)[j]) {}
  }

  /** Byte k of the window is byte off + k of the data if there is one, and is as it was if not. */
  predicate GotFrom(data: string, off: nat, was: string, now: string) {
    |was| == |now| && forall k | 0 <= k < |now| :: now[k] == if off + k < |data| then data[off + k] else was[k]
  }

  /** The window got the bytes of the data behind those of the windows before it. */
  predicate GotBytes(data: string, iov: seq<Window>, i: nat, was: string, now: string) {
    i < |iov| && |now| == iov[i].len && GotFrom(data, Sum(iov[..i], Room()), was, now)
  }

  lemma PartIsFrom(data: string, iov: seq<Window>, i: nat, was: string, now: string)
    requires GotPart(data, iov, i, was, now)
    ensures |now| == iov[i].len && GotFrom(data, StartOf(iov, i), was, now)
  {}

  lemma PartIsBytes(data: string, iov: seq<Window>, i: nat, was: string, now: string)
    requires GotPart(data, iov, i, was, now)
    ensures GotBytes(data, iov, i, was, now)
  {
    PartIsFrom(data, iov, i, was, now);
    StartIsSum(iov, i);
  }

  /** The loop over the windows. */
  method Scatter(data: string, iov: seq<Window>) returns (rn: nat)
    requires Valid(iov)
    modifies Bases(iov)
    ensures rn == Min(|data|, Total(iov))
    ensures forall i :: 0 <= i < |iov| ==> GotPart(data, iov, i, old(Snapshot(iov))[i], Snapshot(iov)[i])
    ensures SameOutside(iov, old(Buffers(iov)), Buffers(iov))
  {
    ghost var was, buffers := Snapshot(iov), Buffers(iov);
    rn := 0;
    var i := 0;
    while i < |iov|
      invariant i <= |iov| && rn == Min(|data|, StartOf(iov, i))
      invariant forall j :: 0 <= j < i ==> GotPart(data, iov, j, was[j], Snapshot(iov)[j])
      invariant forall j :: i <= j < |iov| ==> Snapshot(iov)[j] == was[j]
      invariant SameOutside(iov, buffers, Buffers(iov))
    {
      ghost var before := Buffers(iov);
      var n := FillNext(data, iov, i, rn);
      SameOutsideTwice(iov, buffers, before, Buffers(iov));
      rn := rn + n;
      i := i + 1;
    }
  }

  /**
   * readv: window after window gets the next bytes of the data as long as there are any; what is behind
   * them in a window, and outside of all windows, is as it was.
   */
  method Readv(data: string, iov: seq<Window>) returns (rn: nat)
    requires Valid(iov)
    modifies Bases(iov)
    ensures rn == Min(|data|, Sum(iov, Room()))
    ensures forall i :: 0 <= i < |iov| ==> GotPart(data, iov, i, old(Snapshot(iov))[i], Snapshot(iov)[i])
    ensures forall i :: 0 <= i < |iov| ==> GotBytes(data, iov, i, old(Snapshot(iov))[i], Snapshot(iov)[i])
    ensures SameOutside(iov, old(Buffers(iov)), Buffers(iov))
  {
    ghost var was := Snapshot(iov);
    rn := Scatter(data, iov);
    TotalIsSum(iov);
    forall i | 0 <= i < |iov| ensures GotBytes(data, iov, i, was[i], Snapshot(iov)[i]) {
      PartIsBytes(data, iov, i, was[i], Snapshot(iov)[i]);
    }
  }

  // ----- what that means for the two demonstrations

  ghost function Parts(data: string, iov: seq<Window>, k: nat): string
    requires k <= |iov|
  {
    if k == 0 then "" else Parts(data, iov, k - 1) + Part(data, iov, k - 1)
  }

  /** The parts make up the stream, cut at the smaller of the two totals. */
  lemma {:induction false} PartsMakeUpTheStream(data: string, iov: seq<Window>, k: nat)
    requires k <= |iov|
    ensures Parts(data, iov, k) == data[..Min(|data|, StartOf(iov, k))]
  {
    if k > 0 {
      PartsMakeUpTheStream(data, iov, k - 1);
      var from, to := Min(|data|, StartOf(iov, k - 1)), Min(|data|, StartOf(iov, k));
      assert data[..to] == data[..from] + data[from..to];
    }
  }

  lemma {:induction false} StartsGrow(iov: seq<Window>, i: nat, j: nat)
    requires i <= j <= |iov|
    ensures StartOf(iov, i) <= StartOf(iov, j)
  {
    if i < j { StartsGrow(iov, i, j - 1); }
  }

  /** A window gets anything only if all windows before it are full. */
  lemma EarlierWindowsFull(data: string, iov: seq<Window>, i: nat, j: nat)
    requires i < j < |iov| && Part(data, iov, j) != ""
    ensures |Part(data, iov, i)| == iov[i].len
  {
    StartsGrow(iov, i + 1, j);
  }

  /** A window gets anything if and only if it has room and the windows before it do not take all the data. */
  lemma ReceivesExactly(data: string, iov: seq<Window>, j: nat)
    requires j < |iov|
    ensures Part(data, iov, j) != "" <==> iov[j].len > 0 && Sum(iov[..j], Room()) < |data|
  {
    StartIsSum(iov, j);
  }

  predicate Follows(iov: seq<Window>, buf: array<char>, i: nat) {
    i < |iov| && iov[i].base == buf && iov[i].off == StartOf(iov, i)
  }

  /** Windows that follow one another in one buffer, from its start. */
  ghost predicate Consecutive(iov: seq<Window>, buf: array<char>) {
    forall i {:trigger Follows(iov, buf, i)} :: 0 <= i < |iov| ==> Follows(iov, buf, i)
  }

  lemma ConsecutiveIsValid(iov: seq<Window>, buf: array<char>)
    requires Consecutive(iov, buf) && Total(iov) <= buf.Length
    ensures Valid(iov)
  {
    forall i | 0 <= i < |iov| ensures InBuffer(iov[i]) {
      assert Follows(iov, buf, i);
      StartsGrow(iov, i + 1, |iov|);
    }
    forall i, j | 0 <= i < j < |iov| ensures Apart(iov[i], iov[j]) {
      assert Follows(iov, buf, i) && Follows(iov, buf, j);
      StartsGrow(iov, i + 1, j);
    }
  }

  /** What the buffer holds after writev of the segments and a readv of rn bytes. */
  predicate HoldsSegments(segments: seq<string>, rn: nat, buf: string) {
    rn <= |buf| &&
    forall i, k | 0 <= i < |segments| && 0 <= k < |segments[i]| && Sum(segments[..i], Bytes()) + k < rn ::
      buf[Sum(segments[..i], Bytes()) + k] == segments[i][k]
  }

  lemma PrefixHoldsSegments(segments: seq<string>, rn: nat, buf: string)
    requires rn <= |Gather(segments)| && rn <= |buf| && buf[..rn] == Gather(segments)[..rn]
    ensures HoldsSegments(segments, rn, buf)
  {
    forall i: nat, k: nat | i < |segments| && k < |segments[i]| && Sum(segments[..i], Bytes()) + k < rn
      ensures buf[Sum(segments[..i], Bytes()) + k] == segments[i][k]
    {
      var at := Sum(segments[..i], Bytes()) + k;
      GatherAt(segments, i, k);
      assert buf[at] == buf[..rn][at] == Gather(segments)[at];
    }
  }

  /** writev: the segments one behind the other. */
  method Writev(segments: seq<string>) returns (pipe: string)
    ensures pipe == Gather(segments) && |pipe| == Sum(segments, Bytes())
  {
    pipe := "";
    for i := 0 to |segments|
      invariant pipe == Gather(segments[..i])
    {
      pipe := pipe + segments[i];
      assert segments[..i + 1][..i] == segments[..i];
    }
    assert segments[..|segments|] == segments;
    GatherLength(segments);
  }

  lemma ByteInStretch(data: string, off: nat, len: nat, k: nat, was: string, now: string)
    requires off <= k < off + len <= |was| == |now|
    requires GotFrom(data, off, was[off..off + len], now[off..off + len])
    ensures now[k] == if k < |data| then data[k] else was[k]
  {
    assert now[off..off + len][k - off] == now[k] && was[off..off + len][k - off] == was[k];
  }

  /**
   * writev of any segments, then readv into consecutive windows of one buffer: the bytes of the segments
   * are at the start of the buffer, one segment behind the other, as far as the windows go, and the rest
   * of the buffer is as it was.
   */
  method WritevReadv(segments: seq<string>, iov: seq<Window>, buf: array<char>) returns (rn: nat)
    requires Consecutive(iov, buf) && Total(iov) <= buf.Length
    modifies buf
    ensures rn == Min(Sum(segments, Bytes()), Sum(iov, Room()))
    ensures HoldsSegments(segments, rn, buf[..])
    ensures forall k :: rn <= k < buf.Length ==> buf[k] == old(buf[k])
  {
    ConsecutiveIsValid(iov, buf);
    BasesIsBuffer(iov, buf);
    var pipe := Writev(segments);
    ghost var was := buf[..];
    rn := ReadvConsecutive(pipe, iov, buf);
    assert forall k :: rn <= k < buf.Length ==> buf[..][k] == was[k];
    PrefixHoldsSegments(segments, rn, buf[..]);
  }

  /** Window i of consecutive ones is a stretch of the buffer. */
  lemma StretchOfBuffer(iov: seq<Window>, buf: array<char>, i: nat)
    requires i < |iov| && Follows(iov, buf, i) && InBuffer(iov[i]) && Total(iov) <= buf.Length
    ensures iov[i].base == buf && StartOf(iov, i) + iov[i].len <= buf.Length
    ensures Contents(iov[i]) == buf[..][StartOf(iov, i)..StartOf(iov, i) + iov[i].len]
  {
    StartsGrow(iov, i + 1, |iov|);
  }

  ghost predicate AreStretches(iov: seq<Window>, windows: seq<string>, whole: string) {
    |windows| == |iov| && forall i :: 0 <= i < |iov| ==> IsStretch(iov, i, windows[i], whole)
  }

  predicate IsStretch(iov: seq<Window>, i: nat, window: string, whole: string)
    requires i < |iov|
  {
    var at := StartOf(iov, i);
    at + iov[i].len <= |whole| && window == whole[at..at + iov[i].len]
  }

  lemma StretchesOfBuffer(iov: seq<Window>, buf: array<char>)
    requires Consecutive(iov, buf) && Valid(iov) && Total(iov) <= buf.Length
    ensures AreStretches(iov, Snapshot(iov), buf[..])
  {
    forall i | 0 <= i < |iov| ensures IsStretch(iov, i, Snapshot(iov)[i], buf[..]) {
      assert Follows(iov, buf, i);
      StretchOfBuffer(iov, buf, i);
    }
  }

  lemma BehindUnchanged(iov: seq<Window>, buf: array<char>, was: seq<string>, now: seq<string>)
    requires Consecutive(iov, buf) && SameOutside(iov, was, now)
    ensures |iov| > 0 ==> |was[0]| == |now[0]| && forall k :: Total(iov) <= k < |now[0]| ==> now[0][k] == was[0][k]
  {
    if |iov| > 0 {
      assert Follows(iov, buf, 0) && SameBut(iov, 0, was[0], now[0]);
      forall k | Total(iov) <= k < |now[0]| ensures now[0][k] == was[0][k] { BehindAllWindows(iov, buf, k); }
    }
  }

  /** readv into consecutive windows of one buffer. */
  method ReadvConsecutive(data: string, iov: seq<Window>, buf: array<char>) returns (rn: nat)
    requires Consecutive(iov, buf) && Total(iov) <= buf.Length && Valid(iov) && Bases(iov) <= {buf}
    modifies buf
    ensures rn == Min(|data|, Sum(iov, Room())) && rn <= buf.Length
    ensures buf[..] == data[..rn] + old(buf[..])[rn..]
  {
    ghost var was, snapshot, buffers := buf[..], Snapshot(iov), Buffers(iov);
    StretchesOfBuffer(iov, buf);
    assert |iov| > 0 ==> Follows(iov, buf, 0) && buffers[0] == was;
    rn := Readv(data, iov);
    StretchesOfBuffer(iov, buf);
    BehindUnchanged(iov, buf, buffers, Buffers(iov));
    TotalIsSum(iov);
    assert |iov| > 0 ==> Follows(iov, buf, 0) && Buffers(iov)[0] == buf[..];
    WholeBuffer(data, iov, rn, snapshot, Snapshot(iov), was, buf[..]);
  }

  lemma WholeBuffer(data: string, iov: seq<Window>, rn: nat,
                    before: seq<string>, after: seq<string>, was: string, now: string)
    requires Total(iov) <= |was| == |now| && rn == Min(|data|, Total(iov))
    requires AreStretches(iov, before, was) && AreStretches(iov, after, now)
    requires forall i :: 0 <= i < |iov| ==> GotPart(data, iov, i, before[i], after[i])
    requires forall k :: Total(iov) <= k < |now| ==> now[k] == was[k]
    ensures rn <= |now| && now == data[..rn] + was[rn..]
  {
    forall k: nat | k < Total(iov) ensures now[k] == if k < |data| then data[k] else was[k] {
      var i := WindowOf(iov, k, |iov|);
      StretchGot(data, iov, i, before[i], after[i], was, now);
      ByteInStretch(data, StartOf(iov, i), iov[i].len, k, was, now);
    }
    StretchEnds(data, iov, rn, was, now);
  }

  lemma StretchGot(data: string, iov: seq<Window>, i: nat, before: string, after: string, was: string, now: string)
    requires i < |iov| && IsStretch(iov, i, before, was) && IsStretch(iov, i, after, now)
    requires GotPart(data, iov, i, before, after)
    ensures var off, len := StartOf(iov, i), iov[i].len;
            off + len <= |was| && off + len <= |now| && GotFrom(data, off, was[off..off + len], now[off..off + len])
  {
    PartIsFrom(data, iov, i, before, after);
  }

  lemma StretchEnds(data: string, iov: seq<Window>, rn: nat, was: string, now: string)
    requires rn == Min(|data|, Total(iov)) && Total(iov) <= |was| == |now|
    requires forall k :: 0 <= k < Total(iov) ==> now[k] == if k < |data| then data[k] else was[k]
    requires forall k :: Total(iov) <= k < |now| ==> now[k] == was[k]
    ensures now == data[..rn] + was[rn..]
  {}

  lemma BasesIsBuffer(iov: seq<Window>, buf: array<char>)
    requires Consecutive(iov, buf)
    ensures Bases(iov) <= {buf}
  {
    forall b | b in Bases(iov) ensures b == buf {
      var i :| 0 <= i < |iov| && iov[i].base == b;
      assert Follows(iov, buf, i);
    }
  }

  lemma {:induction false} WindowOf(iov: seq<Window>, k: nat, n: nat) returns (i: nat)
    requires n <= |iov| && k < StartOf(iov, n)
    ensures i < |iov| && StartOf(iov, i) <= k < StartOf(iov, i) + iov[i].len
  {
    i := n - 1;
    if k < StartOf(iov, i) { i := WindowOf(iov, k, i); }
  }

  lemma BehindAllWindows(iov: seq<Window>, buf: array<char>, k: nat)
    requires Consecutive(iov, buf) && Total(iov) <= k
    ensures InNoWindow(iov, buf, k)
  {
    forall i | 0 <= i < |iov| ensures !InWindow(iov[i], buf, k) {
      assert Follows(iov, buf, i);
      StartsGrow(iov, i + 1, |iov|);
    }
  }
}
