/** shmtest.c: fill_buffer fills a buffer with one character, which moves on from call to call. */
module FillBuffer {

  /** The static character after a call that found it at ch. */
  function Next(ch: int): int {
    var ch1 := if ch > 122 then 65 else ch;
    var ch2 := if 65 <= ch1 <= 122 && 91 <= ch1 <= 96 then 65 else ch1;
    ch2 + 1
  }

  /** The character used by call k, counted from 0. */
  function Letter(k: nat): int {
    if k == 0 then 65 else Next(Letter(k - 1))
  }

  /** 65 is used once only; after it 66 to 91 come round for ever. */
  lemma {:induction false} LetterCycle(k: nat)
    ensures Letter(k) == if k == 0 then 65 else 66 + (k - 1) % 26
  {
    if k > 1 {
      LetterCycle(k - 1);
      NextRemainder(k - 2);
    }
  }

  lemma NextRemainder(k: nat)
    ensures (k + 1) % 26 == if k % 26 == 25 then 0 else k % 26 + 1
  {}

  class Filler {
    var ch: int
    ghost var calls: nat

    ghost predicate Valid()
      reads this
    {
      ch == Letter(calls)
    }

    constructor ()
      ensures Valid() && calls == 0
    {
      ch, calls := 65, 0;
    }

    /** memset, the NUL, the step of the character, and strlen of the result. */
    method Fill(buf: array<int>, size: nat) returns (filled: nat)
      requires Valid() && 1 <= size <= buf.Length
      modifies this, buf
      ensures Valid() && calls == old(calls) + 1
      ensures filled == size - 1 && buf[size - 1] == 0
      ensures forall i :: 0 <= i < size - 1 ==>
        buf[i] == if old(calls) == 0 then 65 else 66 + (old(calls) - 1) % 26
      ensures buf[size..] == old(buf[size..])
    {
      LetterCycle(calls);
      var i := 0;
      while i < size - 1
        invariant i <= size - 1
        invariant ch == old(ch) && calls == old(calls)
        invariant forall j :: 0 <= j < i ==> buf[j] == ch
        invariant buf[size - 1..] == old(buf[size - 1..])
      {
        buf[i] := ch;
        i := i + 1;
      }
      buf[size - 1] := 0;
      ch := if ch > 122 then 65 else ch;
      ch := if 65 <= ch <= 122 && 91 <= ch <= 96 then 65 else ch;
      filled := 0;
      while buf[filled] != 0
        invariant filled <= size - 1 && (forall j :: 0 <= j < size - 1 ==> buf[j] != 0) && buf[size - 1] == 0
        decreases size - 1 - filled
      {
        filled := filled + 1;
      }
      ch := ch + 1;
      calls := calls + 1;
    }
  }
}
