/**
 * call64.c: the walk over the records that getdents64 leaves in a buffer, each as long as its own
 * d_reclen says. Multi-byte fields are in the little-endian order of the host.
 */
module Dirents {

  type Byte = b: nat | b < 256

  /** d_ino and d_off of struct linux_dirent64 are 8 bytes each, then d_reclen 2, d_type 1 and d_name. */
  const NAME_OFFSET: nat := 19

  datatype Entry = Entry(ino: nat, off: int, kind: Byte, name: seq<Byte>)

  /** An entry and the bytes that follow the NUL of its name up to the next record. */
  datatype Record = Record(entry: Entry, padding: seq<Byte>)

  function Power256(k: nat): (p: nat)
    ensures p > 0
  {
    if k == 0 then 1 else 256 * Power256(k - 1)
  }

  function ToBytes(n: nat, k: nat): (b: seq<Byte>)
    ensures |b| == k
  {
    if k == 0 then [] else [n % 256] + ToBytes(n / 256, k - 1)
  }

  function FromBytes(b: seq<Byte>): nat {
    if b == [] then 0 else b[0] + 256 * FromBytes(b[1..])
  }

  lemma {:induction false} BytesRoundTrip(n: nat, k: nat)
    requires n < Power256(k)
    ensures FromBytes(ToBytes(n, k)) == n
  {
    if k > 0 { BytesRoundTrip(n / 256, k - 1); }
  }

  /** The fields are little-endian: byte i is the digit of 256^i. */
  lemma {:induction false} LittleEndian(n: nat, k: nat, i: nat)
    requires i < k
    ensures ToBytes(n, k)[i] == n / Power256(i) % 256
  {
    if i > 0 {
      LittleEndian(n / 256, k - 1, i - 1);
      DivideTwice(n, Power256(i - 1));
    }
  }

  lemma DivideTwice(n: nat, p: nat)
    requires p > 0
    ensures n / 256 / p == n / (256 * p)
  {
    var q := n / (256 * p);
    var r := n - q * (256 * p);
    assert 0 <= r < 256 * p;
    assert n == 256 * (q * p) + r;
    assert n / 256 == q * p + r / 256;
    assert 0 <= r / 256 < p;
    QuotientIs(n / 256, p, q, r / 256);
  }

  lemma QuotientIs(a: nat, p: nat, q: nat, s: nat)
    requires p > 0 && a == q * p + s && s < p
    ensures a / p == q
  {
    var d := a / p - q;
    MultipleWithin(p, d, s - a % p);
  }

  /** The only multiple of p within less than p of 0 is 0. */
  lemma MultipleWithin(p: nat, d: int, e: int)
    requires p > 0 && p * d == e && -e < p && e < p
    ensures d == 0
  {
    if d != 0 { MultipleAtLeast(p, if d > 0 then d else -d); }
  }

  lemma {:induction false} MultipleAtLeast(p: nat, d: nat)
    requires d > 0
    ensures p * d >= p
  {
    if d > 1 { MultipleAtLeast(p, d - 1); }
  }

  lemma Widths()
    ensures Power256(2) == 0x1_0000 && Power256(8) == 0x1_0000_0000_0000_0000
  {
    assert Power256(2) == 256 * Power256(1);
    assert Power256(4) == 0x1_0000 * Power256(2);
    assert Power256(6) == 0x1_0000 * Power256(4);
    assert Power256(8) == 0x1_0000 * Power256(6);
  }

  const OFFSETS: int := 0x1_0000_0000_0000_0000

  /** The signed value of an 8-byte field. */
  function AsSigned(n: nat): int { if n < OFFSETS / 2 then n else n - OFFSETS }

  function RecordLength(r: Record): nat { NAME_OFFSET + |r.entry.name| + 1 + |r.padding| }

  /** The fields fit their widths and the name has no NUL in it. */
  ghost predicate Fits(r: Record) {
    && r.entry.ino < OFFSETS && -OFFSETS / 2 <= r.entry.off < OFFSETS / 2
    && RecordLength(r) < 0x1_0000
    && forall i :: 0 <= i < |r.entry.name| ==> r.entry.name[i] != 0
  }

  /** The 8-byte field that holds a signed value. */
  function AsUnsigned(v: int): nat {
    if v >= 0 then v else if v + OFFSETS >= 0 then v + OFFSETS else 0
  }

  function Encode(r: Record): seq<Byte> {
    ToBytes(r.entry.ino, 8) + ToBytes(AsUnsigned(r.entry.off), 8) + ToBytes(RecordLength(r), 2) + [r.entry.kind]
    + r.entry.name + [0] + r.padding
  }

  function EncodeAll(rs: seq<Record>): seq<Byte> {
    if rs == [] then [] else Encode(rs[0]) + EncodeAll(rs[1..])
  }

  /** The bytes up to the first NUL. */
  function CString(b: seq<Byte>): seq<Byte> {
    if b == [] || b[0] == 0 then [] else [b[0]] + CString(b[1..])
  }

  /** What the program reads through a struct linux_dirent64 pointer at the start of b. */
  function EntryAt(b: seq<Byte>): Entry
    requires |b| >= NAME_OFFSET
  {
    Entry(FromBytes(b[..8]), AsSigned(FromBytes(b[8..16])), b[18], CString(b[NAME_OFFSET..]))
  }

  function RecordLengthAt(b: seq<Byte>): nat
    requires |b| >= NAME_OFFSET
  {
    FromBytes(b[16..18])
  }

  lemma {:induction false} CStringStops(name: seq<Byte>, rest: seq<Byte>)
    requires forall i :: 0 <= i < |name| ==> name[i] != 0
    ensures CString(name + [0] + rest) == name
  {
    var b := name + [0] + rest;
    if name != [] {
      CStringStops(name[1..], rest);
      assert b[1..] == name[1..] + [0] + rest;
    }
  }

  lemma EncodeParts(r: Record, rest: seq<Byte>)
    requires Fits(r)
    ensures var b := Encode(r) + rest;
            && |Encode(r)| == RecordLength(r)
            && b[..8] == ToBytes(r.entry.ino, 8) && b[8..16] == ToBytes(AsUnsigned(r.entry.off), 8)
            && b[16..18] == ToBytes(RecordLength(r), 2) && b[18] == r.entry.kind
            && b[NAME_OFFSET..] == r.entry.name + [0] + (r.padding + rest)
  {}

  /**
   * The layout of struct linux_dirent64: the inode number in bytes 0 to 7 and the offset in 8 to 15, each
   * with its lowest byte first, the length in 16 and 17, the type in 18, and the name from 19 on with a NUL
   * behind it.
   */
  lemma RecordLayout(r: Record, i: nat)
    requires Fits(r)
    ensures |Encode(r)| == RecordLength(r) == 20 + |r.entry.name| + |r.padding|
    ensures i < 8 ==> Encode(r)[i] == r.entry.ino / Power256(i) % 256
    ensures i < 8 ==> Encode(r)[8 + i] == (r.entry.off + OFFSETS) % OFFSETS / Power256(i) % 256
    ensures Encode(r)[16] == RecordLength(r) % 256 && Encode(r)[17] == RecordLength(r) / 256
    ensures Encode(r)[18] == r.entry.kind
    ensures i < |r.entry.name| ==> Encode(r)[19 + i] == r.entry.name[i]
    ensures Encode(r)[19 + |r.entry.name|] == 0
  {
    if i < 8 { NumbersLayout(r, i); }
    LengthLayout(r);
    NameLayout(r, i);
  }

  lemma NumbersLayout(r: Record, i: nat)
    requires Fits(r) && i < 8
    ensures |Encode(r)| >= NAME_OFFSET
    ensures Encode(r)[i] == r.entry.ino / Power256(i) % 256
    ensures Encode(r)[8 + i] == (r.entry.off + OFFSETS) % OFFSETS / Power256(i) % 256
  {
    var b := Encode(r);
    assert b[i] == ToBytes(r.entry.ino, 8)[i] && b[8 + i] == ToBytes(AsUnsigned(r.entry.off), 8)[i];
    LittleEndian(r.entry.ino, 8, i);
    LittleEndian(AsUnsigned(r.entry.off), 8, i);
    Unsigned(r.entry.off);
  }

  lemma Unsigned(v: int)
    requires -OFFSETS / 2 <= v < OFFSETS / 2
    ensures AsUnsigned(v) == (v + OFFSETS) % OFFSETS
  {}

  lemma LengthLayout(r: Record)
    requires Fits(r)
    ensures |Encode(r)| == RecordLength(r) >= NAME_OFFSET
    ensures Encode(r)[16] == RecordLength(r) % 256 && Encode(r)[17] == RecordLength(r) / 256
    ensures Encode(r)[18] == r.entry.kind
  {
    var b, n := Encode(r), RecordLength(r);
    assert ToBytes(n, 2) == [n % 256, n / 256 % 256] by { assert ToBytes(n / 256, 1) == [n / 256 % 256] + ToBytes(n / 256 / 256, 0); }
    assert b[16] == ToBytes(n, 2)[0] && b[17] == ToBytes(n, 2)[1];
  }

  lemma NameLayout(r: Record, i: nat)
    requires Fits(r)
    ensures |Encode(r)| == RecordLength(r)
    ensures i < |r.entry.name| ==> Encode(r)[19 + i] == r.entry.name[i]
    ensures Encode(r)[19 + |r.entry.name|] == 0
  {}

  /** Whatever follows it, an encoded record reads back as its entry, and its length as its length. */
  lemma RecordRoundTrip(r: Record, rest: seq<Byte>)
    requires Fits(r)
    ensures |Encode(r)| == RecordLength(r)
    ensures EntryAt(Encode(r) + rest) == r.entry && RecordLengthAt(Encode(r) + rest) == RecordLength(r)
  {
    EncodeParts(r, rest);
    Widths();
    BytesRoundTrip(r.entry.ino, 8);
    BytesRoundTrip(AsUnsigned(r.entry.off), 8);
    BytesRoundTrip(RecordLength(r), 2);
    CStringStops(r.entry.name, r.padding + rest);
  }

  /**
   * The walk: over any records the buffer holds it finds exactly their entries, in order, and ends at
   * nread. It comes to an end because no record is of length 0.
   */
  method Walk(dbuf: array<Byte>, nread: nat, ghost rs: seq<Record>) returns (entries: seq<Entry>, bpos: nat)
    requires nread <= dbuf.Length
    requires (forall r :: r in rs ==> Fits(r)) && dbuf[..nread] == EncodeAll(rs)
    ensures |entries| == |rs| && (forall i :: 0 <= i < |rs| ==> entries[i] == rs[i].entry) && bpos == nread
  {
    entries, bpos := [], 0;
    ghost var n := 0;
    while bpos < nread
      invariant bpos <= nread && n == |entries| <= |rs|
      invariant dbuf[bpos..nread] == EncodeAll(rs[n..])
      invariant forall i :: 0 <= i < n ==> entries[i] == rs[i].entry
      decreases nread - bpos
    {
      var record := dbuf[bpos..nread];
      ghost var left := rs[n..];
      assert left != [] && left[0] == rs[n] && Fits(rs[n]);
      RecordRoundTrip(left[0], EncodeAll(left[1..]));
      entries := entries + [EntryAt(record)];
      bpos := bpos + RecordLengthAt(record);
      assert dbuf[bpos..nread] == record[RecordLength(left[0])..];
      assert left[1..] == rs[n + 1..];
      n := n + 1;
    }
    NoneLeft(rs[n..]);
  }

  lemma NoneLeft(rs: seq<Record>)
    requires EncodeAll(rs) == []
    ensures rs == []
  {}
}
