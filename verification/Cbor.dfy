/**
 * The CBOR writer (log/CborWriter.h), the batch envelope (telemetry/BatchEnvelope.h)
 * and, independently of both, a strict reader for the same subset of RFC 8949:
 * unsigned and negative integers, text strings and definite-length arrays, every
 * head in its shortest form (section 4.1).
 */
module Cbor {
  import opened Wrappers
  import opened LogRecords

  const MAX_U64 := 0xFFFF_FFFF_FFFF_FFFF

  /** One data item. `Neg(n)` is the integer -1 - n. */
  datatype Item = Uint(n: nat) | Neg(m: nat) | Text(text: bytes) | Array(items: seq<Item>)

  // ---- heads ----

  function BigEndian(value: nat, byteCount: nat): bytes {
    if byteCount == 0 then [] else BigEndian(value / 256, byteCount - 1) + [value % 256]
  }

  /** The initial byte and argument for a major type 0..7, as `writeTypeAndLength` chooses them. */
  function Head(major: nat, length: nat): bytes
    requires major < 8 && length <= MAX_U64
  {
    if length < 24 then [32 * major + length]
    else if length <= 0xFF then [32 * major + 24] + BigEndian(length, 1)
    else if length <= 0xFFFF then [32 * major + 25] + BigEndian(length, 2)
    else if length <= 0xFFFF_FFFF then [32 * major + 26] + BigEndian(length, 4)
    else [32 * major + 27] + BigEndian(length, 8)
  }

  function Value(b: bytes): nat {
    if |b| == 0 then 0 else 256 * Value(b[..|b| - 1]) + b[|b| - 1]
  }

  datatype HeadRead = HeadRead(major: nat, length: nat, size: nat)

  function ArgumentSize(info: nat): nat {
    if info == 24 then 1 else if info == 25 then 2 else if info == 26 then 4 else if info == 27 then 8 else 0
  }

  /** The least argument that needs the given additional information. */
  function LeastArgument(info: nat): nat {
    if info == 24 then 24 else if info == 25 then 0x100 else if info == 26 then 0x1_0000 else 0x1_0000_0000
  }

  /** Reads a head, refusing one that is cut short, reserved, or longer than it has to be. */
  function ReadHead(b: bytes): (r: Option<HeadRead>)
    ensures r.Some? ==> r.value.major < 8 && 0 < r.value.size <= |b|
  {
    if |b| == 0 then None
    else
      var major, info := b[0] / 32, b[0] % 32;
      if info < 24 then Some(HeadRead(major, info, 1))
      else
        var n := ArgumentSize(info);
        if n == 0 || |b| < 1 + n || Value(b[1..1 + n]) < LeastArgument(info) then None
        else Some(HeadRead(major, Value(b[1..1 + n]), 1 + n))
  }

  lemma {:induction false} BigEndianValue(value: nat, byteCount: nat)
    requires value < Pow256(byteCount)
    ensures |BigEndian(value, byteCount)| == byteCount && Value(BigEndian(value, byteCount)) == value
  {
    if byteCount == 0 {
    } else {
      BigEndianValue(value / 256, byteCount - 1);
      var b := BigEndian(value, byteCount);
      assert b[..|b| - 1] == BigEndian(value / 256, byteCount - 1);
    }
  }

  lemma {:induction false} ValueBigEndian(b: bytes)
    ensures Value(b) < Pow256(|b|) && BigEndian(Value(b), |b|) == b
  {
    if |b| == 0 {
    } else {
      ValueBigEndian(b[..|b| - 1]);
      assert Value(b) / 256 == Value(b[..|b| - 1]) && Value(b) % 256 == b[|b| - 1];
      assert b == b[..|b| - 1] + [b[|b| - 1]];
    }
  }

  function Pow256(n: nat): nat { if n == 0 then 1 else 256 * Pow256(n - 1) }

  lemma Powers()
    ensures Pow256(1) == 0x100 && Pow256(2) == 0x1_0000 && Pow256(4) == 0x1_0000_0000 && Pow256(8) == MAX_U64 + 1
  {
    assert Pow256(3) == 0x100_0000 && Pow256(5) == 0x100_0000_0000;
    assert Pow256(6) == 0x1_0000_0000_0000 && Pow256(7) == 0x100_0000_0000_0000;
  }

  lemma LongHead(major: nat, info: nat, n: nat, length: nat, rest: bytes)
    requires major < 8 && 24 <= info <= 27 && n == ArgumentSize(info)
    requires LeastArgument(info) <= length < Pow256(n)
    ensures |BigEndian(length, n)| == n
    ensures ReadHead(([32 * major + info] + BigEndian(length, n)) + rest) == Some(HeadRead(major, length, 1 + n))
  {
    BigEndianValue(length, n);
    var head := [32 * major + info] + BigEndian(length, n);
    var b := head + rest;
    assert b[0] == 32 * major + info;
    assert b[1..1 + n] == BigEndian(length, n);
  }

  /** Every head reads back, whatever follows it. */
  lemma HeadRoundTrip(major: nat, length: nat, rest: bytes)
    requires major < 8 && length <= MAX_U64
    ensures ReadHead(Head(major, length) + rest) == Some(HeadRead(major, length, |Head(major, length)|))
  {
    Powers();
    if length >= 24 {
      var info := if length <= 0xFF then 24 else if length <= 0xFFFF then 25
        else if length <= 0xFFFF_FFFF then 26 else 27;
      assert Head(major, length) == [32 * major + info] + BigEndian(length, ArgumentSize(info));
      LongHead(major, info, ArgumentSize(info), length, rest);
    }
  }

  /** The reader accepts nothing but shortest-form heads. */
  lemma HeadIsShortest(b: bytes)
    requires ReadHead(b).Some?
    ensures var r := ReadHead(b).value;
            r.length <= MAX_U64 && Head(r.major, r.length) == b[..r.size]
  {
    var r, info := ReadHead(b).value, b[0] % 32;
    assert b[0] == 32 * r.major + info;
    if info >= 24 {
      var n := ArgumentSize(info);
      var argument := b[1..1 + n];
      Powers();
      ValueBigEndian(argument);
      LongIsShortest(r.major, info, n, argument);
      assert b[..1 + n] == [b[0]] + argument;
    }
  }

  lemma LongIsShortest(major: nat, info: nat, n: nat, argument: bytes)
    requires major < 8 && 24 <= info <= 27 && n == ArgumentSize(info) == |argument|
    requires LeastArgument(info) <= Value(argument) < Pow256(n) && BigEndian(Value(argument), n) == argument
    ensures Value(argument) <= MAX_U64 && Head(major, Value(argument)) == [32 * major + info] + argument
  {
    Powers();
  }

  lemma DivideTwice(v: nat, p: nat)
    requires p > 0
    ensures v / 256 / p == v / (256 * p)
  {
    var q, r := v / 256 / p, v / 256 % p;
    assert v == 256 * (p * q + r) + v % 256;
    assert 256 * (p * q) == (256 * p) * q;
    QuotientIs(v, 256 * p, q, 256 * r + v % 256);
  }

  lemma QuotientIs(v: nat, d: nat, q: nat, r: nat)
    requires v == d * q + r && r < d
    ensures v / d == q
  {
    var t := v / d;
    assert t < q ==> d * (t + 1) <= d * q;
    assert t > q ==> d * (q + 1) <= d * t;
  }

  /** How many bytes of its own an argument takes. */
  function OwnBytes(n: nat): nat {
    if n < 24 then 0 else if n < 0x100 then 1 else if n < 0x1_0000 then 2 else if n < 0x1_0000_0000 then 4 else 8
  }

  /** Digit `k` of `count` to the base 256, the most significant first. */
  function Digit(n: nat, count: nat, k: nat): nat
    requires k < count
  {
    PowPositive(count - 1 - k);
    n / Pow256(count - 1 - k) % 256
  }

  lemma PowPositive(n: nat)
    ensures Pow256(n) > 0
  {
  }

  /** The bytes are the digits, the most significant first. */
  lemma {:induction false} BigEndianDigits(value: nat, byteCount: nat, k: nat)
    requires k < byteCount
    ensures |BigEndian(value, byteCount)| == byteCount && BigEndian(value, byteCount)[k] == Digit(value, byteCount, k)
  {
    if byteCount == 1 {
    } else if k == byteCount - 1 {
      BigEndianDigits(value / 256, byteCount - 1, 0);
    } else {
      BigEndianDigits(value / 256, byteCount - 1, k);
      PowPositive(byteCount - 2 - k);
      DivideTwice(value, Pow256(byteCount - 2 - k));
    }
  }

  lemma OwnBytesAre(n: nat)
    ensures |BigEndian(n, OwnBytes(n))| == OwnBytes(n)
  {
    if OwnBytes(n) > 0 {
      BigEndianDigits(n, OwnBytes(n), 0);
    }
  }

  /** Every head, byte by byte, as section 3 of RFC 8949 lays it out. */
  lemma HeadForms(major: nat, n: nat) returns (argument: bytes)
    requires major < 8 && n <= MAX_U64
    ensures Head(major, n) == [32 * major + if n < 24 then n else if n < 0x100 then 24 else if n < 0x1_0000 then 25
                               else if n < 0x1_0000_0000 then 26 else 27] + argument
    ensures |argument| == OwnBytes(n) && forall k :: 0 <= k < |argument| ==> argument[k] == Digit(n, |argument|, k)
  {
    argument := BigEndian(n, OwnBytes(n));
    OwnBytesAre(n);
    forall k | 0 <= k < |argument|
      ensures argument[k] == Digit(n, |argument|, k)
    {
      BigEndianDigits(n, OwnBytes(n), k);
    }
    if n < 24 {
      assert [32 * major + n] == [32 * major + n] + argument;
    }
  }

  // ---- items ----

  /** Every integer, length and count fits a CBOR argument. */
  ghost predicate Encodable(i: Item)
    decreases i, 0
  {
    match i
    case Uint(n) => n <= MAX_U64
    case Neg(m) => m <= MAX_U64
    case Text(t) => |t| <= MAX_U64
    case Array(items) => |items| <= MAX_U64 && AllEncodable(items)
  }

  ghost predicate AllEncodable(items: seq<Item>)
    decreases items, 0
  {
    forall k :: 0 <= k < |items| ==> Encodable(items[k])
  }

  ghost function Encode(i: Item): bytes
    requires Encodable(i)
    decreases i, 0
  {
    match i
    case Uint(n) => Head(0, n)
    case Neg(m) => Head(1, m)
    case Text(t) => Head(3, |t|) + t
    case Array(items) => Head(4, |items|) + EncodeAll(items)
  }

  ghost function EncodeAll(items: seq<Item>): bytes
    requires AllEncodable(items)
    decreases items, 0
  {
    if |items| == 0 then [] else Encode(items[0]) + EncodeAll(items[1..])
  }

  /** Examples of appendix A of RFC 8949: 1000, -100, "IETF" and [1, 2, 3]. */
  lemma StandardExamples()
    ensures Encode(Uint(1000)) == [0x19, 0x03, 0xE8]
    ensures Encode(Neg(99)) == [0x38, 0x63]
    ensures Encode(Text([0x49, 0x45, 0x54, 0x46])) == [0x64, 0x49, 0x45, 0x54, 0x46]
    ensures Encodable(OneTwoThree()) && Encode(OneTwoThree()) == [0x83, 0x01, 0x02, 0x03]
  {
    assert BigEndian(1000, 2) == BigEndian(3, 1) + [0xE8];
    assert BigEndian(3, 1) == [3] && BigEndian(99, 1) == [99];
    SmallItems();
  }

  function OneTwoThree(): Item { Array([Uint(1), Uint(2), Uint(3)]) }

  lemma SmallItems()
    ensures Encodable(OneTwoThree()) && Encode(OneTwoThree()) == [0x83, 0x01, 0x02, 0x03]
  {
    var items := [Uint(1), Uint(2), Uint(3)];
    assert items[1..] == [Uint(2), Uint(3)] && [Uint(2), Uint(3)][1..] == [Uint(3)] && [Uint(3)][1..] == [];
    assert AllEncodable(items) && AllEncodable([Uint(2), Uint(3)]) && AllEncodable([Uint(3)]);
    assert EncodeAll([Uint(3)]) == [0x03];
    assert EncodeAll([Uint(2), Uint(3)]) == [0x02, 0x03];
    assert EncodeAll(items) == [0x01, 0x02, 0x03];
    assert Head(4, 3) == [0x83];
  }

  datatype Read = Read(item: Item, rest: bytes)
  datatype ReadSeq = ReadSeq(items: seq<Item>, rest: bytes)

  /** Reads one item from the front of `b`. */
  function Decode(b: bytes): (r: Option<Read>)
    ensures r.Some? ==> |r.value.rest| < |b|
    decreases |b|, 0
  {
    var h := ReadHead(b);
    if h.None? then None
    else
      var HeadRead(major, length, size) := h.value;
      if major == 0 then Some(Read(Uint(length), b[size..]))
      else if major == 1 then Some(Read(Neg(length), b[size..]))
      else if major == 3 then
        (if |b| - size < length then None else Some(Read(Text(b[size..size + length]), b[size + length..])))
      else if major == 4 then
        (var items := DecodeMany(b[size..], length);
         if items.None? then None else Some(Read(Array(items.value.items), items.value.rest)))
      else None
  }

  function DecodeMany(b: bytes, count: nat): (r: Option<ReadSeq>)
    ensures r.Some? ==> |r.value.rest| <= |b| && |r.value.items| == count
    decreases |b|, 1, count
  {
    if count == 0 then Some(ReadSeq([], b))
    else
      var first := Decode(b);
      if first.None? then None
      else
        var others := DecodeMany(first.value.rest, count - 1);
        if others.None? then None else Some(ReadSeq([first.value.item] + others.value.items, others.value.rest))
  }

  /** Decoding inverts encoding and leaves exactly what followed the item. */
  lemma {:induction false} DecodeEncode(i: Item, rest: bytes)
    requires Encodable(i)
    ensures Decode(Encode(i) + rest) == Some(Read(i, rest))
    decreases i, 0
  {
    var b := Encode(i) + rest;
    match i
    case Uint(n) =>
      HeadRoundTrip(0, n, rest);
      assert b[|Head(0, n)|..] == rest;
    case Neg(m) =>
      HeadRoundTrip(1, m, rest);
      assert b[|Head(1, m)|..] == rest;
    case Text(t) =>
      HeadRoundTrip(3, |t|, t + rest);
      var size := |Head(3, |t|)|;
      assert b == Head(3, |t|) + (t + rest);
      assert b[size..size + |t|] == t && b[size + |t|..] == rest;
    case Array(items) =>
      var tail := EncodeAll(items) + rest;
      HeadRoundTrip(4, |items|, tail);
      assert b == Head(4, |items|) + tail;
      assert b[|Head(4, |items|)|..] == tail;
      DecodeEncodeMany(items, rest);
  }

  lemma {:induction false} DecodeEncodeMany(items: seq<Item>, rest: bytes)
    requires AllEncodable(items)
    ensures DecodeMany(EncodeAll(items) + rest, |items|) == Some(ReadSeq(items, rest))
    decreases items, 0
  {
    if |items| == 0 {
      assert EncodeAll(items) + rest == rest;
    } else {
      var tail := EncodeAll(items[1..]) + rest;
      Assoc(Encode(items[0]), EncodeAll(items[1..]), rest);
      DecodeEncode(items[0], tail);
      DecodeEncodeMany(items[1..], rest);
      assert items == [items[0]] + items[1..];
    }
  }

  /** The other direction: whatever decodes is the one encoding of what it decodes to. */
  lemma {:induction false} EncodeDecode(b: bytes)
    requires Decode(b).Some?
    ensures var r := Decode(b).value; Encodable(r.item) && b == Encode(r.item) + r.rest
    decreases |b|, 0
  {
    HeadIsShortest(b);
    var r, h := Decode(b).value, ReadHead(b).value;
    var head, tail := Head(h.major, h.length), b[h.size..];
    Halves(b, h.size);
    assert b == head + tail;
    if h.major == 4 {
      EncodeDecodeMany(tail, h.length);
      var items := DecodeMany(tail, h.length).value;
      Assoc(head, EncodeAll(items.items), items.rest);
    } else if h.major == 3 {
      TextBehind(b, h.size, h.length);
      Assoc(head, tail[..h.length], tail[h.length..]);
    }
  }

  lemma TextBehind(b: bytes, size: nat, length: nat)
    requires size + length <= |b|
    ensures b[size..size + length] == b[size..][..length] && b[size + length..] == b[size..][length..]
    ensures b[size..] == b[size..][..length] + b[size..][length..]
  {
  }

  lemma {:induction false} EncodeDecodeMany(b: bytes, count: nat)
    requires DecodeMany(b, count).Some?
    ensures var r := DecodeMany(b, count).value; AllEncodable(r.items) && b == EncodeAll(r.items) + r.rest
    decreases |b|, 1, count
  {
    if count == 0 {
    } else {
      var first := Decode(b).value;
      EncodeDecode(b);
      EncodeDecodeMany(first.rest, count - 1);
      var others := DecodeMany(first.rest, count - 1).value;
      EncodeAllCons(first.item, others.items, others.rest);
    }
  }

  lemma EncodeAllCons(i: Item, items: seq<Item>, rest: bytes)
    requires Encodable(i) && AllEncodable(items)
    ensures AllEncodable([i] + items)
    ensures EncodeAll([i] + items) + rest == Encode(i) + (EncodeAll(items) + rest)
  {
    var all := [i] + items;
    assert all[0] == i && all[1..] == items;
    assert forall k :: 0 <= k < |all| ==> all[k] == if k == 0 then i else items[k - 1];
  }

  /** No encoding is a prefix of another, so a record needs no end marker. */
  lemma PrefixFree(i: Item, j: Item)
    requires Encodable(i) && Encodable(j)
    requires Encode(i) <= Encode(j)
    ensures i == j
  {
    var tail := Encode(j)[|Encode(i)|..];
    assert Encode(j) == Encode(i) + tail && Encode(j) == Encode(j) + [];
    DecodeEncode(i, tail);
    DecodeEncode(j, []);
  }

  // ---- the writer ----

  class CborWriter {
    var buf: bytes

    constructor ()
      ensures buf == []
    {
      buf := [];
    }

    method AppendBigEndian(value: nat, byteCount: nat)
      modifies this
      ensures buf == old(buf) + BigEndian(value, byteCount)
    {
      var i: nat := byteCount;
      while i > 0
        invariant i <= byteCount
        invariant buf + BigEndianLow(value, i) == old(buf) + BigEndianLow(value, byteCount)
      {
        i := i - 1;
        buf := buf + [Shift(value, i) % 256];
      }
      LowIsBigEndian(value, byteCount);
    }

    method WriteTypeAndLength(major: nat, length: nat)
      requires major < 8 && length <= MAX_U64
      modifies this
      ensures buf == old(buf) + Head(major, length)
    {
      ghost var start := buf;
      if length < 24 {
        buf := buf + [32 * major + length];
      } else if length <= 0xFF {
        buf := buf + [32 * major + 24];
        buf := buf + [length];
        assert BigEndian(length, 1) == [length];
      } else if length <= 0xFFFF {
        buf := buf + [32 * major + 25];
        AppendBigEndian(length, 2);
        Assoc(start, [32 * major + 25], BigEndian(length, 2));
      } else if length <= 0xFFFF_FFFF {
        buf := buf + [32 * major + 26];
        AppendBigEndian(length, 4);
        Assoc(start, [32 * major + 26], BigEndian(length, 4));
      } else {
        buf := buf + [32 * major + 27];
        AppendBigEndian(length, 8);
        Assoc(start, [32 * major + 27], BigEndian(length, 8));
      }
    }

    method WriteArrayHeader(count: nat)
      requires count <= MAX_U64
      modifies this
      ensures buf == old(buf) + Head(4, count)
    {
      WriteTypeAndLength(4, count);
    }

    method WriteUnsigned(value: nat)
      requires value <= MAX_U64
      modifies this
      ensures buf == old(buf) + Encode(Uint(value))
    {
      WriteTypeAndLength(0, value);
    }

    /** Negative integers go out as major type 1 with argument -1 - value. */
    method WriteSigned(value: int)
      requires -MAX_U64 - 1 <= value <= MAX_U64
      modifies this
      ensures buf == old(buf) + Encode(if value >= 0 then Uint(value) else Neg(-1 - value))
    {
      if value >= 0 {
        WriteUnsigned(value);
      } else {
        WriteTypeAndLength(1, -1 - value);
      }
    }

    method WriteString(value: bytes)
      requires |value| <= MAX_U64
      modifies this
      ensures buf == old(buf) + Encode(Text(value))
    {
      WriteTypeAndLength(3, |value|);
      buf := buf + value;
    }
  }

  /** `value >> (8 * n)`. */
  function Shift(value: nat, n: nat): nat { if n == 0 then value else Shift(value / 256, n - 1) }

  /** The low `n` bytes of a value from the most significant one down, as the writer's loop emits them. */
  function BigEndianLow(value: nat, n: nat): bytes {
    if n == 0 then [] else [Shift(value, n - 1) % 256] + BigEndianLow(value, n - 1)
  }

  lemma {:induction false} LowIsBigEndian(value: nat, n: nat)
    ensures BigEndianLow(value, n) == BigEndian(value, n)
  {
    if n == 0 {
    } else {
      LowIsBigEndian(value, n - 1);
      LowIsBigEndian(value / 256, n - 1);
      LowShift(value, n);
    }
  }

  lemma {:induction false} LowShift(value: nat, n: nat)
    requires n > 0
    ensures BigEndianLow(value, n) == BigEndianLow(value / 256, n - 1) + [value % 256]
  {
    if n <= 1 {
    } else {
      LowShift(value, n - 1);
    }
  }

  // ---- log records ----

  /** The widths of the firmware's fields. */
  predicate FieldsFit(r: LogRecord) {
    && r.seqNo <= 0xFFFF_FFFF && r.uptimeMs <= MAX_U64
    && |r.tag| <= MAX_TAG && |r.message| <= MAX_MESSAGE
  }

  function RecordItem(r: LogRecord): Item {
    Array([Uint(r.seqNo), Uint(r.uptimeMs), Uint(LevelNumber(r.level)), Text(r.tag), Text(r.message)])
  }

  lemma RecordEncodable(r: LogRecord)
    requires FieldsFit(r)
    ensures Encodable(RecordItem(r))
  {
    var items := RecordItem(r).items;
    assert forall k :: 0 <= k < |items| ==> Encodable(items[k]);
  }

  ghost function RecordBytes(r: LogRecord): bytes
    requires FieldsFit(r)
  {
    RecordEncodable(r);
    Encode(RecordItem(r))
  }
}
