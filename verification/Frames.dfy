/**
 * The on-flash frame format of a journal segment (log/FrameCodec.h): a 2-byte
 * little-endian length followed by that many payload bytes. `Payloads` and
 * `ValidLen` say what a byte string means as a sequence of frames; the methods
 * are the loops of the firmware, proved against them.
 */
module Frames {
  import opened Wrappers

  const MAX_PAYLOAD := 0xFFFF

  /** The length prefix as the writer computes it: the size truncated to 16 bits. */
  function Header(size: nat): bytes {
    [size % 256, (size / 256) % 256]
  }

  function Frame(payload: bytes): bytes {
    Header(|payload|) + payload
  }

  function Encode(payloads: seq<bytes>): bytes {
    if |payloads| == 0 then [] else Frame(payloads[0]) + Encode(payloads[1..])
  }

  ghost predicate Storable(payloads: seq<bytes>) {
    forall i :: 0 <= i < |payloads| ==> |payloads[i]| <= MAX_PAYLOAD
  }

  function Length16(lo: byte, hi: byte): nat { (lo as int) + 256 * (hi as int) }

  function FrameSize(b: bytes): nat
    requires |b| >= 2
  {
    2 + Length16(b[0], b[1])
  }

  predicate HasFrame(b: bytes) {
    |b| >= 2 && |b| >= FrameSize(b)
  }

  /** The payloads of the complete frames at the front of `b`. */
  function Payloads(b: bytes): seq<bytes>
    decreases |b|
  {
    if HasFrame(b) then [b[2..FrameSize(b)]] + Payloads(b[FrameSize(b)..]) else []
  }

  /** Where the last of those frames ends. */
  function ValidLen(b: bytes): (n: nat)
    ensures n <= |b|
    decreases |b|
  {
    if HasFrame(b) then FrameSize(b) + ValidLen(b[FrameSize(b)..]) else 0
  }

  /** What follows the last complete frame. */
  function Torn(b: bytes): bytes { b[ValidLen(b)..] }

  // ---- the format as a code ----

  lemma FrameIsFrame(payload: bytes, rest: bytes)
    requires |payload| <= MAX_PAYLOAD
    ensures var b := Frame(payload) + rest;
            HasFrame(b) && FrameSize(b) == 2 + |payload| && b[2..FrameSize(b)] == payload && b[FrameSize(b)..] == rest
  {
    var b := Frame(payload) + rest;
    assert b[0] == |payload| % 256 && b[1] == (|payload| / 256) % 256;
  }

  /** One frame reads back as itself exactly when its payload fits the 16-bit prefix. */
  lemma FrameRoundTripIff(payload: bytes)
    ensures Payloads(Frame(payload)) == [payload] <==> |payload| <= MAX_PAYLOAD
  {
    if |payload| <= MAX_PAYLOAD {
      FrameIsFrame(payload, []);
      assert Frame(payload) + [] == Frame(payload);
    } else if Payloads(Frame(payload)) == [payload] {
      var b := Frame(payload);
      assert HasFrame(b);
      assert Payloads(b)[0] == b[2..FrameSize(b)];
    }
  }

  lemma FrameThen(payload: bytes, rest: bytes)
    requires |payload| <= MAX_PAYLOAD
    ensures Payloads(Frame(payload) + rest) == [payload] + Payloads(rest)
    ensures ValidLen(Frame(payload) + rest) == 2 + |payload| + ValidLen(rest)
  {
    FrameIsFrame(payload, rest);
  }

  lemma {:induction false} RoundTrip(payloads: seq<bytes>, rest: bytes)
    requires Storable(payloads)
    ensures Payloads(Encode(payloads) + rest) == payloads + Payloads(rest)
    ensures ValidLen(Encode(payloads) + rest) == |Encode(payloads)| + ValidLen(rest)
  {
    if |payloads| == 0 {
      NoneAround(rest);
      NoneAround(Payloads(rest));
    } else {
      var first, more := payloads[0], payloads[1..];
      Assoc(Frame(first), Encode(more), rest);
      FrameThen(first, Encode(more) + rest);
      RoundTrip(more, rest);
      Assoc([first], more, Payloads(rest));
      assert payloads == [first] + more;
    }
  }

  lemma {:induction false} EncodeConcat(ps: seq<bytes>, qs: seq<bytes>)
    ensures Encode(ps + qs) == Encode(ps) + Encode(qs)
  {
    if |ps| == 0 {
      assert ps + qs == qs;
    } else {
      assert (ps + qs)[1..] == ps[1..] + qs;
      EncodeConcat(ps[1..], qs);
    }
  }

  /** A frame found at the front of some bytes is the frame of its payload. */
  lemma FirstFrame(b: bytes, n: nat)
    requires HasFrame(b) && n == FrameSize(b)
    ensures n - 2 <= MAX_PAYLOAD && Frame(b[2..n]) + b[n..] == b
  {
    Halves(b, n);
    assert b[..n] == b[..2] + b[2..n];
    assert Header(n - 2) == b[..2];
  }

  lemma TornBehind(b: bytes, n: nat)
    requires HasFrame(b) && n == FrameSize(b)
    ensures Torn(b) == Torn(b[n..])
  {
    DropTwice(b, n, ValidLen(b[n..]));
  }

  /** Every byte string is its complete frames followed by a torn tail that holds none. */
  lemma {:induction false} Decompose(b: bytes)
    ensures b == Encode(Payloads(b)) + Torn(b)
    ensures |Encode(Payloads(b))| == ValidLen(b)
    ensures Storable(Payloads(b)) && !HasFrame(Torn(b))
    decreases |b|
  {
    if HasFrame(b) {
      var n := FrameSize(b);
      var payload, rest := b[2..n], b[n..];
      Decompose(rest);
      FirstFrame(b, n);
      TornBehind(b, n);
      Parted([payload], Payloads(rest));
      Assoc(Frame(payload), Encode(Payloads(rest)), Torn(rest));
    } else {
      NoneAround(b);
    }
  }

  lemma TornJoins(a: bytes, b: bytes)
    requires ValidLen(a + b) == ValidLen(a) + ValidLen(Torn(a) + b)
    ensures Torn(a + b) == Torn(Torn(a) + b)
  {
    var v := ValidLen(a);
    DropFrom(a, b, v);
    DropTwice(a + b, v, ValidLen(Torn(a) + b));
  }

  /** Reading may resume after any prefix from the bytes that prefix left torn. */
  lemma PayloadsConcat(a: bytes, b: bytes)
    ensures Payloads(a + b) == Payloads(a) + Payloads(Torn(a) + b)
    ensures ValidLen(a + b) == ValidLen(a) + ValidLen(Torn(a) + b)
    ensures Torn(a + b) == Torn(Torn(a) + b)
  {
    Decompose(a);
    Assoc(Encode(Payloads(a)), Torn(a), b);
    RoundTrip(Payloads(a), Torn(a) + b);
    TornJoins(a, b);
  }

  /** Dropping the torn tail keeps every complete frame, and doing it again drops nothing. */
  lemma DropTorn(b: bytes)
    ensures Payloads(b[..ValidLen(b)]) == Payloads(b)
    ensures ValidLen(b[..ValidLen(b)]) == ValidLen(b)
  {
    Decompose(b);
    assert b[..ValidLen(b)] == Encode(Payloads(b)) + [];
    RoundTrip(Payloads(b), []);
  }

  /** Appending one more frame to a file of complete frames adds exactly that payload. */
  lemma AppendFrame(b: bytes, payload: bytes)
    requires ValidLen(b) == |b| && |payload| <= MAX_PAYLOAD
    ensures Payloads(b + Frame(payload)) == Payloads(b) + [payload]
    ensures ValidLen(b + Frame(payload)) == |b| + 2 + |payload|
  {
    PayloadsConcat(b, Frame(payload));
    assert Torn(b) == [];
    NoneAround(Frame(payload));
    FrameThen(payload, []);
    NoneAround([payload]);
  }

  /**
   * A write of one frame that is cut anywhere leaves either the old frames or,
   * when nothing is missing, the old frames and the new one.
   */
  lemma CutFrame(b: bytes, payload: bytes, cut: nat)
    requires ValidLen(b) == |b| && |payload| <= MAX_PAYLOAD
    requires |b| <= cut <= |b| + 2 + |payload|
    ensures Payloads((b + Frame(payload))[..cut])
         == if cut == |b| + 2 + |payload| then Payloads(b) + [payload] else Payloads(b)
    ensures ValidLen((b + Frame(payload))[..cut]) == if cut == |b| + 2 + |payload| then cut else |b|
  {
    var whole := b + Frame(payload);
    if cut == |whole| {
      AppendFrame(b, payload);
      assert whole[..cut] == whole;
    } else {
      CutWithinFrame(b, payload, cut - |b|);
      CutBehind(b, Frame(payload), cut);
    }
  }

  lemma CutWithinFrame(b: bytes, payload: bytes, n: nat)
    requires ValidLen(b) == |b| && |payload| <= MAX_PAYLOAD && n < 2 + |payload|
    ensures Payloads(b + Frame(payload)[..n]) == Payloads(b) && ValidLen(b + Frame(payload)[..n]) == |b|
  {
    PartOfFrame(payload, n);
    TornOnly(b, Frame(payload)[..n]);
  }

  /** Bytes without a complete frame behind complete frames add nothing. */
  lemma TornOnly(b: bytes, part: bytes)
    requires ValidLen(b) == |b| && Payloads(part) == [] && ValidLen(part) == 0
    ensures Payloads(b + part) == Payloads(b) && ValidLen(b + part) == |b|
  {
    PayloadsConcat(b, part);
    assert Torn(b) == [];
    NoneAround(part);
    NoneAround(Payloads(b));
  }

  lemma PartOfFrame(payload: bytes, n: nat)
    requires |payload| <= MAX_PAYLOAD && n < 2 + |payload|
    ensures !HasFrame(Frame(payload)[..n]) && Payloads(Frame(payload)[..n]) == [] && ValidLen(Frame(payload)[..n]) == 0
  {
    var f, part := Frame(payload), Frame(payload)[..n];
    FrameIsFrame(payload, []);
    NoneAround(f);
    if n >= 2 {
      assert part[0] == f[0] && part[1] == f[1];
    }
  }

  /** The frames of a shorter copy of a file are a prefix of the file's frames. */
  lemma PrefixFrames(b: bytes, n: nat)
    requires n <= |b|
    ensures Payloads(b[..n]) <= Payloads(b)
    ensures ValidLen(b[..n]) <= ValidLen(b)
  {
    assert b == b[..n] + b[n..];
    PayloadsConcat(b[..n], b[n..]);
  }

  // ---- FrameCodec ----

  /**
   * Reads the frame at `offset`. On success the payload is
   * `buf[frameStart..frameStart + frameLen]` and `next` is past the whole frame;
   * otherwise `next` is `offset`.
   */
  method ReadNextFrame(buf: bytes, offset: nat) returns (ok: bool, next: nat, frameStart: nat, frameLen: nat)
    requires offset <= |buf|
    ensures ok == HasFrame(buf[offset..])
    ensures ok ==> next == offset + FrameSize(buf[offset..]) <= |buf|
    ensures ok ==> frameStart + frameLen == next && frameStart == offset + 2
    ensures ok ==> Payloads(buf[offset..]) == [buf[frameStart..frameStart + frameLen]] + Payloads(buf[next..])
    ensures ok ==> ValidLen(buf[offset..]) == 2 + frameLen + ValidLen(buf[next..])
    ensures !ok ==> next == offset
  {
    ok, next, frameStart, frameLen := false, offset, 0, 0;
    if offset + 2 > |buf| {
      return;
    }
    var payloadLen := Length16(buf[offset], buf[offset + 1]);
    if offset + 2 + payloadLen > |buf| {
      return;
    }
    frameStart := offset + 2;
    frameLen := payloadLen;
    next := offset + 2 + payloadLen;
    ok := true;
    var b := buf[offset..];
    assert HasFrame(b);
    assert b[2..FrameSize(b)] == buf[frameStart..frameStart + frameLen];
    assert b[FrameSize(b)..] == buf[next..];
  }

  method CountFrames(buf: bytes) returns (count: nat)
    ensures count == |Payloads(buf)|
  {
    var offset := 0;
    count := 0;
    assert buf[0..] == buf;
    while true
      invariant offset <= |buf|
      invariant count + |Payloads(buf[offset..])| == |Payloads(buf)|
      decreases |buf| - offset
    {
      var ok, next, _, _ := ReadNextFrame(buf, offset);
      if !ok {
        break;
      }
      offset := next;
      count := count + 1;
    }
  }

  // ---- FrameScanner ----

  lemma FedSoFar(fed: bytes, rest: bytes, taken: nat)
    requires taken <= |rest|
    ensures (fed + rest[..taken]) + rest[taken..] == fed + rest
  {
    Halves(rest, taken);
    Assoc(fed, rest[..taken], rest[taken..]);
  }

  /** The streaming counterpart of CountFrames: fed a file in pieces of any size. */
  class FrameScanner {
    var prefix0: byte
    var prefixHave: nat
    var payloadRemaining: nat
    var completeFrames: nat
    var validBytes: nat
    var totalBytes: nat
    ghost var fed: bytes

    /** The fields are determined by the bytes fed so far, however they were split. */
    ghost predicate Valid()
      reads this
    {
      var torn := Torn(fed);
      && completeFrames == |Payloads(fed)|
      && validBytes == ValidLen(fed)
      && totalBytes == |fed|
      && prefixHave == (if |torn| == 1 then 1 else 0)
      && (|torn| == 1 ==> prefix0 == torn[0])
      && payloadRemaining == (if |torn| >= 2 then FrameSize(torn) - |torn| else 0)
      && !HasFrame(torn)
    }

    constructor ()
      ensures Valid() && fed == []
    {
      prefix0, prefixHave, payloadRemaining := 0, 0, 0;
      completeFrames, validBytes, totalBytes := 0, 0, 0;
      fed := [];
    }

    /** What one more byte string does to the torn tail, given what it completes. */
    lemma Absorb(piece: bytes, t: bytes)
      requires Valid() && t == Torn(fed) + piece
      requires HasFrame(t) ==> FrameSize(t) == |t|
      ensures Payloads(fed + piece) == Payloads(fed) + (if HasFrame(t) then [t[2..]] else [])
      ensures ValidLen(fed + piece) == (if HasFrame(t) then |fed + piece| else ValidLen(fed))
      ensures Torn(fed + piece) == (if HasFrame(t) then [] else t)
    {
      PayloadsConcat(fed, piece);
      if HasFrame(t) {
        assert t[FrameSize(t)..] == [];
        assert t[2..FrameSize(t)] == t[2..];
      }
    }

    method Feed(data: bytes)
      requires Valid()
      modifies this
      ensures Valid() && fed == old(fed) + data
    {
      var rest := data;
      ghost var all := fed + data;
      while |rest| > 0
        invariant Valid() && fed + rest == all
        decreases |rest|
      {
        ghost var before := fed;
        var taken := FeedSome(rest);
        FedSoFar(before, rest, taken);
        rest := rest[taken..];
      }
      NoneAround(fed);
    }

    /** One turn of the loop in `Feed`: what is left of the payload, or one byte of a length prefix. */
    method FeedSome(data: bytes) returns (taken: nat)
      requires Valid() && |data| > 0
      modifies this
      ensures Valid() && 0 < taken <= |data| && fed == old(fed) + data[..taken]
    {
      if payloadRemaining > 0 {
        taken := if payloadRemaining < |data| then payloadRemaining else |data|;
        SkipPayload(data[..taken]);
      } else {
        taken := 1;
        TakePrefixByte(data[0]);
        assert data[..1] == [data[0]];
      }
    }

    /** The branch of `Feed` for bytes inside a payload: only their number matters. */
    method SkipPayload(piece: bytes)
      requires Valid() && 0 < |piece| <= payloadRemaining
      modifies this
      ensures Valid() && fed == old(fed) + piece
    {
      assert FrameSize(Torn(fed) + piece) == FrameSize(Torn(fed));
      Absorb(piece, Torn(fed) + piece);
      totalBytes := totalBytes + |piece|;
      payloadRemaining := payloadRemaining - |piece|;
      if payloadRemaining == 0 {
        CompleteFrame();
      }
      fed := fed + piece;
    }

    /** The branch of `Feed` for one byte of a length prefix. */
    method TakePrefixByte(b: byte)
      requires Valid() && payloadRemaining == 0
      modifies this
      ensures Valid() && fed == old(fed) + [b]
    {
      PrefixSoFar(b);
      Absorb([b], if prefixHave == 0 then [b] else [prefix0, b]);
      fed := fed + [b];
      totalBytes := totalBytes + 1;
      if prefixHave == 0 {
        prefix0 := b;
        prefixHave := 1;
      } else {
        prefixHave := 0;
        payloadRemaining := Length16(prefix0, b);
        if payloadRemaining == 0 {
          CompleteFrame();
        }
      }
    }

    lemma PrefixSoFar(b: byte)
      requires Valid() && payloadRemaining == 0
      ensures Torn(fed) + [b] == if prefixHave == 0 then [b] else [prefix0, b]
    {
      var torn := Torn(fed);
      assert |torn| < 2;
      if |torn| == 0 {
        NoneAround([b]);
      } else {
        assert torn == [prefix0];
      }
    }

    method CompleteFrame()
      modifies this`completeFrames, this`validBytes
      ensures completeFrames == old(completeFrames) + 1 && validBytes == totalBytes
    {
      completeFrames := completeFrames + 1;
      validBytes := totalBytes;
    }
  }

  /**
   * Scans a whole file in chunks of `chunkSize`, as the boot recovery does: the
   * answer does not depend on the chunk size.
   */
  method ScanFile(file: bytes, chunkSize: nat) returns (frames: nat, validBytes: nat, totalBytes: nat)
    requires chunkSize > 0
    ensures frames == |Payloads(file)| && validBytes == ValidLen(file) && totalBytes == |file|
  {
    var scanner := new FrameScanner();
    var pos := 0;
    while true
      invariant pos <= |file|
      invariant fresh(scanner) && scanner.Valid() && scanner.fed == file[..pos]
      decreases |file| - pos
    {
      var got := if chunkSize < |file| - pos then chunkSize else |file| - pos;
      if got == 0 {
        break;
      }
      assert file[..pos + got] == file[..pos] + file[pos..pos + got];
      scanner.Feed(file[pos..pos + got]);
      pos := pos + got;
    }
    assert file[..pos] == file;
    frames, validBytes, totalBytes := scanner.completeFrames, scanner.validBytes, scanner.totalBytes;
  }
}
