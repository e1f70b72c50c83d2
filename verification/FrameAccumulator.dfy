/**
 * The batch-building walk over frames (log/FrameAccumulator.cpp) and the chunked
 * segment read built on it (the inner loop of Journal::readFrom). `Walk` is the
 * walk over a list of payloads; `WalkTakes` says, without recursion, how far it gets.
 */
module FrameAccumulator {
  import opened Wrappers
  import opened Frames

  /** The values `accumulateFrames` updates by reference. */
  datatype Acc = Acc(seqNo: nat, started: bool, firstSeq: nat, frames: bytes, count: nat)

  datatype Limits = Limits(maxBytes: nat, maxRecords: nat)

  predicate AtLimit(a: Acc, lim: Limits) {
    a.count >= lim.maxRecords || |a.frames| >= lim.maxBytes
  }

  function Skip(a: Acc): Acc { a.(seqNo := a.seqNo + 1) }

  function Keep(a: Acc, payload: bytes): Acc {
    Acc(a.seqNo + 1, true, if a.started then a.firstSeq else a.seqNo, a.frames + payload, a.count + 1)
  }

  /** The accumulated values, whether a limit stopped the walk, and how many frames it consumed. */
  datatype Walked = Walked(acc: Acc, limit: bool, taken: nat)

  function Walk(ps: seq<bytes>, a: Acc, wanted: nat, lim: Limits): (w: Walked)
    ensures w.taken <= |ps| && (w.limit <==> w.taken < |ps|)
  {
    if |ps| == 0 then Walked(a, false, 0)
    else if a.seqNo < wanted then
      var w := Walk(ps[1..], Skip(a), wanted, lim);
      w.(taken := w.taken + 1)
    else if AtLimit(a, lim) then Walked(a, true, 0)
    else
      var w := Walk(ps[1..], Keep(a, ps[0]), wanted, lim);
      w.(taken := w.taken + 1)
  }

  /** The walk one frame at a time. */
  lemma WalkNext(payload: bytes, tail: seq<bytes>, a: Acc, wanted: nat, lim: Limits)
    ensures var w := Walk([payload] + tail, a, wanted, lim);
            if a.seqNo < wanted then w == OneMore(Walk(tail, Skip(a), wanted, lim))
            else if AtLimit(a, lim) then w == Walked(a, true, 0)
            else w == OneMore(Walk(tail, Keep(a, payload), wanted, lim))
  {
    Parted([payload], tail);
  }

  function OneMore(w: Walked): Walked { w.(taken := w.taken + 1) }

  /** A walk may be cut anywhere and resumed from what it had accumulated. */
  lemma {:induction false} WalkConcat(ps: seq<bytes>, qs: seq<bytes>, a: Acc, wanted: nat, lim: Limits)
    ensures var w := Walk(ps, a, wanted, lim);
            var all := Walk(ps + qs, a, wanted, lim);
            if w.limit then all == w
            else var v := Walk(qs, w.acc, wanted, lim); all == v.(taken := |ps| + v.taken)
  {
    if |ps| == 0 {
      assert ps + qs == qs;
    } else {
      assert (ps + qs)[1..] == ps[1..] + qs;
      if a.seqNo < wanted {
        WalkConcat(ps[1..], qs, Skip(a), wanted, lim);
      } else if !AtLimit(a, lim) {
        WalkConcat(ps[1..], qs, Keep(a, ps[0]), wanted, lim);
      }
    }
  }

  /** Once past `wanted`, which earlier point the caller asked for is irrelevant. */
  lemma {:induction false} WalkPastWanted(ps: seq<bytes>, a: Acc, wanted: nat, wanted': nat, lim: Limits)
    requires wanted <= a.seqNo && wanted' <= a.seqNo
    ensures Walk(ps, a, wanted, lim) == Walk(ps, a, wanted', lim)
  {
    if |ps| == 0 || AtLimit(a, lim) {
    } else {
      WalkPastWanted(ps[1..], Keep(a, ps[0]), wanted, wanted', lim);
    }
  }

  /** Frames all below `wanted` are only counted. */
  lemma {:induction false} WalkSkips(ps: seq<bytes>, a: Acc, wanted: nat, lim: Limits)
    requires a.seqNo + |ps| <= wanted
    ensures Walk(ps, a, wanted, lim) == Walked(a.(seqNo := a.seqNo + |ps|), false, |ps|)
  {
    if |ps| == 0 {
    } else {
      WalkSkips(ps[1..], Skip(a), wanted, lim);
    }
  }

  /** After `i` records both limits still leave room. */
  ghost predicate RoomAfter(ps: seq<bytes>, i: nat, a: Acc, lim: Limits)
    requires i <= |ps|
  {
    a.count + i < lim.maxRecords && |a.frames| + |Flatten(ps[..i])| < lim.maxBytes
  }

  /** `n` records fit: before each of them there is room. */
  ghost predicate Fits(ps: seq<bytes>, n: nat, a: Acc, lim: Limits)
    requires n <= |ps|
  {
    forall i :: 0 <= i < n ==> RoomAfter(ps, i, a, lim)
  }

  /**
   * A walk at or past `wanted` takes the longest prefix that fits, adds exactly
   * its payloads in order, and reports a limit if and only if something is left.
   */
  lemma {:induction false} WalkTakes(ps: seq<bytes>, a: Acc, wanted: nat, lim: Limits)
    requires wanted <= a.seqNo
    ensures var w := Walk(ps, a, wanted, lim);
            && Fits(ps, w.taken, a, lim)
            && (w.taken < |ps| ==> AtLimit(w.acc, lim))
            && w.acc.seqNo == a.seqNo + w.taken
            && w.acc.count == a.count + w.taken
            && w.acc.frames == a.frames + Flatten(ps[..w.taken])
            && w.acc.started == (a.started || w.taken > 0)
            && w.acc.firstSeq == (if a.started || w.taken == 0 then a.firstSeq else a.seqNo)
  {
    var w := Walk(ps, a, wanted, lim);
    if |ps| == 0 || AtLimit(a, lim) {
      assert ps[..0] == [];
    } else {
      var b := Keep(a, ps[0]);
      var v := Walk(ps[1..], b, wanted, lim);
      assert w == v.(taken := v.taken + 1);
      WalkTakes(ps[1..], b, wanted, lim);
      OneMoreFits(ps, w.taken, a, lim);
      FlattenFirst(ps, w.taken);
      Assoc(a.frames, ps[0], Flatten(ps[1..][..w.taken - 1]));
    }
  }

  lemma OneMoreFits(ps: seq<bytes>, n: nat, a: Acc, lim: Limits)
    requires 0 < n <= |ps| && !AtLimit(a, lim) && Fits(ps[1..], n - 1, Keep(a, ps[0]), lim)
    ensures Fits(ps, n, a, lim)
  {
    var tail, b := ps[1..], Keep(a, ps[0]);
    forall i | 0 <= i < n
      ensures RoomAfter(ps, i, a, lim)
    {
      if i > 0 {
        assert RoomAfter(tail, i - 1, b, lim);
        FlattenFirst(ps, i);
      } else {
        assert ps[..0] == [];
      }
    }
  }

  lemma FlattenFirst(ps: seq<bytes>, n: nat)
    requires 0 < n <= |ps|
    ensures Flatten(ps[..n]) == ps[0] + Flatten(ps[1..][..n - 1])
  {
    assert ps[..n][1..] == ps[1..][..n - 1];
  }

  /** The walk has taken the frames `front` from `buf`, up to `offset`, and has `rest` in front of it. */
  ghost predicate AtFrame(buf: bytes, offset: nat, front: seq<bytes>, rest: seq<bytes>) {
    && offset <= |buf| && rest == Payloads(buf[offset..]) && Payloads(buf) == front + rest
    && buf[..offset] == Encode(front) && offset + ValidLen(buf[offset..]) == ValidLen(buf)
  }

  lemma OneMoreFrame(buf: bytes, offset: nat, next: nat, front: seq<bytes>, rest: seq<bytes>)
    returns (payload: bytes, tail: seq<bytes>)
    requires AtFrame(buf, offset, front, rest) && HasFrame(buf[offset..])
    requires next == offset + FrameSize(buf[offset..]) <= |buf|
    requires Payloads(buf[offset..]) == [buf[offset + 2..next]] + Payloads(buf[next..])
    requires ValidLen(buf[offset..]) == next - offset + ValidLen(buf[next..])
    ensures payload == buf[offset + 2..next] && rest == [payload] + tail
    ensures AtFrame(buf, next, front + [payload], tail)
  {
    payload, tail := buf[offset + 2..next], Payloads(buf[next..]);
    Assoc(front, [payload], tail);
    var here := buf[offset..];
    FirstFrame(here, next - offset);
    assert here[2..next - offset] == payload && here[next - offset..] == buf[next..];
    EncodeConcat(front, [payload]);
    assert [payload][1..] == [] && Encode([payload]) == Frame(payload);
    assert buf[..next] == buf[..offset] + here[..next - offset];
    assert here[..next - offset] == Frame(payload);
  }

  /** With `acc` accumulated at `offset`, what is still to do ends as the whole walk does. */
  ghost predicate OnTheWay(
    buf: bytes, offset: nat, front: seq<bytes>, acc: Acc, whole: Walked, wanted: nat, lim: Limits
  ) {
    && offset <= |buf| && AtFrame(buf, offset, front, Payloads(buf[offset..]))
    && var w := Walk(Payloads(buf[offset..]), acc, wanted, lim); whole == w.(taken := |front| + w.taken)
  }

  /** The walk is over, and `offset` is behind the last frame it took. */
  ghost predicate Done(buf: bytes, offset: nat, whole: Walked) {
    && offset <= |buf| && whole.taken <= |Payloads(buf)| && buf[..offset] == Encode(Payloads(buf)[..whole.taken])
    && (!whole.limit ==> offset == ValidLen(buf))
  }

  lemma Begins(buf: bytes, a: Acc, wanted: nat, lim: Limits)
    ensures OnTheWay(buf, 0, [], a, Walk(Payloads(buf), a, wanted, lim), wanted, lim)
  {
    TakeAll(buf);
    NoneAround(Payloads(buf));
  }

  lemma Advances(buf: bytes, offset: nat, next: nat, front: seq<bytes>, acc: Acc, whole: Walked,
                 wanted: nat, lim: Limits)
    returns (payload: bytes)
    requires OnTheWay(buf, offset, front, acc, whole, wanted, lim) && HasFrame(buf[offset..])
    requires next == offset + FrameSize(buf[offset..]) <= |buf|
    requires Payloads(buf[offset..]) == [buf[offset + 2..next]] + Payloads(buf[next..])
    requires ValidLen(buf[offset..]) == next - offset + ValidLen(buf[next..])
    ensures payload == buf[offset + 2..next]
    ensures if acc.seqNo < wanted then OnTheWay(buf, next, front + [payload], Skip(acc), whole, wanted, lim)
            else if AtLimit(acc, lim) then whole == Walked(acc, true, |front|) && Done(buf, offset, whole)
            else OnTheWay(buf, next, front + [payload], Keep(acc, payload), whole, wanted, lim)
  {
    var tail;
    payload, tail := OneMoreFrame(buf, offset, next, front, Payloads(buf[offset..]));
    WalkNext(payload, tail, acc, wanted, lim);
    Parted(front, Payloads(buf[offset..]));
  }

  lemma Ends(buf: bytes, offset: nat, front: seq<bytes>, acc: Acc, whole: Walked, wanted: nat, lim: Limits)
    requires OnTheWay(buf, offset, front, acc, whole, wanted, lim) && !HasFrame(buf[offset..])
    ensures whole == Walked(acc, false, |front|) && Done(buf, offset, whole)
  {
    NoneAround(front);
    TakeAll(Payloads(buf));
  }

  /**
   * The walk over whatever complete frames `buf` holds. `consumed` is what the caller
   * may drop from the front of the buffer: exactly the frames the walk took.
   */
  method AccumulateFrames(buf: bytes, a: Acc, wanted: nat, lim: Limits)
    returns (acc: Acc, consumed: nat, limitReached: bool)
    ensures var w := Walk(Payloads(buf), a, wanted, lim);
            acc == w.acc && limitReached == w.limit
            && consumed <= |buf| && buf[..consumed] == Encode(Payloads(buf)[..w.taken])
    ensures !limitReached ==> consumed == ValidLen(buf)
  {
    acc, consumed, limitReached := a, 0, false;
    var offset := 0;
    ghost var front: seq<bytes> := [];
    ghost var whole := Walk(Payloads(buf), a, wanted, lim);
    Begins(buf, a, wanted, lim);
    while true
      invariant offset == consumed && !limitReached
      invariant OnTheWay(buf, offset, front, acc, whole, wanted, lim)
      decreases |buf| - offset
    {
      var ok, next, frameStart, frameLen := ReadNextFrame(buf, offset);
      if !ok {
        break;
      }
      ghost var payload := Advances(buf, offset, next, front, acc, whole, wanted, lim);
      ghost var kept := Keep(acc, payload);
      if acc.seqNo < wanted {
        acc := acc.(seqNo := acc.seqNo + 1);
        front := front + [payload];
        offset, consumed := next, next;
        continue;
      }
      if acc.count >= lim.maxRecords || |acc.frames| >= lim.maxBytes {
        limitReached := true;
        return;
      }
      if !acc.started {
        acc := acc.(firstSeq := acc.seqNo, started := true);
      }
      acc := acc.(frames := acc.frames + buf[frameStart..frameStart + frameLen], count := acc.count + 1,
                  seqNo := acc.seqNo + 1);
      assert acc == kept;
      front := front + [payload];
      offset, consumed := next, next;
    }
    Ends(buf, offset, front, acc, whole, wanted, lim);
  }

  /**
   * Chunk independence: reading a segment file `chunkSize` bytes at a time, with
   * only the unconsumed bytes kept between reads, gives what one walk over the
   * whole file gives, whatever the chunk size.
   */
  method ReadSegment(file: bytes, chunkSize: nat, a: Acc, wanted: nat, lim: Limits)
    returns (acc: Acc, limitReached: bool)
    requires chunkSize > 0
    ensures var w := Walk(Payloads(file), a, wanted, lim); acc == w.acc && limitReached == w.limit
  {
    acc, limitReached := a, false;
    var pending: bytes := [];
    var pos: nat, got: nat := 0, chunkSize;
    assert file[..0] == [];
    while got == chunkSize
      invariant pos <= |file| && got <= chunkSize
      invariant !limitReached && Walk(Payloads(file[..pos]), a, wanted, lim)
                == Walked(acc, false, |Payloads(file[..pos])|)
      invariant pending == Torn(file[..pos])
      invariant got < chunkSize ==> pos == |file|
      decreases got == chunkSize, |file| - pos
    {
      got := if chunkSize < |file| - pos then chunkSize else |file| - pos;
      ghost var before := file[..pos];
      var chunk := file[pos..pos + got];
      pending := pending + chunk;
      pos := pos + got;
      TakeMore(file, |before|, got);
      PayloadsConcat(before, chunk);
      WalkConcat(Payloads(before), Payloads(pending), a, wanted, lim);
      var consumed;
      acc, consumed, limitReached := AccumulateFrames(pending, acc, wanted, lim);
      if limitReached {
        Halves(file, pos);
        PayloadsConcat(file[..pos], file[pos..]);
        WalkConcat(Payloads(file[..pos]), Payloads(Torn(file[..pos]) + file[pos..]), a, wanted, lim);
        return;
      }
      pending := pending[consumed..];
    }
    TakeAll(file);
  }
}
