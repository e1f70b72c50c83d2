/**
 * Which closed segments are deleted when a partition runs short
 * (log/SpaceReclaimer.cpp). Water marks and the free percentage are reals.
 */
module SpaceReclaimer {
  import opened Wrappers
  import opened JournalTypes

  datatype SegmentInfo = SegmentInfo(stream: Stream, segmentId: nat, sizeBytes: nat, fullyAcked: bool, ageSeconds: nat)

  datatype Result = Result(segmentIdsToDelete: seq<nat>, reachedLowWaterMark: bool,
                           hadToBreachRetentionWindow: bool, degradedToRamOnly: bool)

  /** What the partition looks like and the configured limits. */
  datatype Pressure = Pressure(totalBytes: nat, freeBytes: nat, retentionSeconds: nat,
                               lowMark: real, criticalMark: real)

  function PercentFree(p: Pressure): real
    requires p.totalBytes > 0
  {
    p.freeBytes as real * 100.0 / p.totalBytes as real
  }

  function TargetFree(p: Pressure): int { (p.totalBytes as real * p.lowMark / 100.0).Floor }

  predicate Short(p: Pressure) { p.totalBytes > 0 && PercentFree(p) < p.lowMark }

  predicate Critical(p: Pressure) { p.totalBytes > 0 && PercentFree(p) < p.criticalMark }

  /** The sacrifice tier of a segment; 0 for one that is never deleted. */
  function Tier(g: SegmentInfo, retention: nat): nat {
    if g.fullyAcked then 1
    else if g.stream == Data && g.ageSeconds > retention then 2
    else if g.stream == Logs then 3
    else if g.stream == Data then 4
    else 0
  }

  function OfTier(gs: seq<SegmentInfo>, tier: nat, retention: nat): seq<SegmentInfo> {
    if |gs| == 0 then []
    else (if Tier(gs[0], retention) == tier then [gs[0]] else []) + OfTier(gs[1..], tier, retention)
  }

  // std::sort by segment id
  function Insert(g: SegmentInfo, gs: seq<SegmentInfo>): seq<SegmentInfo> {
    if |gs| == 0 || g.segmentId <= gs[0].segmentId then [g] + gs else [gs[0]] + Insert(g, gs[1..])
  }

  function SortById(gs: seq<SegmentInfo>): seq<SegmentInfo> {
    if |gs| == 0 then [] else Insert(gs[0], SortById(gs[1..]))
  }

  function SortedTier(gs: seq<SegmentInfo>, tier: nat, retention: nat): seq<SegmentInfo> {
    SortById(OfTier(gs, tier, retention))
  }

  /** The order in which segments would be given up. */
  function Order(gs: seq<SegmentInfo>, retention: nat, critical: bool): seq<SegmentInfo> {
    SortedTier(gs, 1, retention) + SortedTier(gs, 2, retention) + SortedTier(gs, 3, retention)
    + (if critical then SortedTier(gs, 4, retention) else [])
  }

  function Ids(gs: seq<SegmentInfo>): seq<nat> { seq(|gs|, i requires 0 <= i < |gs| => gs[i].segmentId) }

  function Bytes(gs: seq<SegmentInfo>): nat {
    if |gs| == 0 then 0 else gs[0].sizeBytes + Bytes(gs[1..])
  }

  /** How many segments of a list are taken until `freed` reaches `target`. */
  function Needed(gs: seq<SegmentInfo>, freed: nat, target: int): (k: nat)
    ensures k <= |gs|
  {
    if |gs| == 0 || freed >= target then 0 else 1 + Needed(gs[1..], freed + gs[0].sizeBytes, target)
  }

  lemma {:induction false} BytesConcat(a: seq<SegmentInfo>, b: seq<SegmentInfo>)
    ensures Bytes(a + b) == Bytes(a) + Bytes(b)
  {
    if |a| == 0 {
      assert a + b == b;
    } else {
      assert (a + b)[1..] == a[1..] + b;
      BytesConcat(a[1..], b);
    }
  }

  lemma {:induction false} NeededConcat(a: seq<SegmentInfo>, b: seq<SegmentInfo>, freed: nat, target: int)
    ensures var k := Needed(a, freed, target);
            Needed(a + b, freed, target) == k + (if k == |a| then Needed(b, freed + Bytes(a), target) else 0)
    ensures Needed(a, freed, target) < |a| ==> freed + Bytes(a[..Needed(a, freed, target)]) >= target
  {
    if |a| == 0 {
      assert a + b == b;
    } else if freed < target {
      assert (a + b)[1..] == a[1..] + b;
      NeededConcat(a[1..], b, freed + a[0].sizeBytes, target);
      var k := Needed(a[1..], freed + a[0].sizeBytes, target);
      assert a[..k + 1][1..] == a[1..][..k];
    } else {
      assert a[..0] == [];
    }
  }

  /** `Needed` is the least number of segments that reaches the target, or all of them. */
  lemma {:induction false} NeededIsLeast(gs: seq<SegmentInfo>, freed: nat, target: int)
    ensures var k := Needed(gs, freed, target);
            && (forall i :: 0 <= i < k ==> freed + Bytes(gs[..i]) < target)
            && (k < |gs| ==> freed + Bytes(gs[..k]) >= target)
  {
    var k := Needed(gs, freed, target);
    if k == 0 {
      assert gs[..0] == [];
    } else {
      NeededIsLeast(gs[1..], freed + gs[0].sizeBytes, target);
      forall i | 0 <= i <= k
        ensures 0 < i ==> Bytes(gs[..i]) == gs[0].sizeBytes + Bytes(gs[1..][..i - 1])
      {
        if i > 0 {
          assert gs[..i][1..] == gs[1..][..i - 1];
        }
      }
    }
  }

  /** What `Reclaim` returns, as a function: the ids of the least sufficient prefix of `Order`. */
  function Choice(gs: seq<SegmentInfo>, p: Pressure): seq<SegmentInfo> {
    if !Short(p) then []
    else
      var order := Order(gs, p.retentionSeconds, Critical(p));
      order[..Needed(order, p.freeBytes, TargetFree(p))]
  }

  /** One `consume(tier)` call. */
  method Consume(tier: seq<SegmentInfo>, target: int, ids: seq<nat>, freed: nat) returns (ids': seq<nat>, freed': nat)
    ensures var k := Needed(tier, freed, target);
            ids' == ids + Ids(tier[..k]) && freed' == freed + Bytes(tier[..k])
  {
    ids', freed' := ids, freed;
    ghost var k := Needed(tier, freed, target);
    assert tier[0..] == tier && tier[..0] == [];
    for i := 0 to |tier|
      invariant i <= k && i + Needed(tier[i..], freed', target) == k
      invariant ids' == ids + Ids(tier[..i]) && freed' == freed + Bytes(tier[..i])
    {
      if freed' >= target {
        return;
      }
      assert tier[i..][1..] == tier[i + 1..];
      assert tier[..i + 1] == tier[..i] + [tier[i]];
      BytesConcat(tier[..i], [tier[i]]);
      ids' := ids' + [tier[i].segmentId];
      freed' := freed' + tier[i].sizeBytes;
    }
  }

  /** What of a tier has been found, and what is still to come. */
  ghost predicate Filling(
    found: seq<SegmentInfo>, rest: seq<SegmentInfo>, all: seq<SegmentInfo>, tier: nat, retention: nat
  ) {
    found + OfTier(rest, tier, retention) == OfTier(all, tier, retention)
  }

  lemma FillStep(found: seq<SegmentInfo>, rest: seq<SegmentInfo>, all: seq<SegmentInfo>, tier: nat, retention: nat)
    requires |rest| > 0 && Filling(found, rest, all, tier, retention)
    ensures Filling(if Tier(rest[0], retention) == tier then found + [rest[0]] else found,
                    rest[1..], all, tier, retention)
  {
    OfTierStep(rest, tier, retention);
    Assoc(found, [rest[0]], OfTier(rest[1..], tier, retention));
  }

  /** The loop that sorts segments into the four tiers. */
  method FillTiers(segments: seq<SegmentInfo>, retention: nat)
    returns (tier1: seq<SegmentInfo>, tier2: seq<SegmentInfo>, tier3: seq<SegmentInfo>, tier4: seq<SegmentInfo>)
    ensures tier1 == OfTier(segments, 1, retention) && tier2 == OfTier(segments, 2, retention)
    ensures tier3 == OfTier(segments, 3, retention) && tier4 == OfTier(segments, 4, retention)
  {
    tier1, tier2, tier3, tier4 := [], [], [], [];
    var rest := segments;
    while |rest| > 0
      invariant Filling(tier1, rest, segments, 1, retention)
      invariant Filling(tier2, rest, segments, 2, retention)
      invariant Filling(tier3, rest, segments, 3, retention)
      invariant Filling(tier4, rest, segments, 4, retention)
      decreases |rest|
    {
      FillStep(tier1, rest, segments, 1, retention);
      FillStep(tier2, rest, segments, 2, retention);
      FillStep(tier3, rest, segments, 3, retention);
      FillStep(tier4, rest, segments, 4, retention);
      var segment := rest[0];
      if segment.fullyAcked {
        tier1 := tier1 + [segment];
      } else if segment.stream == Data && segment.ageSeconds > retention {
        tier2 := tier2 + [segment];
      } else if segment.stream == Logs {
        tier3 := tier3 + [segment];
      } else if segment.stream == Data {
        tier4 := tier4 + [segment];
      }
      rest := rest[1..];
    }
  }

  /** `ids` and `freed` are the result of consuming `list` from the beginning. */
  ghost predicate Consumed(list: seq<SegmentInfo>, free: nat, target: int, ids: seq<nat>, freed: nat) {
    var k := Needed(list, free, target);
    ids == Ids(list[..k]) && freed == free + Bytes(list[..k])
  }

  /** Consuming one list after another is consuming their concatenation. */
  lemma Extend(done: seq<SegmentInfo>, tier: seq<SegmentInfo>, free: nat, target: int, ids: seq<nat>, freed: nat)
    requires Consumed(done, free, target, ids, freed)
    ensures var m := Needed(tier, freed, target);
            Consumed(done + tier, free, target, ids + Ids(tier[..m]), freed + Bytes(tier[..m]))
    ensures freed >= target ==> Consumed(done + tier, free, target, ids, freed)
  {
    var k := Needed(done, free, target);
    var m := Needed(tier, freed, target);
    NeededConcat(done, tier, free, target);
    if freed >= target {
      assert tier[..0] == [] && ids + [] == ids;
    }
    if k < |done| {
      assert (done + tier)[..k] == done[..k];
    } else {
      assert done[..k] == done;
      assert (done + tier)[..k + m] == done + tier[..m];
      BytesConcat(done, tier[..m]);
    }
  }

  /** What was freed falls short exactly when the whole list would. */
  lemma ShortAfterAll(list: seq<SegmentInfo>, free: nat, target: int, ids: seq<nat>, freed: nat)
    requires Consumed(list, free, target, ids, freed)
    ensures freed < target <==> free + Bytes(list) < target
  {
    var k := Needed(list, free, target);
    NeededIsLeast(list, free, target);
    Halves(list, k);
    BytesConcat(list[..k], list[k..]);
    TakeAll(list);
  }

  lemma SortedEmptyIff(gs: seq<SegmentInfo>)
    ensures SortById(gs) == [] <==> gs == []
  {
  }

  lemma TierEmptyIff(gs: seq<SegmentInfo>, tier: nat, retention: nat)
    ensures OfTier(gs, tier, retention) == [] <==> forall g :: g in gs ==> Tier(g, retention) != tier
  {
    OfTierMembers(gs, tier, retention);
    var t := OfTier(gs, tier, retention);
    assert t != [] ==> t[0] in t;
  }

  /**
   * The segments still inside their retention window are touched: everything
   * else is not enough and space is critical.
   */
  predicate Breaches(segments: seq<SegmentInfo>, retention: nat, free: nat, target: int, critical: bool) {
    && critical && free + Bytes(Order(segments, retention, false)) < target
    && exists g :: g in segments && Tier(g, retention) == 4
  }

  method ConsumeTiers(segments: seq<SegmentInfo>, retention: nat, free: nat, target: int, critical: bool)
    returns (ids: seq<nat>, freed: nat, breached: bool)
    ensures Consumed(Order(segments, retention, critical), free, target, ids, freed)
    ensures breached == Breaches(segments, retention, free, target, critical)
  {
    var tier1, tier2, tier3, tier4 := FillTiers(segments, retention);
    TierEmptyIff(segments, 4, retention);
    SortedEmptyIff(tier4);
    tier1, tier2, tier3, tier4 := SortById(tier1), SortById(tier2), SortById(tier3), SortById(tier4);
    ids, freed := ConsumeThree(tier1, tier2, tier3, target, free);
    ghost var order := tier1 + tier2 + tier3;
    NoneAround(order);
    ShortAfterAll(order, free, target, ids, freed);
    Extend(order, tier4, free, target, ids, freed);
    breached := false;
    if freed < target && critical {
      breached := |tier4| > 0;
      ids, freed := Consume(tier4, target, ids, freed);
    }
  }

  /** The three tiers that may always go. */
  method ConsumeThree(tier1: seq<SegmentInfo>, tier2: seq<SegmentInfo>, tier3: seq<SegmentInfo>, target: int, free: nat)
    returns (ids: seq<nat>, freed: nat)
    ensures Consumed(tier1 + tier2 + tier3, free, target, ids, freed)
  {
    ids, freed := [], free;
    Extend([], tier1, free, target, ids, freed);
    NoneAround(tier1);
    ids, freed := Consume(tier1, target, ids, freed);
    Extend(tier1, tier2, free, target, ids, freed);
    ids, freed := Consume(tier2, target, ids, freed);
    Extend(tier1 + tier2, tier3, free, target, ids, freed);
    ids, freed := Consume(tier3, target, ids, freed);
  }

  method Reclaim(segments: seq<SegmentInfo>, p: Pressure) returns (r: Result)
    ensures r.segmentIdsToDelete == Ids(Choice(segments, p))
    ensures r.reachedLowWaterMark
         == (p.totalBytes > 0 && (Short(p) ==> p.freeBytes + Bytes(Choice(segments, p)) >= TargetFree(p)))
    ensures r.hadToBreachRetentionWindow
      == (Short(p) && Breaches(segments, p.retentionSeconds, p.freeBytes, TargetFree(p), Critical(p)))
    ensures r.degradedToRamOnly == (Short(p) && !r.reachedLowWaterMark)
  {
    if p.totalBytes == 0 {
      return Result([], false, false, false);
    }
    var percentFree := PercentFree(p);
    if percentFree >= p.lowMark {
      return Result([], true, false, false);
    }
    var target := TargetFree(p);
    var ids, freed, breached := ConsumeTiers(segments, p.retentionSeconds,
      p.freeBytes, target, percentFree < p.criticalMark);
    return Result(ids, freed >= target, breached, !(freed >= target));
  }

  // ---- what the choice means ----

  /** Nothing is deleted that was not needed, and nothing eligible is spared while space is short. */
  lemma ChoiceIsMinimal(gs: seq<SegmentInfo>, p: Pressure)
    requires Short(p)
    ensures var c := Choice(gs, p);
            && (forall i :: 0 <= i < |c| ==> p.freeBytes + Bytes(c[..i]) < TargetFree(p))
            && (p.freeBytes + Bytes(c) < TargetFree(p) ==> c == Order(gs, p.retentionSeconds, Critical(p)))
  {
    var order := Order(gs, p.retentionSeconds, Critical(p));
    var c := Choice(gs, p);
    NeededIsLeast(order, p.freeBytes, TargetFree(p));
    forall i | 0 <= i < |c|
      ensures c[..i] == order[..i]
    {
    }
  }

  /** `g` is given up before `h`: a lower tier, or an older segment of the same tier. */
  predicate Before(g: SegmentInfo, h: SegmentInfo, retention: nat) {
    Tier(g, retention) < Tier(h, retention)
    || (Tier(g, retention) == Tier(h, retention) && g.segmentId <= h.segmentId)
  }

  ghost predicate IdsSorted(gs: seq<SegmentInfo>) {
    forall i, j :: 0 <= i < j < |gs| ==> gs[i].segmentId <= gs[j].segmentId
  }

  lemma {:induction false} InsertSorts(g: SegmentInfo, gs: seq<SegmentInfo>)
    requires IdsSorted(gs)
    ensures var r := Insert(g, gs);
            && IdsSorted(r)
            && (forall h :: h in r <==> h == g || h in gs)
            && (|gs| > 0 ==> r[0].segmentId >= Min(g.segmentId, gs[0].segmentId))
  {
    if |gs| == 0 || g.segmentId <= gs[0].segmentId {
    } else {
      InsertSorts(g, gs[1..]);
      assert gs == [gs[0]] + gs[1..];
    }
  }

  lemma {:induction false} SortSorts(gs: seq<SegmentInfo>)
    ensures var r := SortById(gs);
            && IdsSorted(r)
            && (forall h :: h in r <==> h in gs)
  {
    if |gs| == 0 {
    } else {
      SortSorts(gs[1..]);
      InsertSorts(gs[0], SortById(gs[1..]));
      assert gs == [gs[0]] + gs[1..];
    }
  }

  lemma {:induction false} OfTierMembers(gs: seq<SegmentInfo>, tier: nat, retention: nat)
    ensures forall g :: g in OfTier(gs, tier, retention) <==> g in gs && Tier(g, retention) == tier
  {
    if |gs| == 0 {
    } else {
      OfTierMembers(gs[1..], tier, retention);
      assert gs == [gs[0]] + gs[1..];
    }
  }

  lemma SortedTierIs(gs: seq<SegmentInfo>, tier: nat, retention: nat)
    ensures var t := SortedTier(gs, tier, retention);
            && (forall g :: g in t <==> g in gs && Tier(g, retention) == tier)
            && IdsSorted(t)
  {
    OfTierMembers(gs, tier, retention);
    SortSorts(OfTier(gs, tier, retention));
  }

  predicate Eligible(g: SegmentInfo, retention: nat, critical: bool) {
    1 <= Tier(g, retention) <= (if critical then 4 else 3)
  }

  lemma OrderIs(gs: seq<SegmentInfo>, retention: nat, critical: bool)
    ensures var o := Order(gs, retention, critical);
            && (forall g :: g in o <==> g in gs && Eligible(g, retention, critical))
            && (forall i, j :: 0 <= i < j < |o| ==> Before(o[i], o[j], retention))
  {
    SortedTierIs(gs, 1, retention);
    SortedTierIs(gs, 2, retention);
    SortedTierIs(gs, 3, retention);
    SortedTierIs(gs, 4, retention);
    var t1, t2, t3 := SortedTier(gs, 1, retention), SortedTier(gs, 2, retention), SortedTier(gs, 3, retention);
    var t4 := if critical then SortedTier(gs, 4, retention) else [];
    JoinTiers(t1, t2, 1, 2, retention);
    JoinTiers(t1 + t2, t3, 2, 3, retention);
    JoinTiers(t1 + t2 + t3, t4, 3, 4, retention);
  }

  lemma JoinTiers(a: seq<SegmentInfo>, b: seq<SegmentInfo>, low: nat, high: nat, retention: nat)
    requires low < high
    requires forall g :: g in a ==> Tier(g, retention) <= low
    requires forall g :: g in b ==> Tier(g, retention) == high
    requires forall i, j :: 0 <= i < j < |a| ==> Before(a[i], a[j], retention)
    requires IdsSorted(b)
    ensures forall g :: g in a + b ==> Tier(g, retention) <= high
    ensures forall i, j :: 0 <= i < j < |a + b| ==> Before((a + b)[i], (a + b)[j], retention)
  {
    forall i, j | 0 <= i < j < |a + b|
      ensures Before((a + b)[i], (a + b)[j], retention)
    {
      if j >= |a| {
        assert (a + b)[j] in b;
        if i < |a| {
          assert (a + b)[i] in a;
        } else {
          assert (a + b)[i] in b;
          assert b[i - |a|].segmentId <= b[j - |a|].segmentId;
        }
      }
    }
  }

  /** The sacrifice order: a spared segment never ranks before a deleted one. */
  lemma SacrificeOrder(gs: seq<SegmentInfo>, p: Pressure, g: SegmentInfo, h: SegmentInfo)
    requires g in Choice(gs, p)
    requires h in gs && h !in Choice(gs, p) && Eligible(h, p.retentionSeconds, Critical(p))
    ensures g in gs && Eligible(g, p.retentionSeconds, Critical(p)) && Before(g, h, p.retentionSeconds)
  {
    var order := Order(gs, p.retentionSeconds, Critical(p));
    OrderIs(gs, p.retentionSeconds, Critical(p));
    var c := Choice(gs, p);
    var i :| 0 <= i < |c| && c[i] == g;
    assert g == order[i];
    var j :| 0 <= j < |order| && order[j] == h;
    assert j >= |c|;
  }

  // ---- when the deleted segments are the oldest ones ----

  ghost predicate IdsRise(gs: seq<SegmentInfo>) {
    forall i, j :: 0 <= i < j < |gs| ==> gs[i].segmentId < gs[j].segmentId
  }

  /** The candidates of one stream: table order, with the acked ones first. */
  ghost predicate OneStream(gs: seq<SegmentInfo>, stream: Stream) {
    && IdsRise(gs)
    && (forall g :: g in gs ==> g.stream == stream)
    && (forall i, j :: 0 <= i < j < |gs| && gs[j].fullyAcked ==> gs[i].fullyAcked)
  }

  /** No unacked segment within the retention window is older than one past it. */
  ghost predicate AgesFall(gs: seq<SegmentInfo>, retention: nat) {
    forall i, j :: 0 <= i < j < |gs| && !gs[i].fullyAcked && gs[i].ageSeconds <= retention ==>
      gs[j].ageSeconds <= retention
  }

  ghost predicate Ranked(gs: seq<SegmentInfo>, retention: nat) {
    && (forall g :: g in gs ==> 1 <= Tier(g, retention) <= 4)
    && (forall i, j :: 0 <= i < j < |gs| ==> Tier(gs[i], retention) <= Tier(gs[j], retention))
  }

  lemma {:induction false} SortKeeps(gs: seq<SegmentInfo>)
    requires IdsRise(gs)
    ensures SortById(gs) == gs
  {
    if |gs| == 0 {
    } else {
      SortKeeps(gs[1..]);
    }
  }

  lemma {:induction false} OfTierRises(gs: seq<SegmentInfo>, tier: nat, retention: nat)
    requires IdsRise(gs)
    ensures IdsRise(OfTier(gs, tier, retention))
  {
    if |gs| == 0 {
    } else {
      var rest := OfTier(gs[1..], tier, retention);
      OfTierRises(gs[1..], tier, retention);
      OfTierMembers(gs[1..], tier, retention);
      forall k | 0 <= k < |rest|
        ensures gs[0].segmentId < rest[k].segmentId
      {
        assert rest[k] in gs[1..];
        var j :| 0 <= j < |gs[1..]| && gs[1..][j] == rest[k];
        assert gs[j + 1] == rest[k];
      }
    }
  }

  lemma {:induction false} NoneOfTier(gs: seq<SegmentInfo>, tier: nat, retention: nat)
    requires forall g :: g in gs ==> Tier(g, retention) > tier
    ensures OfTier(gs, tier, retention) == []
  {
    if |gs| == 0 {
    } else {
      NoneOfTier(gs[1..], tier, retention);
    }
  }

  /** The first segment of a tier goes in front of the rest of its tier; the lower tiers have nothing more. */
  lemma FrontOf(g: seq<SegmentInfo>, r1: seq<SegmentInfo>, r2: seq<SegmentInfo>,
    r3: seq<SegmentInfo>, r4: seq<SegmentInfo>)
    ensures g + (r1 + r2 + r3 + r4) == (g + r1) + r2 + r3 + r4
    ensures r1 == [] ==> g + (r1 + r2 + r3 + r4) == r1 + (g + r2) + r3 + r4
    ensures r1 == r2 == [] ==> g + (r1 + r2 + r3 + r4) == r1 + r2 + (g + r3) + r4
    ensures r1 == r2 == r3 == [] ==> g + (r1 + r2 + r3 + r4) == r1 + r2 + r3 + (g + r4)
  {
  }

  lemma OfTierStep(gs: seq<SegmentInfo>, tier: nat, retention: nat)
    requires |gs| > 0
    ensures OfTier(gs, tier, retention)
      == if Tier(gs[0], retention) == tier then [gs[0]] + OfTier(gs[1..], tier, retention)
         else OfTier(gs[1..], tier, retention)
  {
    NoneAround(OfTier(gs[1..], tier, retention));
  }

  lemma RankedStep(gs: seq<SegmentInfo>, rest: seq<SegmentInfo>, retention: nat)
    requires |gs| > 0 && rest == gs[1..] && Ranked(gs, retention)
    ensures OfTier(gs, 1, retention) + OfTier(gs, 2, retention) + OfTier(gs, 3, retention) + OfTier(gs, 4, retention)
      == [gs[0]] + (OfTier(rest, 1, retention) + OfTier(rest, 2, retention)
         + OfTier(rest, 3, retention) + OfTier(rest, 4, retention))
  {
    var t := Tier(gs[0], retention);
    RankedTail(gs, retention);
    if t > 1 { NoneOfTier(rest, 1, retention); }
    if t > 2 { NoneOfTier(rest, 2, retention); }
    if t > 3 { NoneOfTier(rest, 3, retention); }
    OfTierStep(gs, 1, retention);
    OfTierStep(gs, 2, retention);
    OfTierStep(gs, 3, retention);
    OfTierStep(gs, 4, retention);
    FrontOf([gs[0]], OfTier(rest, 1, retention), OfTier(rest, 2, retention),
      OfTier(rest, 3, retention), OfTier(rest, 4, retention));
  }

  /** A ranked list is its four tiers in order. */
  lemma {:induction false} RankedSplits(gs: seq<SegmentInfo>, retention: nat)
    requires Ranked(gs, retention)
    ensures gs
         == OfTier(gs, 1, retention) + OfTier(gs, 2, retention) + OfTier(gs, 3, retention) + OfTier(gs, 4, retention)
  {
    if |gs| == 0 {
    } else {
      RankedTail(gs, retention);
      RankedSplits(gs[1..], retention);
      RankedStep(gs, gs[1..], retention);
      Halves(gs, 1);
    }
  }

  lemma RankedTail(gs: seq<SegmentInfo>, retention: nat)
    requires Ranked(gs, retention) && |gs| > 0
    ensures Ranked(gs[1..], retention) && 1 <= Tier(gs[0], retention) <= 4
    ensures forall g :: g in gs[1..] ==> Tier(g, retention) >= Tier(gs[0], retention)
  {
    forall g | g in gs[1..]
      ensures Tier(g, retention) >= Tier(gs[0], retention)
    {
      var j :| 0 <= j < |gs[1..]| && gs[1..][j] == g;
      assert gs[j + 1] == g;
    }
  }

  /** A ranked table is given up from its front. */
  lemma RankedDeletesPrefix(gs: seq<SegmentInfo>, p: Pressure)
    requires IdsRise(gs) && Ranked(gs, p.retentionSeconds)
    ensures Choice(gs, p) <= gs
  {
    var r := p.retentionSeconds;
    RankedSplits(gs, r);
    OfTierRises(gs, 1, r);
    SortKeeps(OfTier(gs, 1, r));
    OfTierRises(gs, 2, r);
    SortKeeps(OfTier(gs, 2, r));
    OfTierRises(gs, 3, r);
    SortKeeps(OfTier(gs, 3, r));
    OfTierRises(gs, 4, r);
    SortKeeps(OfTier(gs, 4, r));
    assert Order(gs, r, Critical(p)) <= gs;
  }

  lemma AgesFallRanks(gs: seq<SegmentInfo>, stream: Stream, retention: nat)
    requires OneStream(gs, stream) && stream != Events
    requires stream == Data ==> AgesFall(gs, retention)
    ensures Ranked(gs, retention)
  {
    forall i, j | 0 <= i < j < |gs|
      ensures Tier(gs[i], retention) <= Tier(gs[j], retention)
    {
      assert gs[i] in gs && gs[j] in gs;
    }
  }

  /**
   * Logs always lose their oldest closed segments first; Data does, whatever the
   * pressure, if and only if the ages fall along the table.
   */
  lemma DeletesOldestFirstIff(gs: seq<SegmentInfo>, stream: Stream, retention: nat)
    requires OneStream(gs, stream) && stream != Events
    ensures (forall p: Pressure :: p.retentionSeconds == retention ==> Choice(gs, p) <= gs)
            <==> (stream == Data ==> AgesFall(gs, retention))
  {
    if stream == Data ==> AgesFall(gs, retention) {
      AgesFallRanks(gs, stream, retention);
      forall p: Pressure | p.retentionSeconds == retention
        ensures Choice(gs, p) <= gs
      {
        RankedDeletesPrefix(gs, p);
      }
    } else {
      var i, j :| 0 <= i < j < |gs| && !gs[i].fullyAcked && gs[i].ageSeconds <= retention
        && gs[j].ageSeconds > retention;
      var p := InversionSparesOlder(gs, retention, i, j);
      var c := Choice(gs, p);
      var k :| 0 <= k < |c| && c[k] == gs[j];
      assert !(c <= gs);
    }
  }

  lemma InversionSparesOlder(gs: seq<SegmentInfo>, retention: nat, i: nat, j: nat) returns (p: Pressure)
    requires OneStream(gs, Data) && i < j < |gs|
    requires !gs[i].fullyAcked && gs[i].ageSeconds <= retention && gs[j].ageSeconds > retention
    ensures p.retentionSeconds == retention && gs[j] in Choice(gs, p) && gs[i] !in Choice(gs, p)
  {
    assert gs[i] in gs && gs[j] in gs;
    p := WantsEverything(gs, retention);
    OrderIs(gs, retention, false);
  }

  /** A pressure under which every eligible segment outside the last tier goes. */
  lemma WantsEverything(gs: seq<SegmentInfo>, retention: nat) returns (p: Pressure)
    ensures p.retentionSeconds == retention
    ensures Short(p) && !Critical(p) && Choice(gs, p) == Order(gs, retention, false)
  {
    var order := Order(gs, retention, false);
    p := Pressure(Bytes(order) + 1, 0, retention, 100.0, 0.0);
    var k := Needed(order, 0, TargetFree(p));
    NeededIsLeast(order, 0, TargetFree(p));
    assert p.totalBytes as real * 100.0 / 100.0 == p.totalBytes as real;
    if k < |order| {
      assert order == order[..k] + order[k..];
      BytesConcat(order[..k], order[k..]);
    }
    assert order[..|order|] == order;
  }

  // ---- a Data table whose newer segment goes first ----

  lemma SecondTierAlone(g: SegmentInfo, h: SegmentInfo, p: Pressure)
    requires Tier(g, p.retentionSeconds) == 4 && Tier(h, p.retentionSeconds) == 2
    requires Short(p) && !Critical(p) && p.freeBytes < TargetFree(p)
    ensures Ids(Choice([g, h], p)) == [h.segmentId]
  {
    OnlySecondTier(g, h, p.retentionSeconds);
    OneIsNeeded(h, p.freeBytes, TargetFree(p));
    TakeAll([h]);
  }

  lemma TenPercentFree(p: Pressure)
    requires p == Pressure(1000000, 100000, 172800, 20.0, 5.0)
    ensures PercentFree(p) == 10.0 && TargetFree(p) == 200000 && Short(p) && !Critical(p)
  {
  }

  lemma TierOfTwo(g: SegmentInfo, h: SegmentInfo, tier: nat, retention: nat)
    requires Tier(g, retention) != tier
    ensures OfTier([g, h], tier, retention) == if Tier(h, retention) == tier then [h] else []
  {
    OfTierStep([g, h], tier, retention);
    assert [g, h][1..] == [h];
    OfTierStep([h], tier, retention);
    assert [h][1..] == [];
    NoneAround([h]);
  }

  lemma OnlySecondTier(g: SegmentInfo, h: SegmentInfo, retention: nat)
    requires Tier(g, retention) == 4 && Tier(h, retention) == 2
    ensures Order([g, h], retention, false) == [h]
  {
    TierOfTwo(g, h, 1, retention);
    TierOfTwo(g, h, 2, retention);
    TierOfTwo(g, h, 3, retention);
    assert [h][1..] == [] && SortById([h]) == [h];
  }

  lemma OneIsNeeded(h: SegmentInfo, free: nat, target: int)
    requires free < target
    ensures Needed([h], free, target) == 1 && Ids([h]) == [h.segmentId]
  {
    assert [h][1..] == [];
  }
}
