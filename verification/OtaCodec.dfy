/** The text blob the update record is persisted as, and what of a record survives it (ota/OtaPolicy.cpp). */
module OtaCodec {
  import opened Wrappers
  import opened Text
  import opened OtaPolicy

  function PhaseNumber(p: Phase): nat { match p case Idle => 0 case Installed => 1 case Probing => 2 }

  function BadLine(b: Release): string { b.version + "\t" + b.requestId }

  function BadLines(bad: seq<Release>): seq<string> { seq(|bad|, i requires 0 <= i < |bad| => BadLine(bad[i])) }

  function Head(r: Record): seq<string> {
    ["v1", Decimal(PhaseNumber(r.phase)), r.target.requestId, r.target.version, r.previousVersion,
     Decimal(r.attempts), r.lastFailure, Decimal(|r.bad|)]
  }

  function Fields(r: Record): seq<string> { Head(r) + BadLines(r.bad) }

  function Encode(r: Record): string { Unlines(Fields(r)) }

  /** A bad line read back: the version ends at the first tab. */
  function ParseBad(line: string): Option<Release> {
    var tab := Find(line, '\t');
    if tab == |line| then None else Some(Release(line[..tab], line[tab + 1..]))
  }

  function ParseBads(lines: seq<string>): (r: Option<seq<Release>>)
    ensures r.Some? ==> |r.value| == |lines|
  {
    if lines == [] then Some([])
    else
      var first := ParseBad(lines[0]);
      var rest := ParseBads(lines[1..]);
      if first.None? || rest.None? then None else Some([first.value] + rest.value)
  }

  function PhaseOf(n: int): Phase
    requires 0 <= n <= 2
  {
    if n == 0 then Idle else if n == 1 then Installed else Probing
  }

  /** `static_cast<uint8_t>(min(n, 255))` */
  function AttemptsOf(n: int): byte { Min(n, 255) % 256 }

  function DecodeLines(lines: seq<string>): Record {
    if |lines| < 8 || lines[0] != "v1" then EMPTY
    else
      var phase := Atoi(lines[1]);
      var badCount := Atoi(lines[7]);
      if phase < 0 || phase > 2 || |lines| != 8 + badCount || badCount > MAX_BAD then EMPTY
      else
        var bad := ParseBads(lines[8..]);
        if bad.None? then EMPTY
        else Record(PhaseOf(phase), Release(lines[3], lines[2]), lines[4],
          AttemptsOf(Atoi(lines[5])), lines[6], bad.value)
  }

  function Decode(blob: string): Record {
    var lines := Lines(blob);
    if lines.None? then EMPTY else DecodeLines(lines.value)
  }

  // ----- the loops of the source -----

  /** The fixed lines of `encodeRecord`. */
  method EncodeHead(r: Record) returns (out: string)
    ensures out == Unlines(Head(r))
  {
    var phase, attempts, badCount := Decimal(PhaseNumber(r.phase)), Decimal(r.attempts), Decimal(|r.bad|);
    ghost var h := ["v1", phase, r.target.requestId, r.target.version,
      r.previousVersion, attempts, r.lastFailure, badCount];
    assert h == Head(r);
    UnlinesEight(h);
    out := "v1" + "\n";
    out := out + phase + "\n";
    out := out + r.target.requestId + "\n";
    out := out + r.target.version + "\n";
    out := out + r.previousVersion + "\n";
    out := out + attempts + "\n";
    out := out + r.lastFailure + "\n";
    out := out + badCount + "\n";
  }

  method EncodeRecord(r: Record) returns (out: string)
    ensures out == Encode(r)
  {
    out := EncodeHead(r);
    ghost var head, lines := Head(r), BadLines(r.bad);
    assert head + lines[..0] == head;
    for i := 0 to |r.bad|
      invariant out == Unlines(head + lines[..i])
    {
      UnlinesPush(head, lines, i);
      var line := r.bad[i].version + "\t" + r.bad[i].requestId;
      out := out + line + "\n";
    }
    assert lines[..|r.bad|] == lines;
  }

  lemma UnlinesPush(head: seq<string>, lines: seq<string>, i: nat)
    requires i < |lines|
    ensures Unlines(head + lines[..i + 1]) == Unlines(head + lines[..i]) + lines[i] + "\n"
  {
    assert head + lines[..i + 1] == (head + lines[..i]) + [lines[i]];
    UnlinesConcat(head + lines[..i], [lines[i]]);
    assert Unlines([lines[i]]) == lines[i] + "\n" + Unlines([]);
  }

  lemma UnlinesTake(h: seq<string>, i: nat)
    requires i < |h|
    ensures Unlines(h[..i + 1]) == Unlines(h[..i]) + h[i] + "\n"
  {
    UnlinesPush([], h, i);
    assert [] + h[..i + 1] == h[..i + 1] && [] + h[..i] == h[..i];
  }

  lemma UnlinesFour(h: seq<string>)
    requires |h| >= 4
    ensures Unlines(h[..4]) == h[0] + "\n" + h[1] + "\n" + h[2] + "\n" + h[3] + "\n"
  {
    UnlinesTake(h, 0);
    NoneAround(h[0]);
    UnlinesTake(h, 1);
    UnlinesTake(h, 2);
    UnlinesTake(h, 3);
  }

  lemma UnlinesEight(h: seq<string>)
    requires |h| == 8
    ensures Unlines(h) == h[0] + "\n" + h[1] + "\n" + h[2] + "\n" + h[3] + "\n"
            + h[4] + "\n" + h[5] + "\n" + h[6] + "\n" + h[7] + "\n"
  {
    UnlinesFour(h);
    UnlinesTake(h, 4);
    UnlinesTake(h, 5);
    UnlinesTake(h, 6);
    UnlinesTake(h, 7);
    assert h[..8] == h;
  }

  /** One more line split off the front of what is left. */
  lemma SplitStep(lines: seq<string>, rest: string, nl: nat)
    requires nl < |rest| && nl == Find(rest, '\n')
    ensures Joined(lines, Lines(rest)) == Joined(lines + [rest[..nl]], Lines(rest[nl + 1..]))
  {
    LinesAt(rest, nl);
    JoinedPush(lines, rest[..nl], Lines(rest[nl + 1..]));
  }

  /** The first loop of `decodeRecord`. */
  method SplitLines(blob: string) returns (r: Option<seq<string>>)
    ensures r == Lines(blob)
  {
    var lines: seq<string> := [];
    var start: nat := 0;
    var rest := blob;
    JoinedNothing(Lines(blob));
    while start < |blob|
      invariant start <= |blob| && rest == blob[start..]
      invariant Lines(blob) == Joined(lines, Lines(rest))
    {
      var nl := Find(rest, '\n');
      if nl == |rest| {
        NoLines(rest);
        return None;
      }
      SplitStep(lines, rest, nl);
      lines := lines + [rest[..nl]];
      start := start + nl + 1;
      rest := rest[nl + 1..];
    }
    NoneAround(lines);
    r := Some(lines);
  }

  /** Its second loop, over the lines after the count. */
  method SplitBads(lines: seq<string>) returns (r: Option<seq<Release>>)
    ensures r == ParseBads(lines)
  {
    var bad: seq<Release> := [];
    assert lines[0..] == lines;
    BadsJoinedNothing(ParseBads(lines));
    for i := 0 to |lines|
      invariant ParseBads(lines) == BadsJoined(bad, ParseBads(lines[i..]))
    {
      var line := lines[i];
      assert lines[i..][1..] == lines[i + 1..];
      var tab := Find(line, '\t');
      if tab == |line| { return None; }
      BadsJoinedPush(bad, Release(line[..tab], line[tab + 1..]), ParseBads(lines[i + 1..]));
      bad := bad + [Release(line[..tab], line[tab + 1..])];
    }
    assert lines[|lines|..] == [] && bad + [] == bad;
    r := Some(bad);
  }

  method DecodeRecord(blob: string) returns (r: Record)
    ensures r == Decode(blob)
  {
    var split := SplitLines(blob);
    if split.None? { return EMPTY; }
    var lines := split.value;
    if |lines| < 8 || lines[0] != "v1" { return EMPTY; }

    var phase := Atoi(lines[1]);
    if phase < 0 || phase > 2 { return EMPTY; }
    var attempts := AttemptsOf(Atoi(lines[5]));
    var badCount := Atoi(lines[7]);
    if |lines| != 8 + badCount || badCount > MAX_BAD { return EMPTY; }
    var bad := SplitBads(lines[8..]);
    if bad.None? { return EMPTY; }
    r := Record(PhaseOf(phase), Release(lines[3], lines[2]), lines[4], attempts, lines[6], bad.value);
  }

  lemma JoinedPush(a: seq<string>, line: string, r: Option<seq<string>>)
    ensures Joined(a, Before(line, r)) == Joined(a + [line], r)
  {
    if r.Some? {
      assert a + ([line] + r.value) == (a + [line]) + r.value;
    }
  }

  ghost function BadsJoined(a: seq<Release>, r: Option<seq<Release>>): Option<seq<Release>> {
    if r.None? then None else Some(a + r.value)
  }

  lemma BadsJoinedNothing(r: Option<seq<Release>>)
    ensures BadsJoined([], r) == r
  {
    if r.Some? {
      assert [] + r.value == r.value;
    }
  }

  lemma BadsJoinedPush(a: seq<Release>, b: Release, r: Option<seq<Release>>)
    ensures BadsJoined(a, if r.None? then None else Some([b] + r.value)) == BadsJoined(a + [b], r)
  {
    if r.Some? {
      assert a + ([b] + r.value) == (a + [b]) + r.value;
    }
  }

  // ----- what survives -----

  predicate ReleaseLacks(b: Release, c: char) { Lacks(b.version, c) && Lacks(b.requestId, c) }

  predicate RecordLacks(r: Record, c: char) {
    && ReleaseLacks(r.target, c) && Lacks(r.previousVersion, c) && Lacks(r.lastFailure, c)
    && forall i :: 0 <= i < |r.bad| ==> ReleaseLacks(r.bad[i], c)
  }

  /** What the comment above `encodeRecord` asks of a record. */
  predicate Clean(r: Record) {
    && RecordLacks(r, '\n') && |r.bad| <= MAX_BAD
    && forall i :: 0 <= i < |r.bad| ==> Lacks(r.bad[i].version, '\t')
  }

  /** A bad release as it reads back. */
  function Resplit(b: Release): Release {
    var line := BadLine(b);
    var tab := Find(line, '\t');
    if tab == |line| then b else Release(line[..tab], line[tab + 1..])
  }

  function Resplits(bad: seq<Release>): seq<Release> { seq(|bad|, i requires 0 <= i < |bad| => Resplit(bad[i])) }

  lemma ParseBadLine(b: Release)
    ensures ParseBad(BadLine(b)) == Some(Resplit(b))
    ensures Find(BadLine(b), '\t') <= |b.version|
  {
    assert BadLine(b)[|b.version|] == '\t';
  }

  lemma ResplitIsSameIff(b: Release)
    ensures Resplit(b) == b <==> Lacks(b.version, '\t')
  {
    var line := BadLine(b);
    ParseBadLine(b);
    assert line[..|b.version|] == b.version && line[|b.version| + 1..] == b.requestId;
    if Lacks(b.version, '\t') {
      FindIs(line, '\t', |b.version|);
    } else {
      var i :| 0 <= i < |b.version| && b.version[i] == '\t';
      assert line[i] == '\t';
      assert Find(line, '\t') <= i;
    }
  }

  lemma FirstBad(bad: seq<Release>)
    requires bad != []
    ensures BadLines(bad)[1..] == BadLines(bad[1..]) && BadLines(bad)[0] == BadLine(bad[0])
    ensures Resplits(bad) == [Resplit(bad[0])] + Resplits(bad[1..])
  {
  }

  lemma {:induction false} ParseBadLines(bad: seq<Release>)
    ensures ParseBads(BadLines(bad)) == Some(Resplits(bad))
  {
    if bad == [] {
      assert BadLines(bad) == [] && Resplits(bad) == [];
    } else {
      ParseBadLine(bad[0]);
      ParseBadLines(bad[1..]);
      FirstBad(bad);
      var lines := BadLines(bad);
      assert |lines| == |bad|;
      assert ParseBads(lines) == Some([Resplit(bad[0])] + ParseBads(lines[1..]).value);
    }
  }

  lemma DecimalLacks(n: nat, c: char)
    requires !IsDigit(c)
    ensures Lacks(Decimal(n), c)
  {
  }

  predicate AllLack(lines: seq<string>, c: char) { forall i :: 0 <= i < |lines| ==> Lacks(lines[i], c) }

  lemma BadLineLacks(b: Release, c: char)
    requires c != '\t'
    ensures Lacks(BadLine(b), c) <==> ReleaseLacks(b, c)
  {
    var line := BadLine(b);
    if Lacks(line, c) {
      assert forall i :: 0 <= i < |b.version| ==> line[i] == b.version[i];
      assert forall i :: 0 <= i < |b.requestId| ==> line[|b.version| + 1 + i] == b.requestId[i];
    }
  }

  lemma HeadLacks(r: Record, c: char)
    requires c == '\n' || c == '\0'
    ensures AllLack(Head(r), c)
      <==> ReleaseLacks(r.target, c) && Lacks(r.previousVersion, c) && Lacks(r.lastFailure, c)
  {
    var h := Head(r);
    DecimalLacks(PhaseNumber(r.phase), c);
    DecimalLacks(r.attempts, c);
    DecimalLacks(|r.bad|, c);
    assert Lacks(h[0], c) && Lacks(h[1], c) && Lacks(h[5], c) && Lacks(h[7], c);
    if Lacks(h[2], c) && Lacks(h[3], c) && Lacks(h[4], c) && Lacks(h[6], c) {
      forall i | 0 <= i < |h| ensures Lacks(h[i], c) {
        assert i == 0 || i == 1 || i == 2 || i == 3 || i == 4 || i == 5 || i == 6 || i == 7;
      }
    }
  }

  lemma BadLinesLack(bad: seq<Release>, c: char)
    requires c != '\t'
    ensures AllLack(BadLines(bad), c) <==> forall i :: 0 <= i < |bad| ==> ReleaseLacks(bad[i], c)
  {
    forall i | 0 <= i < |bad| ensures Lacks(BadLines(bad)[i], c) <==> ReleaseLacks(bad[i], c) {
      BadLineLacks(bad[i], c);
    }
  }

  lemma AllLackConcat(a: seq<string>, b: seq<string>, c: char)
    ensures AllLack(a + b, c) <==> AllLack(a, c) && AllLack(b, c)
  {
    assert forall i :: 0 <= i < |a| ==> (a + b)[i] == a[i];
    assert forall i :: 0 <= i < |b| ==> (a + b)[|a| + i] == b[i];
    if AllLack(a + b, c) {
      forall i | 0 <= i < |b| ensures Lacks(b[i], c) {
        assert Lacks((a + b)[|a| + i], c);
      }
    }
  }

  /** A character that encodeRecord does not write itself is in the fields iff it is in the record. */
  lemma FieldsLack(r: Record, c: char)
    requires c == '\n' || c == '\0'
    ensures AllLack(Fields(r), c) <==> RecordLacks(r, c)
  {
    HeadLacks(r, c);
    BadLinesLack(r.bad, c);
    AllLackConcat(Head(r), BadLines(r.bad), c);
  }

  lemma HeadReadsBack(r: Record)
    ensures Atoi(Head(r)[1]) == PhaseNumber(r.phase) && Atoi(Head(r)[5]) == r.attempts as int
            && Atoi(Head(r)[7]) == |r.bad|
  {
    AtoiDecimal(PhaseNumber(r.phase));
    AtoiDecimal(r.attempts);
    AtoiDecimal(|r.bad|);
  }

  /** A record without newlines reads back, except that a bad release is split at its first tab. */
  lemma PlainReadsBack(r: Record)
    requires RecordLacks(r, '\n') && |r.bad| <= MAX_BAD
    ensures Decode(Encode(r)) == r.(bad := Resplits(r.bad))
  {
    FieldsLack(r, '\n');
    LinesUnlines(Fields(r));
    FieldsReadBack(r);
  }

  lemma FieldsReadBack(r: Record)
    requires |r.bad| <= MAX_BAD
    ensures DecodeLines(Fields(r)) == r.(bad := Resplits(r.bad))
  {
    HeadReadsBack(r);
    ParseBadLines(r.bad);
    var head, lines := Head(r), Fields(r);
    assert lines[..8] == head && lines[8..] == BadLines(r.bad);
    assert forall i :: 0 <= i < 8 ==> lines[i] == head[i];
  }

  // ----- exactly which records survive -----

  /** Text made of n lines has n lines iff none of them holds a newline. */
  lemma {:induction false} UnlinesCount(lines: seq<string>)
    ensures Lines(Unlines(lines)).Some?
    ensures |Lines(Unlines(lines)).value| >= |lines|
    ensures |Lines(Unlines(lines)).value| == |lines| <==> AllLack(lines, '\n')
  {
    if lines == [] {
    } else {
      var first, rest := lines[0] + "\n", Unlines(lines[1..]);
      UnlinesCount(lines[1..]);
      EndedIsLines(lines[0]);
      LinesConcat(first, rest);
      LinesCount(first);
      CountConcat(lines[0], "\n", '\n');
      CountZero(lines[0], '\n');
      assert AllLack(lines, '\n') <==> Lacks(lines[0], '\n') && AllLack(lines[1..], '\n') by {
        assert forall i :: 0 <= i < |lines[1..]| ==> lines[1..][i] == lines[i + 1];
        assert forall i :: 1 <= i < |lines| ==> lines[i] == lines[1..][i - 1];
      }
    }
  }

  /** The record reads back as it was exactly when it keeps to the rules of its comment. */
  lemma RoundTripIff(r: Record)
    ensures Decode(Encode(r)) == r <==> Clean(r)
  {
    FieldsLack(r, '\n');
    if Decode(Encode(r)) == r && r != EMPTY {
      UnlinesCount(Fields(r));
      assert |r.bad| <= MAX_BAD && |Lines(Encode(r)).value| == |Fields(r)|;
    }
    if RecordLacks(r, '\n') && |r.bad| <= MAX_BAD {
      PlainReadsBack(r);
      ResplitsAreSameIff(r.bad);
    }
  }

  lemma ResplitsAreSameIff(bad: seq<Release>)
    ensures Resplits(bad) == bad <==> forall i :: 0 <= i < |bad| ==> Lacks(bad[i].version, '\t')
  {
    forall i | 0 <= i < |bad| ensures Resplits(bad)[i] == bad[i] <==> Lacks(bad[i].version, '\t') {
      ResplitIsSameIff(bad[i]);
    }
  }

  /** A write cut short never reads as another record. */
  lemma PrefixIsEmpty(r: Record, n: nat)
    requires RecordLacks(r, '\n') && n < |Encode(r)|
    ensures Decode(Encode(r)[..n]) == EMPTY
  {
    FieldsLack(r, '\n');
    var k := LinesOfPrefix(Fields(r), n);
    HeadReadsBack(r);
    assert k >= 8 ==> Fields(r)[..k][7] == Head(r)[7];
  }

  // ----- the store -----

  /** `nvs_set_str(blob.c_str())`: what follows a NUL is not stored. */
  function Stored(blob: string): string { blob[..Find(blob, '\0')] }

  lemma {:induction false} LinesLack(s: string, c: char)
    requires Lines(s).Some? && (c == '\n' || Lacks(s, c))
    ensures AllLack(Lines(s).value, c)
    decreases |s|
  {
    if s == "" {
    } else {
      var nl := Find(s, '\n');
      LinesLack(s[nl + 1..], c);
    }
  }

  lemma {:induction false} ParseBadsLack(lines: seq<string>, c: char)
    requires ParseBads(lines).Some? && AllLack(lines, c)
    ensures forall i :: 0 <= i < |lines| ==> ReleaseLacks(ParseBads(lines).value[i], c)
  {
    if lines == [] {
    } else {
      ParseBadsLack(lines[1..], c);
      assert Lacks(lines[0], c);
    }
  }

  /** Nothing read back holds a newline, or a NUL when the blob holds none. */
  lemma DecodeLacks(blob: string, c: char)
    requires c == '\n' || Lacks(blob, c)
    ensures RecordLacks(Decode(blob), c)
  {
    if Decode(blob) != EMPTY {
      LinesLack(blob, c);
      var lines := Lines(blob).value;
      ParseBadsLack(lines[8..], c);
      assert Lacks(lines[2], c) && Lacks(lines[3], c) && Lacks(lines[4], c) && Lacks(lines[6], c);
    }
  }

  lemma {:induction false} UnlinesLack(lines: seq<string>, c: char)
    requires c != '\n' && AllLack(lines, c)
    ensures Lacks(Unlines(lines), c)
  {
    if lines == [] {
    } else {
      UnlinesLack(lines[1..], c);
    }
  }

  /** Saving and loading a record whose names hold neither newline nor NUL. */
  lemma SavedReadsBack(r: Record)
    requires RecordLacks(r, '\n') && RecordLacks(r, '\0') && |r.bad| <= MAX_BAD
    ensures Decode(Stored(Encode(r))) == r.(bad := Resplits(r.bad))
  {
    FieldsLack(r, '\0');
    UnlinesLack(Fields(r), '\0');
    assert Stored(Encode(r)) == Encode(r);
    PlainReadsBack(r);
  }

  /** What is loaded holds no newline and no NUL, whatever was saved. */
  lemma LoadedLacks(blob: string)
    ensures RecordLacks(Decode(Stored(blob)), '\n') && RecordLacks(Decode(Stored(blob)), '\0')
    ensures |Decode(Stored(blob)).bad| <= MAX_BAD
  {
    DecodeLacks(Stored(blob), '\n');
    DecodeLacks(Stored(blob), '\0');
  }

  /** The record survives a reboot exactly when it is clean and has no NUL. */
  lemma SurvivesIff(r: Record)
    ensures Decode(Stored(Encode(r))) == r <==> Clean(r) && RecordLacks(r, '\0')
  {
    LoadedLacks(Encode(r));
    if RecordLacks(r, '\n') && RecordLacks(r, '\0') && |r.bad| <= MAX_BAD {
      SavedReadsBack(r);
      ResplitsAreSameIff(r.bad);
    }
  }

  // ----- which blobs are read -----

  /** The lines of a record: a version, a phase, and as many bad releases as are announced, at most four. */
  predicate AreLines(lines: seq<string>) {
    && |lines| >= 8 && lines[0] == "v1" && 0 <= Atoi(lines[1]) <= 2 && Atoi(lines[7]) == |lines| - 8 <= 4
    && forall i :: 8 <= i < |lines| ==> !Lacks(lines[i], '\t')
  }

  /** The bad release is on the line: its version up to the first tab, its request behind it. */
  predicate IsOnLine(b: Release, line: string) {
    Lacks(b.version, '\t') && line == b.version + "\t" + b.requestId
  }

  /** Each field is on its line. */
  predicate Says(lines: seq<string>, r: Record)
    requires |lines| >= 8
  {
    && Atoi(lines[1]) == (match r.phase case Idle => 0 case Installed => 1 case Probing => 2)
    && lines[2] == r.target.requestId && lines[3] == r.target.version && lines[4] == r.previousVersion
    && r.attempts == Min(Atoi(lines[5]), 255) % 256 && lines[6] == r.lastFailure
    && |r.bad| == |lines| - 8 && forall i :: 0 <= i < |r.bad| ==> IsOnLine(r.bad[i], lines[8 + i])
  }

  lemma ParseBadIs(line: string)
    ensures ParseBad(line).None? <==> Lacks(line, '\t')
    ensures ParseBad(line).Some? ==> IsOnLine(ParseBad(line).value, line)
  {
    var tab := Find(line, '\t');
    if tab < |line| {
      assert line == line[..tab] + [line[tab]] + line[tab + 1..];
    }
  }

  lemma {:induction false} ParseBadsAre(lines: seq<string>)
    ensures ParseBads(lines).Some? <==> forall i :: 0 <= i < |lines| ==> !Lacks(lines[i], '\t')
    ensures ParseBads(lines).Some? ==> forall i :: 0 <= i < |lines| ==> IsOnLine(ParseBads(lines).value[i], lines[i])
  {
    if lines == [] {
    } else {
      ParseBadIs(lines[0]);
      ParseBadsAre(lines[1..]);
      assert forall i :: 1 <= i < |lines| ==> lines[i] == lines[1..][i - 1];
    }
  }

  /** Every blob made of lines is read as what its lines say, or as the empty record if they are not a record's. */
  lemma ReadsWhatItSays(lines: seq<string>)
    requires AllLack(lines, '\n')
    ensures var r := Decode(Unlines(lines)); if AreLines(lines) then Says(lines, r) else r == EMPTY
  {
    LinesUnlines(lines);
    if |lines| >= 8 {
      ParseBadsAre(lines[8..]);
      assert forall i :: 8 <= i < |lines| ==> lines[i] == lines[8..][i - 8];
    }
  }

  /** And a blob whose last line has no end is read as the empty record. */
  lemma UnendedIsEmpty(blob: string)
    requires blob != "" && blob[|blob| - 1] != '\n'
    ensures Decode(blob) == EMPTY
  {
    NoEndNoLines(blob);
  }

  lemma {:induction false} NoEndNoLines(s: string)
    requires s != "" && s[|s| - 1] != '\n'
    ensures Lines(s).None?
    decreases |s|
  {
    var nl := Find(s, '\n');
    if nl == |s| {
    } else {
      NoEndNoLines(s[nl + 1..]);
    }
  }
}
