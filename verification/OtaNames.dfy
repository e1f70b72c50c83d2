/**
 * Which retained requests can get a release refused that nobody requested. A
 * request whose names the store cannot keep is forgotten as a whole at the next
 * boot, so only a tab in a name that is kept does harm.
 */
module OtaNames {
  import opened Wrappers
  import opened Text
  import opened OtaPolicy
  import opened OtaCodec
  import opened OtaSteps
  import opened OtaRuns
  import opened OtaTheorems

  // ----- what is forgotten -----

  /** A bad line without a tab spoils the list. */
  lemma {:induction false} ParseBadsLast(lines: seq<string>)
    requires lines != [] && Lacks(lines[|lines| - 1], '\t')
    ensures ParseBads(lines) == None
  {
    if |lines| == 1 {
      FindIs(lines[0], '\t', |lines[0]|);
    } else {
      ParseBadsLast(lines[1..]);
    }
  }

  /** A newline in a refused name leaves more lines than the blob says. */
  lemma ExtraBadLine(r: Record)
    requires RecordLacks(r.(bad := []), '\n') && !RecordLacks(r, '\n')
    ensures Decode(Encode(r)) == EMPTY
  {
    var head, bads := Head(r), BadLines(r.bad);
    FieldsLack(r.(bad := []), '\n');
    assert Fields(r.(bad := [])) == Head(r.(bad := []));
    HeadLacks(r, '\n');
    UnlinesConcat(head, bads);
    LinesUnlines(head);
    LinesConcat(Unlines(head), Unlines(bads));
    FieldsLack(r, '\n');
    UnlinesCount(Fields(r));
    HeadReadsBack(r);
    var lines := Lines(Encode(r)).value;
    assert lines[..8] == head;
    assert lines[7] == head[7];
  }

  /** The last of some lines, none of which ends the list early, is the last line read back. */
  lemma LastLine(front: seq<string>, last: string)
    requires Lacks(last, '\n')
    ensures var all := Lines(Unlines(front + [last]));
            all.Some? && |all.value| > 0 && all.value[|all.value| - 1] == last
  {
    UnlinesCount(front);
    UnlinesConcat(front, [last]);
    LinesUnlines([last]);
    LinesConcat(Unlines(front), Unlines([last]));
  }

  /** A newline in the target shifts the count of bad lines to the end, where it is no bad line. */
  lemma ShiftedHead(r: Record)
    requires r.bad == [] && !RecordLacks(r, '\n')
    ensures Decode(Encode(r)) == EMPTY
  {
    var head := Head(r);
    FieldsLack(r, '\n');
    assert Fields(r) == head == head[..7] + [head[7]];
    UnlinesCount(head);
    DecimalLacks(0, '\n');
    DecimalLacks(0, '\t');
    LastLine(head[..7], head[7]);
    var lines := Lines(Encode(r)).value;
    if |lines| > 8 {
      ParseBadsLast(lines[8..]);
    }
  }

  /** A NUL in a name cuts the blob short. */
  lemma CutByNul(r: Record)
    requires RecordLacks(r, '\n') && !RecordLacks(r, '\0')
    ensures Decode(Stored(Encode(r))) == EMPTY
  {
    var n := Find(Encode(r), '\0');
    FieldsLack(r, '\0');
    if Lacks(Encode(r), '\0') {
      LinesOfLack(Fields(r), '\0');
    }
    FindIs(Encode(r), '\0', n);
    PrefixIsEmpty(r, n);
  }

  lemma {:induction false} LinesOfLack(lines: seq<string>, c: char)
    requires Lacks(Unlines(lines), c)
    ensures AllLack(lines, c)
  {
    if lines == [] {
    } else {
      var text, rest := Unlines(lines), Unlines(lines[1..]);
      assert forall i :: 0 <= i < |lines[0]| ==> lines[0][i] == text[i];
      assert forall i :: 0 <= i < |rest| ==> rest[i] == text[|lines[0]| + 1 + i];
      LinesOfLack(lines[1..], c);
      assert forall i :: 1 <= i < |lines| ==> lines[i] == lines[1..][i - 1];
    }
  }

  /** A newline or a NUL, not both; then the blob loses the request, and everything else. */
  predicate OneKind(m: Release) { ReleaseLacks(m, '\n') || ReleaseLacks(m, '\0') }

  lemma NewlineIsKept(r: Record)
    requires RecordLacks(r, '\0')
    ensures Stored(Encode(r)) == Encode(r)
  {
    FieldsLack(r, '\0');
    UnlinesLack(Fields(r), '\0');
  }

  lemma RefusalIsForgotten(m: Release)
    requires !Storable(m) && OneKind(m)
    ensures Decode(Stored(Encode(EMPTY.(bad := [m])))) == EMPTY
  {
    var r := EMPTY.(bad := [m]);
    assert RecordLacks(r, '\n') <==> ReleaseLacks(r.bad[0], '\n');
    assert RecordLacks(r, '\0') <==> ReleaseLacks(r.bad[0], '\0');
    if ReleaseLacks(m, '\n') {
      CutByNul(r);
    } else {
      NewlineIsKept(r);
      ExtraBadLine(r);
    }
  }

  lemma InstallIsLost(m: Release, running: string)
    requires !Storable(m) && OneKind(m) && StorableVersion(running)
    ensures Decode(Stored(Encode(RecordInstalled(EMPTY, m, running)))) == EMPTY
  {
    var r := RecordInstalled(EMPTY, m, running);
    if ReleaseLacks(m, '\n') {
      CutByNul(r);
    } else {
      NewlineIsKept(r);
      ShiftedHead(r);
    }
  }

  // ----- nothing else is refused -----

  /** At every boot the device starts afresh; until the next one it may at most have refused `m`. */
  ghost predicate Afresh(w: World, m: Release, c: Config) {
    && Decode(w.state.nvs) == EMPTY
    && (w.state.record.bad == [] || (w.state.record.bad == [m] && Guilty(w.history, m, c)))
    && (w.state.up ==> w.state.situation == Normal && w.state.record == EMPTY.(bad := w.state.record.bad))
    && StorableVersion(w.state.running) && (w.state.current.Some? ==> w.state.current.value == m)
  }

  lemma EmptySurvives(r: Record)
    requires r.target.version == r.target.requestId == r.previousVersion == r.lastFailure == "" && r.bad == []
    ensures Decode(Stored(Encode(r))) == r
  {
    SavedReadsBack(r);
    assert Resplits(r.bad) == r.bad;
  }

  lemma BootOfEmpty(s: State, version: string, pendingVerify: bool, c: Config)
    requires Decode(s.nvs) == EMPTY
    ensures var n := Boot(s, version, pendingVerify, c).state;
            && n.record == EMPTY && n.nvs == Stored(Encode(EMPTY)) && n.up && n.situation == Normal
            && n.current == None && n.running == version
  {
  }

  lemma BootIsAfresh(w: World, version: string, pendingVerify: bool, m: Release, c: Config)
    requires Afresh(w, m, c) && StorableVersion(version)
    ensures var o := Boot(w.state, version, pendingVerify, c); Afresh(World(o.state, w.history + o.facts), m, c)
  {
    BootOfEmpty(w.state, version, pendingVerify, c);
    EmptySurvives(EMPTY);
  }

  /** The three things a tick can do to a device that is not watching an image. */
  lemma TickCases(s: State, t: Tick, m: Release, c: Config)
    requires s.up && s.situation == Normal && s.record == EMPTY.(bad := s.record.bad)
    requires s.record.bad == [] || s.record.bad == [m]
    requires t.request.Some? && t.request.value.Some? ==> t.request.value.value == m
    requires s.current.Some? ==> s.current.value == m
    ensures var n := RunTick(s, t, c).state; n.running == s.running && (n.current.Some? ==> n.current.value == m)
    ensures var o, n := RunTick(s, t, c), RunTick(s, t, c).state;
            || (o.facts == [] && n.nvs == s.nvs && n.record == s.record && n.up && n.situation == Normal)
            || (o.facts == [Refused(m)] && n.record == EMPTY.(bad := [m]) && n.nvs == Stored(Encode(n.record))
                && n.up && n.situation == Normal)
            || (o.facts == [Wrote(m)] && n.record == RecordInstalled(EMPTY, m, s.running)
                && n.nvs == Stored(Encode(n.record)) && !n.up)
  {
    var handled := HandleManifest(s, t, c);
    assert [] + handled.facts == handled.facts;
    assert ([m] + [])[..1] == [m];
  }

  lemma TickIsAfresh(w: World, t: Tick, m: Release, c: Config)
    requires Afresh(w, m, c) && !Storable(m) && OneKind(m)
    requires t.request.Some? && t.request.value.Some? ==> t.request.value.value == m
    ensures var o := RunTick(w.state, t, c); Afresh(World(o.state, w.history + o.facts), m, c)
  {
    NothingMore(w.history);
    if w.state.up {
      TickCases(w.state, t, m, c);
      RefusalIsForgotten(m);
      InstallIsLost(m, w.state.running);
      NowGuilty(w.history, m, c);
    }
  }

  lemma NothingMore(h: seq<Fact>)
    ensures h + [] == h
  {
  }

  lemma NowGuilty(h: seq<Fact>, m: Release, c: Config)
    ensures Guilty(h + [Refused(m)], m, c)
  {
    assert Last(h + [Refused(m)]) == Refused(m);
  }

  lemma {:induction false} AlwaysAfresh(run: seq<Event>, m: Release, c: Config)
    requires OnlyRequests(run, m) && !Storable(m) && OneKind(m)
    ensures Afresh(After(run, c), m, c)
  {
    if run == [] {
      assert Decode("") == EMPTY;
    } else {
      var front := run[..|run| - 1];
      assert forall i :: 0 <= i < |front| ==> front[i] == run[i];
      AlwaysAfresh(front, m, c);
      match run[|run| - 1]
      case PowerOn(version, pendingVerify) => BootIsAfresh(After(front, c), version, pendingVerify, m, c);
      case Ticked(t) => TickIsAfresh(After(front, c), t, m, c);
    }
  }

  /**
   * Only the guilty are refused for good, whatever happens to a retained request,
   * exactly when it is not one that is kept with a tab in its version. (Its names
   * may hold newlines or NULs, but not both.)
   */
  lemma OnlyTheGuiltyAreBadIff(m: Release, c: Config)
    requires OneKind(m)
    ensures (forall run :: OnlyRequests(run, m) ==>
               AllGuilty(After(run, c).state.record.bad, After(run, c).history, c))
       <==> TabFree(m) || !Storable(m)
  {
    if Storable(m) {
      GuiltyOfStorableIff(m, c);
    } else {
      forall run | OnlyRequests(run, m)
        ensures AllGuilty(After(run, c).state.record.bad, After(run, c).history, c)
      {
        AlwaysAfresh(run, m, c);
      }
    }
  }
}
