/** parseWifiJson on every well-formed object, on what encodeWifiJson writes, and on files cut short. */
module WifiTheorems {
  import opened Wrappers
  import opened Text
  import opened Json
  import Scan = JsonScanner
  import opened JsonTheorems
  import opened WifiCredentials

  // ----- every well-formed object -----

  /** What an object says about the network: later members win, and a known name must carry a string. */
  function Said(ms: Members, f: Fields): Option<Fields> {
    if ms.NoMembers? then Some(f)
    else
      var key := ItemsRead(ms.key);
      if !Known(key) then Said(ms.rest, f)
      else if ms.value.Str? then Said(ms.rest, Put(f, key, ItemsRead(ms.value.items)))
      else None
  }

  function SaidHere(ms: Members, f: Fields): Option<Fields>
    requires ms.Member?
  {
    var key := ItemsRead(ms.key);
    if !Known(key) then Some(f)
    else if ms.value.Str? then Some(Put(f, key, ItemsRead(ms.value.items)))
    else None
  }

  lemma WhiteIsSpace(ws: string)
    requires White(ws)
    ensures forall i :: 0 <= i < |ws| ==> IsSpace(ws[i])
  {
  }

  lemma ReadHere(key: seq<Item>, tail: string)
    requires GoodItems(key)
    ensures Scan.ReadString(StringText(key) + tail) == Some(Scan.Read(ItemsRead(key), tail))
  {
    Bracketed('"', ItemsText(key), '"', tail);
    ReadItems(key, tail);
  }

  lemma ReadKey(before: string, key: seq<Item>, tail: string)
    requires White(before) && GoodItems(key)
    ensures Scan.ReadString(before + (StringText(key) + tail)) == Some(Scan.Read(ItemsRead(key), tail))
  {
    WhiteIsSpace(before);
    SkipWhite(before, StringText(key) + tail);
    ReadHere(key, tail);
  }

  lemma ReadColon(middle: string, tail: string)
    requires White(middle)
    ensures Scan.Consume(middle + (":" + tail), ':') == Some(tail)
  {
    WhiteIsSpace(middle);
    SkipWhite(middle, ":" + tail);
    assert (":" + tail)[1..] == tail;
  }

  lemma FirstOfValue(v: Value, tail: string)
    requires GoodValue(v) && !v.Str?
    ensures ValueText(v) != "" && !IsSpace(ValueText(v)[0]) && ValueText(v)[0] != '"'
  {
    if Scalar(v) {
      ScalarIsInert(v);
      assert TokenChar(ValueText(v)[0]);
    }
  }

  lemma ReadNoString(between: string, v: Value, tail: string)
    requires White(between) && GoodValue(v) && !v.Str?
    ensures Scan.ReadString(between + (ValueText(v) + tail)) == None
  {
    WhiteIsSpace(between);
    SkipWhite(between, ValueText(v) + tail);
    FirstOfValue(v, tail);
    assert (ValueText(v) + tail)[0] == ValueText(v)[0];
  }

  lemma ReadOne(ms: Members, f: Fields, tail: string)
    requires ms.Member? && GoodMembers(ms) && Delimited(tail)
    ensures var t := ms.before + (StringText(ms.key)
            + (ms.middle + (":" + (ms.between + (ValueText(ms.value) + tail)))));
            ReadMember(t, f) == match SaidHere(ms, f) case None => None case Some(g) => Some(Progress(g, tail))
  {
    var valued := ms.between + (ValueText(ms.value) + tail);
    ReadKey(ms.before, ms.key, ms.middle + (":" + valued));
    ReadColon(ms.middle, valued);
    if !Known(ItemsRead(ms.key)) {
      WhiteIsSpace(ms.between);
      SkipStopsAtTheEndIff(ms.between, ms.value, tail);
    } else if ms.value.Str? {
      ReadKey(ms.between, ms.value.items, tail);
    } else {
      ReadNoString(ms.between, ms.value, tail);
    }
  }

  /** The text behind a member's value, up to the closing brace. */
  function Behind(ms: Members, tail: string): string
    requires ms.Member?
  {
    ms.after + if ms.rest.NoMembers? then tail else "," + (MembersText(ms.rest) + tail)
  }

  lemma MembersTextIs(ms: Members, tail: string)
    requires ms.Member?
    ensures MembersText(ms) + tail
         == ms.before + (StringText(ms.key)
            + (ms.middle + (":" + (ms.between + (ValueText(ms.value) + Behind(ms, tail))))))
  {
    var more := if ms.rest.NoMembers? then "" else "," + MembersText(ms.rest);
    Regroup3(ms.before, StringText(ms.key), ms.middle, ":" + ValueAndRest(ms), tail);
    Assoc(":", ValueAndRest(ms), tail);
    Regroup3(ms.between, ValueText(ms.value), ms.after, more, tail);
    if ms.rest.NoMembers? {
      assert "" + tail == tail;
    } else {
      Assoc(",", MembersText(ms.rest), tail);
    }
  }

  lemma BehindSpace(ms: Members, tail: string)
    requires ms.Member? && GoodMembers(ms) && tail != "" && tail[0] == '}'
    ensures Delimited(Behind(ms, tail))
    ensures SkipSpace(Behind(ms, tail)) == if ms.rest.NoMembers? then tail else "," + (MembersText(ms.rest) + tail)
  {
    WhiteIsSpace(ms.after);
    var next := if ms.rest.NoMembers? then tail else "," + (MembersText(ms.rest) + tail);
    SkipWhite(ms.after, next);
    if ms.after == "" {
      assert Behind(ms, tail) == next;
    } else {
      assert Behind(ms, tail)[0] == ms.after[0];
    }
  }

  lemma {:induction false} ReadMembersIs(ms: Members, f: Fields, tail: string)
    requires ms.Member? && GoodMembers(ms) && tail != "" && tail[0] == '}'
    ensures ReadMembers(MembersText(ms) + tail, f)
         == match Said(ms, f) case None => None case Some(g) => Some(Progress(g, tail))
  {
    MembersTextIs(ms, tail);
    BehindSpace(ms, tail);
    ReadOne(ms, f, Behind(ms, tail));
    if ms.rest.NoMembers? || SaidHere(ms, f).None? {
    } else {
      ReadMembersIs(ms.rest, SaidHere(ms, f).value, tail);
      assert ("," + (MembersText(ms.rest) + tail))[1..] == MembersText(ms.rest) + tail;
    }
  }

  lemma ObjectInside(ms: Members, space: string, tail: string)
    requires White(space) && GoodMembers(ms) && tail != "" && tail[0] == '}'
    ensures ReadInside(Inside(Object(space, ms)) + tail)
         == match Said(ms, NOTHING) case None => None case Some(g) => Some(Progress(g, tail))
  {
    if ms.NoMembers? {
      WhiteIsSpace(space);
      SkipWhite(space, tail);
    } else {
      var t := MembersText(ms) + tail;
      MembersTextIs(ms, tail);
      WhiteIsSpace(ms.before);
      SkipWhite(ms.before, StringText(ms.key)
        + (ms.middle + (":" + (ms.between + (ValueText(ms.value) + Behind(ms, tail))))));
      SkipWhiteMembers(ms, tail);
      ReadMembersIs(ms.(before := ""), NOTHING, tail);
    }
  }

  lemma SkipWhiteMembers(ms: Members, tail: string)
    requires ms.Member? && GoodMembers(ms)
    ensures SkipSpace(MembersText(ms) + tail) == MembersText(ms.(before := "")) + tail
  {
    var t := StringText(ms.key) + (ms.middle + (":" + (ms.between + (ValueText(ms.value) + Behind(ms, tail)))));
    var tight := ms.(before := "");
    MembersTextIs(ms, tail);
    MembersTextIs(tight, tail);
    assert Behind(tight, tail) == Behind(ms, tail);
    WhiteIsSpace(ms.before);
    SkipWhite(ms.before, t);
    NoneAround(t);
    QuoteIsNoSpace(ms.key, t);
  }

  lemma QuoteIsNoSpace(key: seq<Item>, t: string)
    requires StringText(key) <= t
    ensures SkipSpace(t) == t
  {
    assert t[0] == StringText(key)[0] == '"';
  }

  lemma OpenObject(ws: string, v: Value, more: string)
    requires White(ws) && v.Object?
    ensures Scan.Consume(ws + (ValueText(v) + more), '{') == Some(Inside(v) + ("}" + more))
  {
    var t := ValueText(v) + more;
    WhiteIsSpace(ws);
    SkipWhite(ws, t);
    Bracketed('{', Inside(v), '}', more);
    assert ValueText(v) == ['{'] + (Inside(v) + ['}']);
  }

  lemma CloseObject(f: Fields, more: string)
    ensures Closed(Some(Progress(f, "}" + more))) == Some(Progress(f, more))
  {
    assert ("}" + more)[1..] == more;
  }

  // ----- what may be typed -----

  predicate Typable(s: string) { forall i :: 0 <= i < |s| ==> s[i] >= 32 as char && s[i] != 127 as char }

  predicate HexDigits(s: string) {
    forall i :: 0 <= i < |s| ==> '0' <= s[i] <= '9' || 'a' <= s[i] <= 'f' || 'A' <= s[i] <= 'F'
  }

  /**
   * The limits of 802.11: a name of 1 to 32 typable characters; no password, 8
   * to 63 typable characters, or 64 hex digits.
   */
  predicate MayBeTyped(c: Credentials) {
    && 1 <= |c.ssid| <= 32 && Typable(c.ssid)
    && (c.password == "" || (8 <= |c.password| <= 63 && Typable(c.password))
        || (|c.password| == 64 && HexDigits(c.password)))
  }

  lemma TypableIff(s: string)
    ensures Typable(s) <==> !HasControlChars(s)
    ensures HexDigits(s) <==> AllHex(s)
    ensures HexDigits(s) ==> Typable(s)
  {
  }

  lemma ValidIff(c: Credentials)
    ensures Valid(c) <==> MayBeTyped(c)
  {
    TypableIff(c.ssid);
    TypableIff(c.password);
  }

  /** What the person is told of a name and of a password. */
  lemma ProblemsAre(s: string)
    ensures SsidError(s) == if s == "" then Some(EmptyName)
                            else if |s| > 32 then Some(LongName)
                            else if !Typable(s) then Some(UntypableName) else None
    ensures PasswordError(s) == if s == "" then None
                                else if !Typable(s) then Some(UntypablePassword)
                                else if |s| < 8 then Some(ShortPassword)
                                else if |s| > 64 || (|s| == 64 && !HexDigits(s)) then Some(LongPassword) else None
  {
    TypableIff(s);
  }

  // ----- what an object says -----

  /** The last member of this name that is a string. */
  function LastOf(ms: Members, key: string): Option<string> {
    if ms.NoMembers? then None
    else
      var later := LastOf(ms.rest, key);
      if later.Some? then later
      else if ItemsRead(ms.key) == key && ms.value.Str? then Some(ItemsRead(ms.value.items)) else None
  }

  predicate KnownAreStrings(ms: Members) {
    ms.Member? ==>
      (ItemsRead(ms.key) == "ssid" || ItemsRead(ms.key) == "password" ==> ms.value.Str?) && KnownAreStrings(ms.rest)
  }

  function Or(o: Option<string>, s: string): string { if o.Some? then o.value else s }

  lemma {:induction false} SaidIs(ms: Members, f: Fields)
    ensures Said(ms, f)
         == if !KnownAreStrings(ms) then None
            else Some(Fields(Or(LastOf(ms, "ssid"), f.ssid), Or(LastOf(ms, "password"), f.password),
                             f.hasSsid || LastOf(ms, "ssid").Some?))
  {
    if ms.NoMembers? {
    } else {
      var here := SaidHere(ms, f);
      if here.Some? {
        SaidIs(ms.rest, here.value);
      }
    }
  }

  /** What the object says: its last name and its last password, if it has a name and they may be typed. */
  function Meant(ms: Members): Option<Credentials> {
    var c := Credentials(Or(LastOf(ms, "ssid"), ""), Or(LastOf(ms, "password"), ""));
    if KnownAreStrings(ms) && LastOf(ms, "ssid").Some? && MayBeTyped(c) then Some(c) else None
  }

  lemma ReadObjectIs(ws: string, space: string, ms: Members, more: string)
    requires White(ws) && White(space) && GoodMembers(ms)
    ensures ReadObject(ws + (ValueText(Object(space, ms)) + more))
         == match Said(ms, NOTHING) case None => None case Some(g) => Some(Progress(g, more))
  {
    OpenObject(ws, Object(space, ms), more);
    ObjectInside(ms, space, "}" + more);
    if Said(ms, NOTHING).Some? {
      CloseObject(Said(ms, NOTHING).value, more);
    }
  }

  lemma MeantIs(ms: Members)
    ensures Meant(ms) == match Said(ms, NOTHING) case None => None case Some(g) => Accept(g)
  {
    SaidIs(ms, NOTHING);
    ValidIff(Credentials(Or(LastOf(ms, "ssid"), ""), Or(LastOf(ms, "password"), "")));
  }

  /** On every well-formed object, with anything behind it, parseWifiJson returns what the object says. */
  lemma ParseIsWhatItSays(ws: string, space: string, ms: Members, more: string)
    requires White(ws) && White(space) && GoodMembers(ms)
    ensures ParseWifi(ws + (ValueText(Object(space, ms)) + more)) == Meant(ms)
  {
    ReadObjectIs(ws, space, ms, more);
    MeantIs(ms);
  }

  // ----- what encodeWifiJson writes -----

  function Letters(s: string): seq<Item> { seq(|s|, i requires 0 <= i < |s| => Plain(s[i])) }

  function QuotedItems(s: string): seq<Item> {
    seq(|s|, i requires 0 <= i < |s| => if s[i] == '"' || s[i] == '\\' then Escape(s[i]) else Plain(s[i]))
  }

  lemma {:induction false} QuotedIs(s: string)
    ensures ItemsText(QuotedItems(s)) == Escaped(s)
    ensures ItemsRead(QuotedItems(s)) == s
  {
    if s == "" {
    } else {
      QuotedIs(s[1..]);
      assert QuotedItems(s)[1..] == QuotedItems(s[1..]);
      assert [s[0]] + s[1..] == s;
    }
  }

  lemma {:induction false} LettersAre(s: string)
    requires forall i :: 0 <= i < |s| ==> 'a' <= s[i] <= 'z'
    ensures ItemsText(Letters(s)) == s && ItemsRead(Letters(s)) == s && GoodItems(Letters(s))
  {
    if s == "" {
    } else {
      LettersAre(s[1..]);
      assert Letters(s)[1..] == Letters(s[1..]);
      assert [s[0]] + s[1..] == s;
    }
  }

  lemma QuotedIsGood(s: string)
    requires !HasControlChars(s)
    ensures GoodItems(QuotedItems(s))
  {
  }

  function Field(name: string, value: string, rest: Members): Members {
    Member("", Letters(name), "", "", Str(QuotedItems(value)), "", rest)
  }

  function Secret(c: Credentials): Members { Field("password", c.password, NoMembers) }

  /** The two members encodeWifiJson writes. */
  function Written(c: Credentials): Members { Field("ssid", c.ssid, Secret(c)) }

  lemma TightMember(ms: Members)
    requires ms.Member? && ms.before == ms.middle == ms.between == ms.after == ""
    ensures MembersText(ms)
         == StringText(ms.key) + ":" + ValueText(ms.value)
            + if ms.rest.NoMembers? then "" else "," + MembersText(ms.rest)
  {
    var more := if ms.rest.NoMembers? then "" else "," + MembersText(ms.rest);
    var value, key := ValueText(ms.value), StringText(ms.key);
    NoneAround(more);
    NoneAround(value + more);
    NoneAround(":" + (value + more));
    NoneAround(key + (":" + (value + more)));
    Assoc(key, ":", value + more);
    Assoc(key + ":", value, more);
  }

  lemma FieldText(name: string, key: string, value: string, rest: Members)
    requires forall i :: 0 <= i < |name| ==> 'a' <= name[i] <= 'z'
    requires key == "\"" + name + "\":"
    ensures MembersText(Field(name, value, rest))
            == key + Quoted(value) + if rest.NoMembers? then "" else "," + MembersText(rest)
  {
    LettersAre(name);
    QuotedIs(value);
    TightMember(Field(name, value, rest));
    assert StringText(Letters(name)) + ":" == key;
  }

  lemma SecretText(c: Credentials)
    ensures MembersText(Secret(c)) == "\"password\":" + Quoted(c.password) + ""
  {
    var key := "\"password\":";
    FieldText("password", key, c.password, NoMembers);
  }

  lemma WrittenText(c: Credentials)
    ensures MembersText(Written(c)) == "\"ssid\":" + Quoted(c.ssid) + ("," + MembersText(Secret(c)))
  {
    var key := "\"ssid\":";
    FieldText("ssid", key, c.ssid, Secret(c));
  }

  lemma EncodeIsWritten(c: Credentials)
    ensures ValueText(Object("", Written(c))) == EncodeWifiJson(c)
  {
    SecretText(c);
    WrittenText(c);
    Glue(Quoted(c.ssid), Quoted(c.password), MembersText(Secret(c)));
    assert ValueText(Object("", Written(c))) == "{" + (MembersText(Written(c)) + "}");
  }

  lemma Glue(ssid: string, password: string, second: string)
    requires second == "\"password\":" + password + ""
    ensures "{" + (("\"ssid\":" + ssid + ("," + second)) + "}")
            == "{\"ssid\":" + ssid + ",\"password\":" + password + "}"
  {
    assert "{" + "\"ssid\":" == "{\"ssid\":";
    assert "," + "\"password\":" == ",\"password\":";
  }

  /** ms is base with any unknown members put in anywhere, and any white space. */
  predicate Widens(ms: Members, base: Members) {
    if ms.NoMembers? then base.NoMembers?
    else
      || (!Known(ItemsRead(ms.key)) && Widens(ms.rest, base))
      || (base.Member? && ms.key == base.key && ms.value == base.value && Widens(ms.rest, base.rest))
  }

  lemma {:induction false} WideningSaysTheSame(ms: Members, base: Members, f: Fields)
    requires Widens(ms, base)
    ensures Said(ms, f) == Said(base, f)
  {
    if ms.NoMembers? {
    } else {
      if !Known(ItemsRead(ms.key)) && Widens(ms.rest, base) {
        WideningSaysTheSame(ms.rest, base, f);
      } else {
        var here := SaidHere(base, f);
        if here.Some? {
          WideningSaysTheSame(ms.rest, base.rest, here.value);
        }
      }
    }
  }

  lemma WrittenSays(c: Credentials)
    ensures Said(Written(c), NOTHING) == Some(Fields(c.ssid, c.password, true))
  {
    LettersAre("ssid");
    LettersAre("password");
    QuotedIs(c.ssid);
    QuotedIs(c.password);
    var f := Fields(c.ssid, "", true);
    assert Said(Secret(c), f) == Said(NoMembers, Put(f, "password", c.password));
    assert Said(Written(c), NOTHING) == Said(Secret(c), f);
  }

  /** A stored network reads back through any unknown members a later version may add, and any white space. */
  lemma ReadsBackWithExtras(c: Credentials, ws: string, space: string, ms: Members, more: string)
    requires Valid(c) && White(ws) && White(space) && GoodMembers(ms) && Widens(ms, Written(c))
    ensures ParseWifi(ws + (ValueText(Object(space, ms)) + more)) == Some(c)
  {
    ParseIsWhatItSays(ws, space, ms, more);
    MeantIs(ms);
    WideningSaysTheSame(ms, Written(c), NOTHING);
    WrittenSays(c);
  }

  lemma FieldIsGood(name: string, value: string, rest: Members)
    requires forall i :: 0 <= i < |name| ==> 'a' <= name[i] <= 'z'
    requires !HasControlChars(value) && GoodMembers(rest)
    ensures GoodMembers(Field(name, value, rest))
  {
    LettersAre(name);
    QuotedIsGood(value);
  }

  lemma WrittenIsGood(c: Credentials)
    requires Valid(c)
    ensures GoodMembers(Written(c))
  {
    FieldIsGood("password", c.password, NoMembers);
    FieldIsGood("ssid", c.ssid, Secret(c));
  }

  lemma WrittenReadsBack(c: Credentials)
    requires Valid(c)
    ensures ParseWifi(ValueText(Object("", Written(c)))) == Some(c)
  {
    var text := ValueText(Object("", Written(c)));
    NoneAround(text);
    assert "" + (text + "") == text;
    WrittenIsGood(c);
    ParseIsWhatItSays("", "", Written(c), "");
    MeantIs(Written(c));
    WrittenSays(c);
  }

  /** The file reads back as written exactly for the networks a person may type. */
  lemma RoundTripIff(c: Credentials)
    ensures ParseWifi(EncodeWifiJson(c)) == Some(c) <==> MayBeTyped(c)
  {
    ValidIff(c);
    if Valid(c) {
      EncodeIsWritten(c);
      NoneAround(EncodeWifiJson(c));
      WrittenReadsBack(c);
    }
  }

  // ----- files cut short -----

  lemma ReadMemberStable(t: string, f: Fields, more: string)
    requires ReadMember(t, f).Some? && ReadMember(t, f).value.rest != ""
    ensures ReadMember(t + more, f) == Some(Progress(ReadMember(t, f).value.fields, ReadMember(t, f).value.rest + more))
  {
    ReadStringStable(t, more);
    var key := Scan.ReadString(t).value;
    ConsumeStable(key.rest, ':', more);
    var after := Scan.Consume(key.rest, ':').value;
    if Known(key.value) {
      ReadStringStable(after, more);
    } else {
      SkipValueStable(after, more);
    }
  }

  lemma {:induction false} ReadMembersStable(t: string, f: Fields, more: string)
    requires ReadMembers(t, f).Some? && ReadMembers(t, f).value.rest != ""
    ensures ReadMembers(t + more, f)
            == Some(Progress(ReadMembers(t, f).value.fields, ReadMembers(t, f).value.rest + more))
    decreases |t|
  {
    var m := ReadMember(t, f).value;
    var u := SkipSpace(m.rest);
    assert u != "";
    ReadMemberStable(t, f, more);
    SkipSpaceStable(m.rest, more);
    assert (u + more)[0] == u[0];
    if u[0] != ',' {
    } else {
      DropFrom(u, more, 1);
      ReadMembersStable(u[1..], m.fields, more);
    }
  }

  lemma ReadInsideStable(t: string, more: string)
    requires ReadInside(t).Some? && ReadInside(t).value.rest != ""
    ensures ReadInside(t + more) == Some(Progress(ReadInside(t).value.fields, ReadInside(t).value.rest + more))
  {
    var u := SkipSpace(t);
    SkipSpaceStable(t, more);
    assert (u + more)[0] == u[0];
    if u[0] != '}' {
      ReadMembersStable(u, NOTHING, more);
    }
  }

  /** An accepted object stays accepted, with the same fields, whatever comes behind it. */
  lemma ReadObjectStable(t: string, more: string)
    requires ReadObject(t).Some?
    ensures ReadObject(t + more) == Some(Progress(ReadObject(t).value.fields, ReadObject(t).value.rest + more))
  {
    ConsumeStable(t, '{', more);
    var inside := Scan.Consume(t, '{').value;
    ReadInsideStable(inside, more);
    ConsumeStable(ReadInside(inside).value.rest, '}', more);
  }

  /** No well-formed object can be cut short and still be accepted. */
  lemma CutShortIsRejected(ws: string, space: string, ms: Members, n: nat)
    requires White(ws) && White(space) && GoodMembers(ms) && n < |ws + ValueText(Object(space, ms))|
    ensures ParseWifi((ws + ValueText(Object(space, ms)))[..n]) == None
  {
    var t := ws + ValueText(Object(space, ms));
    ReadObjectIs(ws, space, ms, "");
    NoneAround(ValueText(Object(space, ms)));
    Halves(t, n);
    if ReadObject(t[..n]).Some? {
      ReadObjectStable(t[..n], t[n..]);
    }
  }

  /** A damaged file reads as not configured. */
  lemma TruncatedFileIsRejected(c: Credentials, n: nat)
    requires Valid(c) && n < |EncodeWifiJson(c)|
    ensures ParseWifi(EncodeWifiJson(c)[..n]) == None
  {
    WrittenIsGood(c);
    EncodeIsWritten(c);
    NoneAround(ValueText(Object("", Written(c))));
    CutShortIsRejected("", "", Written(c), n);
  }
}
