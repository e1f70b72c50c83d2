/**
 * The scanner against the grammar: it reads every string, stops exactly at the
 * end of every value, and does not change its mind.
 */
module JsonTheorems {
  import opened Wrappers
  import opened Text
  import opened Json
  import opened JsonScanner

  // ----- strings -----

  function ItemRead(i: Item): string {
    match i
    case Plain(c) => [c]
    case Escape(c) => [Unescape(c)]
    case Unicode(hex) => "u" + hex
  }

  /** What the scanner takes a string to say. */
  function ItemsRead(items: seq<Item>): string {
    if items == [] then "" else ItemRead(items[0]) + ItemsRead(items[1..])
  }

  lemma {:induction false} ReadPlain(t: string, rest: string)
    requires forall i :: 0 <= i < |t| ==> t[i] != '"' && t[i] != '\\'
    ensures ReadBody(t + rest) == Prefixed(t, ReadBody(rest))
  {
    if t == "" {
      NoneAround(rest);
      PrefixedNothing(ReadBody(rest));
    } else {
      ReadPlain(t[1..], rest);
      assert [t[0]] + t[1..] == t;
      DropFrom(t, rest, 1);
      ThenPrefixed(t[0], t[1..], ReadBody(rest));
    }
  }

  lemma ThenPrefixed(c: char, out: string, r: Option<Read>)
    ensures Then(c, Prefixed(out, r)) == Prefixed([c] + out, r)
  {
    if r.Some? {
      assert [c] + (out + r.value.value) == ([c] + out) + r.value.value;
    }
  }

  lemma ReadItem(i: Item, rest: string)
    requires GoodItem(i)
    ensures ReadBody(ItemText(i) + rest) == Prefixed(ItemRead(i), ReadBody(rest))
  {
    match i
    case Plain(c) => ReadPlain([c], rest);
    case Escape(c) =>
      assert (['\\', c] + rest)[2..] == rest;
    case Unicode(hex) =>
      assert (("\\u" + hex) + rest)[2..] == hex + rest;
      ReadPlain(hex, rest);
      ThenPrefixed('u', hex, ReadBody(rest));
  }

  lemma {:induction false} ReadItems(items: seq<Item>, rest: string)
    requires GoodItems(items)
    ensures ReadBody(ItemsText(items) + ("\"" + rest)) == Some(Read(ItemsRead(items), rest))
  {
    var tail := "\"" + rest;
    if items == [] {
      assert ItemsText(items) + tail == tail && tail[1..] == rest;
    } else {
      ReadItems(items[1..], rest);
      var more := ItemsText(items[1..]) + tail;
      ReadItem(items[0], more);
      Assoc(ItemText(items[0]), ItemsText(items[1..]), tail);
    }
  }

  /** The escapes the scanner takes for letters. */
  predicate Misread(i: Item) { i.Unicode? || i in {Escape('b'), Escape('f'), Escape('r')} }

  /** A string is never read shorter than it is meant, and longer as soon as it names a character by its code. */
  lemma {:induction false} ReadIsNoShorter(items: seq<Item>)
    requires GoodItems(items)
    ensures |ItemsRead(items)| >= |ItemsMeant(items)|
    ensures (exists i :: 0 <= i < |items| && items[i].Unicode?) ==> |ItemsRead(items)| > |ItemsMeant(items)|
  {
    if |items| >= 2 && IsHighSurrogate(items[0]) && IsLowSurrogate(items[1]) {
      ReadIsNoShorter(items[2..]);
      assert items[1..][1..] == items[2..];
      assert ItemsRead(items) == ItemRead(items[0]) + (ItemRead(items[1]) + ItemsRead(items[2..]));
    } else if items != [] {
      ReadIsNoShorter(items[1..]);
      if i :| 0 <= i < |items| && items[i].Unicode? {
        assert i > 0 ==> items[1..][i - 1].Unicode?;
      }
    }
  }

  lemma ReadHere(i: Item)
    requires GoodItem(i) && !i.Unicode?
    ensures |ItemRead(i)| == |Meant(i)| == 1
    ensures ItemRead(i) == Meant(i) <==> !Misread(i)
  {
  }

  /** With every item one character on both sides, two strings agree when they agree item by item. */
  lemma {:induction false} ReadsItemByItem(items: seq<Item>)
    requires GoodItems(items) && forall i :: 0 <= i < |items| ==> !items[i].Unicode?
    ensures ItemsRead(items) == ItemsMeant(items) <==> forall i :: 0 <= i < |items| ==> !Misread(items[i])
  {
    if items == [] {
    } else {
      var first, rest := items[0], items[1..];
      ReadHere(first);
      ReadsItemByItem(rest);
      assert ItemsRead(items) == ItemRead(first) + ItemsRead(rest)
             && ItemsMeant(items) == Meant(first) + ItemsMeant(rest);
      SameHeadAndTail(ItemRead(first), ItemsRead(rest), Meant(first), ItemsMeant(rest));
      assert forall i :: 0 < i < |items| ==> items[i] == rest[i - 1];
      assert forall i :: 0 <= i < |rest| ==> rest[i] == items[i + 1];
    }
  }

  lemma SameHeadAndTail(a: string, s: string, b: string, t: string)
    requires |a| == |b| == 1
    ensures a + s == b + t <==> a == b && s == t
  {
    Parted(a, s);
    Parted(b, t);
  }

  /** Reading is the meaning RFC 8259 gives a string exactly when it uses none of \b, \f, \r and \u. */
  lemma ReadsAsMeantIff(items: seq<Item>)
    requires GoodItems(items)
    ensures ItemsRead(items) == ItemsMeant(items) <==> forall i :: 0 <= i < |items| ==> !Misread(items[i])
  {
    if i :| 0 <= i < |items| && items[i].Unicode? {
      ReadIsNoShorter(items);
      assert Misread(items[i]);
    } else {
      ReadsItemByItem(items);
    }
  }

  // ----- skipping a value -----

  predicate Inert(t: string) { forall i :: 0 <= i < |t| ==> t[i] !in "\"{}[]" }

  lemma {:induction false} SkimInert(t: string, rest: string, open: char, depth: int)
    requires Inert(t) && open in "{["
    ensures Skim(t + rest, open, depth, false) == Skim(rest, open, depth, false)
  {
    if t == "" {
      NoneAround(rest);
    } else {
      DropFrom(t, rest, 1);
      SkimInert(t[1..], rest, open, depth);
    }
  }

  lemma {:induction false} SkimQuoted(t: string, rest: string, open: char, depth: int)
    requires forall i :: 0 <= i < |t| ==> t[i] != '"' && t[i] != '\\'
    ensures Skim(t + rest, open, depth, true) == Skim(rest, open, depth, true)
  {
    if t == "" {
      NoneAround(rest);
    } else {
      DropFrom(t, rest, 1);
      SkimQuoted(t[1..], rest, open, depth);
    }
  }

  lemma SkimItem(i: Item, rest: string, open: char, depth: int)
    requires GoodItem(i)
    ensures Skim(ItemText(i) + rest, open, depth, true) == Skim(rest, open, depth, true)
  {
    match i
    case Plain(c) => SkimQuoted([c], rest, open, depth);
    case Escape(c) =>
      assert (['\\', c] + rest)[2..] == rest;
    case Unicode(hex) =>
      assert (("\\u" + hex) + rest)[2..] == hex + rest;
      SkimQuoted(hex, rest, open, depth);
  }

  lemma {:induction false} SkimItems(items: seq<Item>, rest: string, open: char, depth: int)
    requires GoodItems(items)
    ensures Skim(ItemsText(items) + ("\"" + rest), open, depth, true) == Skim(rest, open, depth, false)
  {
    var tail := "\"" + rest;
    if items == [] {
      assert ItemsText(items) + tail == tail && tail[1..] == rest;
    } else {
      SkimItems(items[1..], rest, open, depth);
      var more := ItemsText(items[1..]) + tail;
      SkimItem(items[0], more, open, depth);
      Assoc(ItemText(items[0]), ItemsText(items[1..]), tail);
    }
  }

  lemma SkimString(items: seq<Item>, rest: string, open: char, depth: int)
    requires GoodItems(items) && open in "{["
    ensures Skim(StringText(items) + rest, open, depth, false) == Skim(rest, open, depth, false)
  {
    SkimItems(items, rest, open, depth);
    Bracketed('"', ItemsText(items), '"', rest);
  }

  predicate Bracket(open: char) { open == '{' || open == '[' }

  predicate TokenChar(c: char) { IsDigit(c) || 'a' <= c <= 'z' || c in "+-.E" }

  predicate Token(t: string) { forall i :: 0 <= i < |t| ==> TokenChar(t[i]) }

  lemma NumberIsToken(v: Value)
    requires v.Number? && GoodValue(v)
    ensures Token(ValueText(v)) && ValueText(v) != ""
  {
    var fraction, exponent := FractionText(v.fraction), ExponentText(v.exponent);
    assert Token(v.whole) && Token(fraction);
    if v.exponent.Some? {
      var e := v.exponent.value;
      assert Token([e.mark]) && Token(e.sign) && Token(e.digits);
    }
    assert Token(exponent);
  }

  lemma WordIsToken(v: Value)
    requires v.Word? && GoodValue(v)
    ensures Token(ValueText(v)) && ValueText(v) != ""
  {
    assert v.name == "true" || v.name == "false" || v.name == "null";
  }

  lemma TokenIsInert(t: string)
    requires Token(t)
    ensures Inert(t)
  {
  }

  lemma ScalarIsInert(v: Value)
    requires GoodValue(v) && Scalar(v)
    ensures Token(ValueText(v)) && Inert(ValueText(v)) && ValueText(v) != ""
  {
    if v.Number? {
      NumberIsToken(v);
    } else {
      WordIsToken(v);
    }
    TokenIsInert(ValueText(v));
  }

  /** Inside a container of either kind, a whole value leaves the depth as it was. */
  lemma {:induction false} SkimValue(v: Value, rest: string, open: char, depth: int)
    requires GoodValue(v) && Bracket(open) && depth >= 1
    ensures Skim(ValueText(v) + rest, open, depth, false) == Skim(rest, open, depth, false)
    decreases v, 1
  {
    match v
    case Word(_) =>
      ScalarIsInert(v);
      SkimInert(ValueText(v), rest, open, depth);
    case Number(_, _, _, _) =>
      ScalarIsInert(v);
      SkimInert(ValueText(v), rest, open, depth);
    case Str(items) => SkimString(items, rest, open, depth);
    case Array(space, es) => SkimInside(v, "]" + rest, open, depth + if open == '[' then 1 else 0);
      SkimBrackets('[', Inside(v), rest, open, depth);
    case Object(space, ms) => SkimInside(v, "}" + rest, open, depth + if open == '{' then 1 else 0);
      SkimBrackets('{', Inside(v), rest, open, depth);
  }

  /** The text between the brackets. */
  function Inside(v: Value): string
    requires v.Array? || v.Object?
  {
    match v
    case Array(space, es) => if es.NoElements? then space else ElementsText(es)
    case Object(space, ms) => if ms.NoMembers? then space else MembersText(ms)
  }

  lemma SkimBrackets(bracket: char, inside: string, rest: string, open: char, depth: int)
    requires Bracket(bracket) && Bracket(open) && depth >= 1
    requires var d := depth + if open == bracket then 1 else 0;
      Skim(inside + ([Closing(bracket)] + rest), open, d, false) == Skim([Closing(bracket)] + rest, open, d, false)
    ensures Skim(([bracket] + (inside + [Closing(bracket)])) + rest, open, depth, false)
            == Skim(rest, open, depth, false)
  {
    Bracketed(bracket, inside, Closing(bracket), rest);
    Parted([Closing(bracket)], rest);
  }

  lemma {:induction false} SkimInside(v: Value, rest: string, open: char, depth: int)
    requires (v.Array? || v.Object?) && GoodValue(v) && Bracket(open) && depth >= 1
    ensures Skim(Inside(v) + rest, open, depth, false) == Skim(rest, open, depth, false)
    decreases v, 0
  {
    match v
    case Array(space, es) =>
      if es.NoElements? {
        SkimInert(space, rest, open, depth);
      } else {
        SkimElements(es, rest, open, depth);
      }
    case Object(space, ms) =>
      if ms.NoMembers? {
        SkimInert(space, rest, open, depth);
      } else {
        SkimMembers(ms, rest, open, depth);
      }
  }

  /** A value between white space, with anything behind it. */
  lemma {:induction false} SkimFramed(before: string, v: Value, after: string, t: string, open: char, depth: int)
    requires White(before) && GoodValue(v) && White(after) && Bracket(open) && depth >= 1
    ensures Skim(before + (ValueText(v) + (after + t)), open, depth, false) == Skim(t, open, depth, false)
    decreases v, 2
  {
    SkimInert(after, t, open, depth);
    SkimValue(v, after + t, open, depth);
    SkimInert(before, ValueText(v) + (after + t), open, depth);
  }

  lemma {:induction false} SkimElements(es: Elements, rest: string, open: char, depth: int)
    requires es.Element? && GoodElements(es) && Bracket(open) && depth >= 1
    ensures Skim(ElementsText(es) + rest, open, depth, false) == Skim(rest, open, depth, false)
    decreases es, 0
  {
    var more := if es.rest.NoElements? then "" else "," + ElementsText(es.rest);
    if es.rest.NoElements? {
      NoneAround(rest);
    } else {
      SkimElements(es.rest, rest, open, depth);
      SkimComma(ElementsText(es.rest), rest, open, depth);
    }
    SkimFramed(es.before, es.value, es.after, more + rest, open, depth);
    Regroup3(es.before, ValueText(es.value), es.after, more, rest);
  }

  lemma SkimComma(t: string, rest: string, open: char, depth: int)
    requires Bracket(open)
    ensures Skim(("," + t) + rest, open, depth, false) == Skim(t + rest, open, depth, false)
  {
    Assoc(",", t, rest);
    SkimInert(",", t + rest, open, depth);
  }

  lemma Regroup3(a: string, b: string, c: string, d: string, e: string)
    ensures (a + (b + (c + d))) + e == a + (b + (c + (d + e)))
  {
    Assoc(a, b + (c + d), e);
    Assoc(b, c + d, e);
    Assoc(c, d, e);
  }

  lemma {:induction false} SkimMembers(ms: Members, rest: string, open: char, depth: int)
    requires ms.Member? && GoodMembers(ms) && Bracket(open) && depth >= 1
    ensures Skim(MembersText(ms) + rest, open, depth, false) == Skim(rest, open, depth, false)
    decreases ms, 1
  {
    var tail := ValueAndRest(ms);
    SkimBehind(ms, rest, open, depth);
    SkimHead(ms, tail + rest, open, depth);
    Regroup3(ms.before, StringText(ms.key), ms.middle, ":" + tail, rest);
    Assoc(":", tail, rest);
  }

  /** From behind a member's colon on. */
  lemma {:induction false} SkimBehind(ms: Members, rest: string, open: char, depth: int)
    requires ms.Member? && GoodMembers(ms) && Bracket(open) && depth >= 1
    ensures Skim(ValueAndRest(ms) + rest, open, depth, false) == Skim(rest, open, depth, false)
    decreases ms, 0
  {
    var more := if ms.rest.NoMembers? then "" else "," + MembersText(ms.rest);
    if ms.rest.NoMembers? {
      NoneAround(rest);
    } else {
      SkimMembers(ms.rest, rest, open, depth);
      SkimComma(MembersText(ms.rest), rest, open, depth);
    }
    SkimFramed(ms.between, ms.value, ms.after, more + rest, open, depth);
    Regroup3(ms.between, ValueText(ms.value), ms.after, more, rest);
  }

  lemma SkimHead(ms: Members, tail: string, open: char, depth: int)
    requires ms.Member? && GoodMembers(ms) && Bracket(open)
    ensures Skim(ms.before + (StringText(ms.key) + (ms.middle + (":" + tail))), open, depth, false)
            == Skim(tail, open, depth, false)
  {
    SkimInert(":", tail, open, depth);
    SkimInert(ms.middle, ":" + tail, open, depth);
    SkimString(ms.key, ms.middle + (":" + tail), open, depth);
    SkimInert(ms.before, StringText(ms.key) + (ms.middle + (":" + tail)), open, depth);
  }

  predicate Delimited(rest: string) { rest == "" || Delimiter(rest[0]) }

  lemma {:induction false} SkipWhite(ws: string, t: string)
    requires forall i :: 0 <= i < |ws| ==> IsSpace(ws[i])
    ensures SkipSpace(ws + t) == SkipSpace(t)
  {
    if ws == "" {
      assert ws + t == t;
    } else {
      DropFrom(ws, t, 1);
      SkipWhite(ws[1..], t);
    }
  }

  lemma {:induction false} ToDelimiterThrough(t: string, rest: string)
    requires Token(t)
    ensures ToDelimiter(t + rest) == ToDelimiter(rest)
  {
    if t == "" {
      NoneAround(rest);
    } else {
      DropFrom(t, rest, 1);
      ToDelimiterThrough(t[1..], rest);
    }
  }

  lemma {:induction false} ToDelimiterStays(t: string)
    ensures |ToDelimiter(t)| <= |t| && (ToDelimiter(t) == t <==> Delimited(t))
  {
    if Delimited(t) {
    } else {
      ToDelimiterStays(t[1..]);
    }
  }

  lemma SkipScalar(v: Value, rest: string)
    requires GoodValue(v) && Scalar(v)
    ensures SkipValue(ValueText(v) + rest) == Some(rest) <==> Delimited(rest)
  {
    var t := ValueText(v);
    ScalarIsInert(v);
    ToDelimiterThrough(t, rest);
    ToDelimiterStays(rest);
    assert TokenChar(t[0]) && (t + rest)[0] == t[0];
  }

  lemma SkipStringValue(items: seq<Item>, rest: string)
    requires GoodItems(items)
    ensures SkipValue(StringText(items) + rest) == Some(rest)
  {
    ReadItems(items, rest);
    Bracketed('"', ItemsText(items), '"', rest);
  }

  lemma SkipContainer(v: Value, open: char, rest: string)
    requires GoodValue(v) && ((v.Array? && open == '[') || (v.Object? && open == '{'))
    ensures SkipValue(ValueText(v) + rest) == Some(rest)
  {
    var tail := [Closing(open)] + rest;
    SkimInside(v, tail, open, 1);
    Bracketed(open, Inside(v), Closing(open), rest);
    Parted([Closing(open)], rest);
    assert ValueText(v) == [open] + (Inside(v) + [Closing(open)]);
  }

  lemma SkipIgnoresWhite(ws: string, t: string)
    requires forall i :: 0 <= i < |ws| ==> IsSpace(ws[i])
    ensures SkipValue(ws + t) == SkipValue(t)
  {
    SkipWhite(ws, t);
  }

  /** skipValue stops exactly at the end of a value; only a number, true, false or null also needs a delimiter there. */
  lemma SkipStopsAtTheEndIff(ws: string, v: Value, rest: string)
    requires GoodValue(v) && forall i :: 0 <= i < |ws| ==> IsSpace(ws[i])
    ensures SkipValue(ws + (ValueText(v) + rest)) == Some(rest) <==> (Scalar(v) ==> Delimited(rest))
  {
    SkipIgnoresWhite(ws, ValueText(v) + rest);
    match v
    case Word(_) => SkipScalar(v, rest);
    case Number(_, _, _, _) => SkipScalar(v, rest);
    case Str(items) => SkipStringValue(items, rest);
    case Array(_, _) => SkipContainer(v, '[', rest);
    case Object(_, _) => SkipContainer(v, '{', rest);
  }

  // ----- reading on: more text behind never changes what was read -----

  lemma {:induction false} ReadBodyStable(t: string, more: string)
    requires ReadBody(t).Some?
    ensures ReadBody(t + more) == Some(Read(ReadBody(t).value.value, ReadBody(t).value.rest + more))
  {
    if t[0] == '"' {
      DropFrom(t, more, 1);
    } else if t[0] == '\\' && |t| >= 2 {
      ReadBodyStable(t[2..], more);
      DropFrom(t, more, 2);
    } else {
      ReadBodyStable(t[1..], more);
      DropFrom(t, more, 1);
    }
  }

  lemma {:induction false} SkimStable(t: string, more: string, open: char, depth: int, inString: bool)
    requires Skim(t, open, depth, inString).Some?
    ensures Skim(t + more, open, depth, inString) == Some(Skim(t, open, depth, inString).value + more)
  {
    if inString && t[0] == '\\' && |t| >= 2 {
      SkimStable(t[2..], more, open, depth, true);
      DropFrom(t, more, 2);
    } else {
      DropFrom(t, more, 1);
      if inString {
        SkimStable(t[1..], more, open, depth, t[0] != '"');
      } else if t[0] == '"' {
        SkimStable(t[1..], more, open, depth, true);
      } else if t[0] == open {
        SkimStable(t[1..], more, open, depth + 1, false);
      } else if t[0] != Closing(open) {
        SkimStable(t[1..], more, open, depth, false);
      } else if depth != 1 {
        SkimStable(t[1..], more, open, depth - 1, false);
      }
    }
  }

  lemma {:induction false} SkipSpaceStable(t: string, more: string)
    requires SkipSpace(t) != ""
    ensures SkipSpace(t + more) == SkipSpace(t) + more
  {
    if !IsSpace(t[0]) {
    } else {
      SkipSpaceStable(t[1..], more);
      DropFrom(t, more, 1);
    }
  }

  lemma {:induction false} ToDelimiterStable(t: string, more: string)
    requires ToDelimiter(t) != ""
    ensures ToDelimiter(t + more) == ToDelimiter(t) + more
  {
    if Delimiter(t[0]) {
    } else {
      ToDelimiterStable(t[1..], more);
      DropFrom(t, more, 1);
    }
  }

  lemma ConsumeStable(t: string, c: char, more: string)
    requires Consume(t, c).Some?
    ensures Consume(t + more, c) == Some(Consume(t, c).value + more)
  {
    SkipSpaceStable(t, more);
    assert (SkipSpace(t) + more)[1..] == SkipSpace(t)[1..] + more;
  }

  lemma ReadStringStable(t: string, more: string)
    requires ReadString(t).Some?
    ensures ReadString(t + more) == Some(Read(ReadString(t).value.value, ReadString(t).value.rest + more))
  {
    var u := SkipSpace(t);
    SkipSpaceStable(t, more);
    DropFrom(u, more, 1);
    ReadBodyStable(u[1..], more);
  }

  lemma SkipValueStable(t: string, more: string)
    requires SkipValue(t).Some? && SkipValue(t).value != ""
    ensures SkipValue(t + more) == Some(SkipValue(t).value + more)
  {
    var u := SkipSpace(t);
    SkipSpaceStable(t, more);
    assert (u + more)[0] == u[0];
    if u[0] == '"' {
      ReadStringStable(u, more);
    } else if u[0] == '{' || u[0] == '[' {
      SkimStable(u, more, u[0], 0, false);
    } else {
      ToDelimiterStable(u, more);
    }
  }
}
