/** The hand-rolled scanner for small JSON messages (JsonScanner.h), and what it makes of well-formed JSON. */
module JsonScanner {
  import opened Wrappers
  import opened Text

  // ----- the scanner as functions on the text still ahead -----

  datatype Read = Read(value: string, rest: string)

  function Consume(t: string, c: char): (r: Option<string>)
    ensures r.Some? ==> |r.value| < |t|
  {
    var u := SkipSpace(t);
    if u != "" && u[0] == c then Some(u[1..]) else None
  }

  function Peek(t: string): char {
    var u := SkipSpace(t);
    if u != "" then u[0] else '\0'
  }

  function Unescape(c: char): char { if c == 'n' then '\n' else if c == 't' then '\t' else c }

  function Then(c: char, r: Option<Read>): Option<Read> {
    if r.None? then None else Some(Read([c] + r.value.value, r.value.rest))
  }

  /** After the opening quote. */
  function ReadBody(t: string): (r: Option<Read>)
    ensures r.Some? ==> |r.value.rest| < |t|
  {
    if t == "" then None
    else if t[0] == '"' then Some(Read("", t[1..]))
    else if t[0] == '\\' && |t| >= 2 then Then(Unescape(t[1]), ReadBody(t[2..]))
    else Then(t[0], ReadBody(t[1..]))
  }

  function ReadString(t: string): (r: Option<Read>)
    ensures r.Some? ==> |r.value.rest| < |t|
  {
    var u := SkipSpace(t);
    if u == "" || u[0] != '"' then None else ReadBody(u[1..])
  }

  function Closing(open: char): char { if open == '{' then '}' else ']' }

  /** To the bracket that brings the depth of one kind of bracket back to zero. */
  function Skim(t: string, open: char, depth: int, inString: bool): (r: Option<string>)
    ensures r.Some? ==> |r.value| < |t|
  {
    if t == "" then None
    else if inString then
      if t[0] == '\\' && |t| >= 2 then Skim(t[2..], open, depth, true)
      else Skim(t[1..], open, depth, t[0] != '"')
    else if t[0] == '"' then Skim(t[1..], open, depth, true)
    else if t[0] == open then Skim(t[1..], open, depth + 1, false)
    else if t[0] == Closing(open) then (if depth == 1 then Some(t[1..]) else Skim(t[1..], open, depth - 1, false))
    else Skim(t[1..], open, depth, false)
  }

  predicate Delimiter(c: char) { c == ',' || c == '}' || c == ']' || IsSpace(c) }

  function ToDelimiter(t: string): (r: string)
    ensures |r| <= |t|
  { if t == "" || Delimiter(t[0]) then t else ToDelimiter(t[1..]) }

  function SkipValue(t: string): (r: Option<string>)
    ensures r.Some? ==> |r.value| <= |t|
  {
    var u := SkipSpace(t);
    if u == "" then None
    else if u[0] == '"' then (var r := ReadString(u); if r.None? then None else Some(r.value.rest))
    else if u[0] == '{' || u[0] == '[' then Skim(u, u[0], 0, false)
    else Some(ToDelimiter(u))
  }

  // ----- the scanner as the source runs it -----

  class JsonScanner {
    const s: string
    var pos: nat
    var ok: bool

    ghost predicate Valid()
      reads this
    {
      pos <= |s|
    }

    function Ahead(): string
      reads this
      requires Valid()
    {
      s[pos..]
    }

    constructor (s: string)
      ensures Valid() && this.s == s && ok && Ahead() == s
    {
      this.s, pos, ok := s, 0, true;
    }

    method SkipWs()
      requires Valid()
      modifies this`pos
      ensures Valid() && Ahead() == SkipSpace(old(Ahead()))
    {
      while pos < |s| && IsSpace(s[pos])
        invariant Valid() && SkipSpace(Ahead()) == SkipSpace(old(Ahead()))
      {
        assert s[pos..][1..] == s[pos + 1..];
        pos := pos + 1;
      }
    }

    method ConsumeChar(c: char) returns (found: bool)
      requires Valid()
      modifies this
      ensures Valid() && found == Consume(old(Ahead()), c).Some? && ok == (old(ok) && found)
      ensures Ahead() == if found then Consume(old(Ahead()), c).value else SkipSpace(old(Ahead()))
    {
      SkipWs();
      if pos >= |s| || s[pos] != c {
        ok := false;
        return false;
      }
      pos := pos + 1;
      found := true;
    }

    method PeekChar() returns (c: char)
      requires Valid()
      modifies this`pos
      ensures Valid() && Ahead() == SkipSpace(old(Ahead())) && c == Peek(old(Ahead()))
    {
      SkipWs();
      c := if pos < |s| then s[pos] else '\0';
    }

    method ParseString() returns (r: Option<string>)
      requires Valid()
      modifies this
      ensures Valid() && ok == (old(ok) && r.Some?)
      ensures match ReadString(old(Ahead()))
        case Some(read) => r == Some(read.value) && Ahead() == read.rest
        case None => r == None
    {
      SkipWs();
      if pos >= |s| || s[pos] != '"' {
        ok := false;
        return None;
      }
      pos := pos + 1;
      ghost var body := Ahead();
      var out := "";
      PrefixedNothing(ReadBody(body));
      while pos < |s| && s[pos] != '"'
        invariant Valid() && ok == old(ok)
        invariant ReadBody(body) == Prefixed(out, ReadBody(Ahead()))
      {
        var c := s[pos];
        ghost var t := Ahead();
        pos := pos + 1;
        if c == '\\' && pos < |s| {
          var esc := s[pos];
          pos := pos + 1;
          assert Ahead() == t[2..];
          PrefixedThen(out, Unescape(esc), ReadBody(t[2..]));
          out := out + [Unescape(esc)];
        } else {
          assert Ahead() == t[1..];
          PrefixedThen(out, c, ReadBody(t[1..]));
          out := out + [c];
        }
      }
      if pos >= |s| {
        ok := false;
        return None;
      }
      pos := pos + 1;
      assert out + "" == out;
      r := Some(out);
    }

    method SkipAnyValue()
      requires Valid()
      modifies this
      ensures Valid() && ok == (old(ok) && SkipValue(old(Ahead())).Some?)
      ensures SkipValue(old(Ahead())).Some? ==> Ahead() == SkipValue(old(Ahead())).value
    {
      SkipWs();
      if pos >= |s| {
        ok := false;
        return;
      }
      SkipSpaceTwice(old(Ahead()));
      var c := s[pos];
      if c == '"' {
        var skipped := ParseString();
      } else if c == '{' || c == '[' {
        SkipContainer();
      } else {
        SkipScalar();
      }
    }

    /** The branch of `skipValue` for an object or an array. */
    method SkipContainer()
      requires Valid() && pos < |s| && (s[pos] == '{' || s[pos] == '[')
      modifies this
      ensures Valid() && ok == (old(ok) && Skim(old(Ahead()), old(Ahead())[0], 0, false).Some?)
      ensures var r := Skim(old(Ahead()), old(Ahead())[0], 0, false); r.Some? ==> Ahead() == r.value
    {
      ghost var all := Skim(Ahead(), s[pos], 0, false);
      var open := s[pos];
      var close := if open == '{' then '}' else ']';
      var depth := 0;
      var inString := false;
      while pos < |s|
        invariant Valid() && ok == old(ok)
        invariant all == Skim(Ahead(), open, depth, inString)
      {
        ghost var u := Ahead();
        var ch := s[pos];
        pos := pos + 1;
        assert Ahead() == u[1..];
        if inString {
          if ch == '\\' && pos < |s| {
            pos := pos + 1;
            assert Ahead() == u[2..];
            continue;
          }
          if ch == '"' { inString := false; }
          continue;
        }
        if ch == '"' {
          inString := true;
          continue;
        }
        if ch == open {
          depth := depth + 1;
        } else if ch == close {
          depth := depth - 1;
          if depth == 0 { return; }
        }
      }
      ok := false;
    }

    /** The branch for a number, true, false or null. */
    method SkipScalar()
      requires Valid()
      modifies this`pos
      ensures Valid() && Ahead() == ToDelimiter(old(Ahead()))
    {
      while pos < |s| && s[pos] != ',' && s[pos] != '}' && s[pos] != ']' && !IsSpace(s[pos])
        invariant Valid() && ToDelimiter(Ahead()) == ToDelimiter(old(Ahead()))
      {
        assert s[pos..][1..] == s[pos + 1..];
        pos := pos + 1;
      }
    }
  }

  ghost function Prefixed(out: string, r: Option<Read>): Option<Read> {
    if r.None? then None else Some(Read(out + r.value.value, r.value.rest))
  }

  lemma PrefixedNothing(r: Option<Read>)
    ensures Prefixed("", r) == r
  {
    if r.Some? {
      assert "" + r.value.value == r.value.value;
    }
  }

  lemma PrefixedThen(out: string, c: char, r: Option<Read>)
    ensures Prefixed(out, Then(c, r)) == Prefixed(out + [c], r)
  {
    if r.Some? {
      assert out + ([c] + r.value.value) == (out + [c]) + r.value.value;
    }
  }

  lemma {:induction false} SkipSpaceTwice(t: string)
    ensures SkipSpace(SkipSpace(t)) == SkipSpace(t)
  {
    if t == "" || !IsSpace(t[0]) {
    } else {
      SkipSpaceTwice(t[1..]);
    }
  }
}
