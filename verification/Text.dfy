/** Character classes, searching, decimal numbers and lines, as the C++ library calls the sources use define them. */
module Text {
  import opened Wrappers

  /** `std::isspace` in the C locale. */
  predicate IsSpace(c: char) { c == ' ' || 9 as char <= c <= 13 as char }

  predicate IsDigit(c: char) { '0' <= c <= '9' }

  predicate Lacks(s: string, c: char) { forall i :: 0 <= i < |s| ==> s[i] != c }

  /** `s.find(c)`: the first occurrence, or |s| when there is none. */
  function Find(s: string, c: char): (i: nat)
    ensures i <= |s| && Lacks(s[..i], c)
    ensures i < |s| ==> s[i] == c
    ensures i == |s| <==> Lacks(s, c)
  {
    if s == "" || s[0] == c then 0
    else
      assert s == [s[0]] + s[1..];
      assert s[..1 + Find(s[1..], c)] == [s[0]] + s[1..][..Find(s[1..], c)];
      1 + Find(s[1..], c)
  }

  lemma {:induction false} FindIs(s: string, c: char, i: nat)
    requires i <= |s| && Lacks(s[..i], c) && (i < |s| ==> s[i] == c)
    ensures Find(s, c) == i
  {
    if i == 0 {
    } else {
      assert s[0] == s[..i][0];
      assert s[1..][..i - 1] == s[..i][1..];
      FindIs(s[1..], c, i - 1);
    }
  }

  lemma {:induction false} FindAtMost(s: string, c: char, k: nat)
    requires k < |s| && s[k] == c
    ensures Find(s, c) <= k
  {
    if k == 0 || s[0] == c {
    } else {
      FindAtMost(s[1..], c, k - 1);
    }
  }

  /** Text between two brackets, with more behind. */
  lemma Bracketed(open: char, inside: string, close: char, rest: string)
    ensures ([open] + (inside + [close])) + rest == [open] + (inside + ([close] + rest))
    ensures (([open] + (inside + [close])) + rest)[0] == open
    ensures (([open] + (inside + [close])) + rest)[1..] == inside + ([close] + rest)
  {
    Assoc([open], inside + [close], rest);
    Assoc(inside, [close], rest);
    Parted([open], inside + ([close] + rest));
  }

  function Count(s: string, c: char): nat {
    if s == "" then 0 else (if s[0] == c then 1 else 0) + Count(s[1..], c)
  }

  lemma {:induction false} CountConcat(s: string, t: string, c: char)
    ensures Count(s + t, c) == Count(s, c) + Count(t, c)
  {
    if s == "" {
      assert s + t == t;
    } else {
      assert (s + t)[1..] == s[1..] + t;
      CountConcat(s[1..], t, c);
    }
  }

  lemma {:induction false} CountZero(s: string, c: char)
    ensures Count(s, c) == 0 <==> Lacks(s, c)
  {
    if s == "" {
    } else {
      assert s == [s[0]] + s[1..];
      CountZero(s[1..], c);
    }
  }

  // ----- numbers -----

  function Digit(n: nat): char
    requires n < 10
  {
    '0' + n as char
  }

  /** `std::to_string` of a non-negative number. */
  function Decimal(n: nat): (s: string)
    ensures |s| > 0 && forall i :: 0 <= i < |s| ==> IsDigit(s[i])
  {
    if n < 10 then [Digit(n)] else Decimal(n / 10) + [Digit(n % 10)]
  }

  function Value(c: char): nat
    requires IsDigit(c)
  {
    c as nat - '0' as nat
  }

  /** The digits at the front of s, read onto what was read before. */
  function ReadDigits(s: string, read: nat): nat {
    if s == "" || !IsDigit(s[0]) then read else ReadDigits(s[1..], 10 * read + Value(s[0]))
  }

  function SkipSpace(s: string): (r: string)
    ensures |r| <= |s|
  {
    if s == "" || !IsSpace(s[0]) then s else SkipSpace(s[1..])
  }

  /** `std::atoi`, without the overflow it leaves undefined. */
  function Atoi(s: string): int {
    var t := SkipSpace(s);
    if t != "" && t[0] == '-' then 0 - ReadDigits(t[1..], 0)
    else if t != "" && t[0] == '+' then ReadDigits(t[1..], 0)
    else ReadDigits(t, 0)
  }

  lemma {:induction false} ReadDigitsConcat(s: string, t: string, read: nat)
    requires forall i :: 0 <= i < |s| ==> IsDigit(s[i])
    ensures ReadDigits(s + t, read) == ReadDigits(t, ReadDigits(s, read))
  {
    if s == "" {
      assert s + t == t;
    } else {
      assert (s + t)[1..] == s[1..] + t;
      ReadDigitsConcat(s[1..], t, 10 * read + Value(s[0]));
    }
  }

  lemma {:induction false} ReadDecimal(n: nat)
    ensures ReadDigits(Decimal(n), 0) == n
  {
    if n < 10 {
    } else {
      ReadDecimal(n / 10);
      ReadDigitsConcat(Decimal(n / 10), [Digit(n % 10)], 0);
    }
  }

  lemma AtoiDecimal(n: nat)
    ensures Atoi(Decimal(n)) == n
  {
    ReadDecimal(n);
  }

  // ----- lines -----

  /** Every line ended by a newline. */
  function Unlines(lines: seq<string>): string {
    if lines == [] then "" else lines[0] + "\n" + Unlines(lines[1..])
  }

  function Before(line: string, rest: Option<seq<string>>): Option<seq<string>> {
    if rest.None? then None else Some([line] + rest.value)
  }

  /** The lines of s; None when the last one is not ended. */
  function Lines(s: string): (r: Option<seq<string>>)
    decreases |s|
  {
    if s == "" then Some([])
    else
      var nl := Find(s, '\n');
      if nl == |s| then None else Before(s[..nl], Lines(s[nl + 1..]))
  }

  lemma LinesAt(s: string, nl: nat)
    requires nl < |s| && s[nl] == '\n' && Lacks(s[..nl], '\n')
    ensures Lines(s) == Before(s[..nl], Lines(s[nl + 1..]))
  {
    FindIs(s, '\n', nl);
  }

  lemma LinesStep(line: string, s: string)
    requires Lacks(line, '\n')
    ensures Lines(line + "\n" + s) == Before(line, Lines(s))
  {
    var head, t := line + "\n", line + "\n" + s;
    Parted(head, s);
    Assoc(line, "\n", s);
    Parted(line, "\n" + s);
    assert t[|line|] == '\n';
    LinesAt(t, |line|);
  }

  lemma {:induction false} UnlinesConcat(a: seq<string>, b: seq<string>)
    ensures Unlines(a + b) == Unlines(a) + Unlines(b)
  {
    if a == [] {
      assert a + b == b;
    } else {
      assert (a + b)[1..] == a[1..] + b;
      UnlinesConcat(a[1..], b);
    }
  }

  lemma {:induction false} LinesUnlines(lines: seq<string>)
    requires forall i :: 0 <= i < |lines| ==> Lacks(lines[i], '\n')
    ensures Lines(Unlines(lines)) == Some(lines)
  {
    if lines == [] {
    } else {
      LinesUnlines(lines[1..]);
      LinesStep(lines[0], Unlines(lines[1..]));
      assert [lines[0]] + lines[1..] == lines;
    }
  }

  function Joined(a: seq<string>, r: Option<seq<string>>): Option<seq<string>> {
    if r.None? then None else Some(a + r.value)
  }

  lemma JoinedBefore(line: string, a: seq<string>, r: Option<seq<string>>)
    ensures Before(line, Joined(a, r)) == Joined([line] + a, r)
  {
    if r.Some? {
      assert [line] + (a + r.value) == ([line] + a) + r.value;
    }
  }

  /** The text in front of a position, the character there, and the text behind it. */
  lemma SplitAt(s: string, t: string, i: nat)
    requires i < |s|
    ensures s + t == s[..i] + [s[i]] + (s[i + 1..] + t)
  {
    Halves(s, i + 1);
    assert s[..i + 1] == s[..i] + [s[i]];
    Assoc(s[..i + 1], s[i + 1..], t);
  }

  /** Complete lines followed by any text: the lines come first. */
  lemma {:induction false} LinesConcat(s: string, t: string)
    requires Lines(s).Some?
    ensures Lines(s + t) == Joined(Lines(s).value, Lines(t))
    decreases |s|
  {
    if s == "" {
      assert s + t == t;
      JoinedNothing(Lines(t));
    } else {
      var nl := Find(s, '\n');
      LinesAt(s, nl);
      SplitAt(s, t, nl);
      var line, rest := s[..nl], s[nl + 1..];
      LinesConcat(rest, t);
      LinesStep(line, rest + t);
      JoinedBefore(line, Lines(rest).value, Lines(t));
    }
  }

  lemma JoinedNothing(r: Option<seq<string>>)
    ensures Joined([], r) == r
  {
    if r.Some? {
      assert [] + r.value == r.value;
    }
  }

  lemma NoLines(s: string)
    requires Lacks(s, '\n')
    ensures Lines(s) == if s == "" then Some([]) else None
  {
  }

  /** As many lines as newlines. */
  lemma {:induction false} LinesCount(s: string)
    ensures Lines(s).Some? ==> |Lines(s).value| == Count(s, '\n')
    decreases |s|
  {
    if s == "" {
    } else {
      var nl := Find(s, '\n');
      if nl < |s| {
        LinesAt(s, nl);
        LinesCount(s[nl + 1..]);
        CountAt(s, nl);
      } else {
        NoLines(s);
      }
    }
  }

  lemma CountAt(s: string, i: nat)
    requires i < |s| && Lacks(s[..i], s[i])
    ensures Count(s, s[i]) == 1 + Count(s[i + 1..], s[i])
  {
    Halves(s, i);
    assert s[i..] == [s[i]] + s[i + 1..];
    CountConcat(s[..i], s[i..], s[i]);
    CountZero(s[..i], s[i]);
  }

  /** A text that ends in a newline is a list of lines. */
  lemma {:induction false} EndedIsLines(s: string)
    ensures Lines(s + "\n").Some?
    decreases |s|
  {
    var nl := Find(s, '\n');
    if nl == |s| {
      NoneAround(s + "\n");
      LinesStep(s, "");
    } else {
      SplitAt(s, "\n", nl);
      EndedIsLines(s[nl + 1..]);
      LinesStep(s[..nl], s[nl + 1..] + "\n");
    }
  }

  lemma SomeLine(s: string)
    requires s != "" && Lines(s).Some?
    ensures |Lines(s).value| > 0
  {
  }

  /** Cutting a list of lines short leaves a broken line or fewer lines. */
  lemma LinesOfPrefix(lines: seq<string>, n: nat) returns (k: nat)
    requires forall i :: 0 <= i < |lines| ==> Lacks(lines[i], '\n')
    requires n < |Unlines(lines)|
    ensures k <= |lines|
    ensures Lines(Unlines(lines)[..n]) == None || (k < |lines| && Lines(Unlines(lines)[..n]) == Some(lines[..k]))
  {
    var p, q := Unlines(lines)[..n], Unlines(lines)[n..];
    k := 0;
    if Lines(p).Some? {
      LinesUnlines(lines);
      Halves(Unlines(lines), n);
      LinesConcat(p, q);
      SomeLine(q);
      k := |Lines(p).value|;
      Parted(Lines(p).value, Lines(q).value);
    }
  }
}
