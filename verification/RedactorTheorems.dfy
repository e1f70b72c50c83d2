/** When the two redactors agree, and that no registered secret is left in what either returns. */
module RedactorTheorems {
  import opened Wrappers
  import opened Text
  import opened Redactor

  // ----- agreement -----

  /** A mask is no shorter than a short secret, and no longer than another one. */
  lemma {:induction false} ReplacedLength(t: string, secret: string)
    requires secret != ""
    ensures |secret| <= 3 ==> |Replaced(t, secret)| >= |t|
    ensures |secret| >= 3 ==> |Replaced(t, secret)| <= |t|
  {
    if |t| < |secret| {
    } else {
      if StartsWith(t, secret) {
        ReplacedLength(t[|secret|..], secret);
      } else {
        ReplacedLength(t[1..], secret);
      }
    }
  }

  lemma {:induction false} MaskedIsReplaced(t: string, secret: string, room: nat)
    requires secret != "" && |Replaced(t, secret)| <= |t| + room
    ensures Masked(t, secret, room) == Replaced(t, secret)
  {
    if |t| < |secret| {
    } else {
      if StartsWith(t, secret) {
        var rest := t[|secret|..];
        ReplacedLength(rest, secret);
        assert MaskLen(|secret|, room) == 3 && Stars(3) == MASK;
        MaskedIsReplaced(rest, secret, room + |secret| - 3);
      } else {
        MaskedIsReplaced(t[1..], secret, room);
      }
    }
  }

  /** For one secret the buffer ends up as the simple form says exactly when that fits the buffer. */
  lemma InPlaceIsSimpleIff(t: string, secret: string, capacity: nat)
    requires secret != "" && |t| <= capacity
    ensures Masked(t, secret, capacity - |t|) == Replaced(t, secret) <==> |Replaced(t, secret)| <= capacity
  {
    if |Replaced(t, secret)| <= capacity {
      MaskedIsReplaced(t, secret, capacity - |t|);
    }
  }

  /** The line fits after each secret of the simple form. */
  predicate AllFit(t: string, secrets: seq<string>, capacity: nat)
    decreases |secrets|
  {
    |t| <= capacity
    && (secrets != [] ==>
          AllFit(if secrets[0] == "" then t else Replaced(t, secrets[0]), secrets[1..], capacity))
  }

  lemma {:induction false} InPlaceIsSimple(t: string, secrets: seq<string>, capacity: nat)
    requires AllFit(t, secrets, capacity)
    ensures MaskedAll(t, secrets, capacity) == Redacted(t, secrets)
    decreases |secrets|
  {
    if secrets == [] {
    } else {
      var next := if secrets[0] == "" then t else Replaced(t, secrets[0]);
      if secrets[0] != "" {
        InPlaceIsSimpleIff(t, secrets[0], capacity);
      }
      InPlaceIsSimple(next, secrets[1..], capacity);
    }
  }

  /** Secrets of three characters or more always fit. */
  lemma {:induction false} LongSecretsAlwaysFit(t: string, secrets: seq<string>, capacity: nat)
    requires |t| <= capacity && forall k :: 0 <= k < |secrets| ==> |secrets[k]| >= 3
    ensures AllFit(t, secrets, capacity)
    decreases |secrets|
  {
    if secrets == [] {
    } else {
      ReplacedLength(t, secrets[0]);
      LongSecretsAlwaysFit(Replaced(t, secrets[0]), secrets[1..], capacity);
    }
  }

  // ----- no secret is left -----

  predicate Starless(s: string) { s != "" && Lacks(s, '*') }

  lemma StarsStart(n: nat, r: string, s: string)
    requires n >= 1 && Starless(s)
    ensures !StartsWith(Stars(n) + r, s)
  {
    var t := Stars(n) + r;
    assert t[0] == '*' && s[0] != '*';
    if |s| <= |t| {
      assert t[..|s|][0] == t[0];
    }
  }

  /** A match at the first character is a match of the rest behind it. */
  lemma StartsBehind(c: char, r: string, s: string)
    requires s != ""
    ensures StartsWith([c] + r, s) <==> s[0] == c && StartsWith(r, s[1..])
  {
    assert [s[0]] + s[1..] == s;
    if |s| <= |r| + 1 {
      assert ([c] + r)[..|s|] == [c] + r[..|s| - 1];
      assert ([c] + r[..|s| - 1])[1..] == r[..|s| - 1];
    }
  }

  /** Text without a star that begins a masked line began the line before. */
  lemma {:induction false} MaskedStart(t: string, secret: string, room: nat, s: string)
    requires secret != "" && Starless(s) && StartsWith(Masked(t, secret, room), s)
    ensures StartsWith(t, s)
  {
    if |t| < |secret| {
    } else {
      if StartsWith(t, secret) {
        var n := MaskLen(|secret|, room);
        StarsStart(n, Masked(t[|secret|..], secret, room + |secret| - n), s);
      } else {
        var r := Masked(t[1..], secret, room);
        StartsBehind(t[0], r, s);
        if |s| > 1 {
          MaskedStart(t[1..], secret, room, s[1..]);
        }
        StartsBehind(t[0], t[1..], s);
        assert [t[0]] + t[1..] == t;
      }
    }
  }

  lemma ContainsTail(t: string, k: nat, s: string)
    requires k <= |t| && Contains(t[k..], s)
    ensures Contains(t, s)
  {
    var i :| 0 <= i <= |t[k..]| && StartsWith(t[k..][i..], s);
    assert t[k..][i..] == t[k + i..];
  }

  /** Where an occurrence in a masked line starts: in the stars, at the front, or further on. */
  lemma ContainsBehind(head: string, r: string, s: string)
    requires Contains(head + r, s)
    ensures Contains(r, s) || exists i :: 0 <= i < |head| && StartsWith((head + r)[i..], s)
  {
    var i :| 0 <= i <= |head + r| && StartsWith((head + r)[i..], s);
    if i >= |head| {
      assert (head + r)[i..] == r[i - |head|..];
    }
  }

  lemma NotInStars(n: nat, r: string, s: string)
    requires Starless(s) && Contains(Stars(n) + r, s)
    ensures Contains(r, s)
  {
    ContainsBehind(Stars(n), r, s);
    if i :| 0 <= i < n && StartsWith((Stars(n) + r)[i..], s) {
      assert (Stars(n) + r)[i..] == Stars(n - i) + r;
      StarsStart(n - i, r, s);
    }
  }

  /** Masking one secret never brings up another. */
  lemma {:induction false} MaskingAddsNothing(t: string, secret: string, room: nat, s: string)
    requires secret != "" && Starless(s) && Contains(Masked(t, secret, room), s)
    ensures Contains(t, s)
  {
    if |t| < |secret| {
    } else {
      if StartsWith(t, secret) {
        var n := MaskLen(|secret|, room);
        var rest := t[|secret|..];
        NotInStars(n, Masked(rest, secret, room + |secret| - n), s);
        MaskingAddsNothing(rest, secret, room + |secret| - n, s);
        ContainsTail(t, |secret|, s);
      } else {
        var r := Masked(t[1..], secret, room);
        ContainsBehind([t[0]], r, s);
        if Contains(r, s) {
          MaskingAddsNothing(t[1..], secret, room, s);
          ContainsTail(t, 1, s);
        } else {
          assert ([t[0]] + r)[0..] == Masked(t, secret, room);
          MaskedStart(t, secret, room, s);
          assert t[0..] == t;
        }
      }
    }
  }

  /** The pass for a secret leaves none of it. */
  lemma {:induction false} MaskedIsGone(t: string, secret: string, room: nat)
    requires Starless(secret)
    ensures !Contains(Masked(t, secret, room), secret)
  {
    var m := Masked(t, secret, room);
    if |t| < |secret| || !Contains(m, secret) {
    } else {
      if StartsWith(t, secret) {
        var n := MaskLen(|secret|, room);
        var rest := t[|secret|..];
        MaskedIsGone(rest, secret, room + |secret| - n);
        NotInStars(n, Masked(rest, secret, room + |secret| - n), secret);
      } else {
        var r := Masked(t[1..], secret, room);
        MaskedIsGone(t[1..], secret, room);
        ContainsBehind([t[0]], r, secret);
        assert ([t[0]] + r)[0..] == m;
        MaskedStart(t, secret, room, secret);
      }
    }
  }

  lemma {:induction false} MaskingAllAddsNothing(t: string, secrets: seq<string>, capacity: nat, s: string)
    requires |t| <= capacity && Starless(s) && Contains(MaskedAll(t, secrets, capacity), s)
    ensures Contains(t, s)
    decreases |secrets|
  {
    if secrets == [] {
    } else {
      var next := if secrets[0] == "" then t else Masked(t, secrets[0], capacity - |t|);
      MaskingAllAddsNothing(next, secrets[1..], capacity, s);
      if secrets[0] != "" {
        MaskingAddsNothing(t, secrets[0], capacity - |t|, s);
      }
    }
  }

  /** No registered secret without a star is left in the buffer, however short of room the masks were. */
  lemma {:induction false} NoSecretRemains(t: string, secrets: seq<string>, capacity: nat, k: nat)
    requires |t| <= capacity && k < |secrets| && Starless(secrets[k])
    ensures !Contains(MaskedAll(t, secrets, capacity), secrets[k])
    decreases |secrets|
  {
    var next := if secrets[0] == "" then t else Masked(t, secrets[0], capacity - |t|);
    if k > 0 {
      NoSecretRemains(next, secrets[1..], capacity, k - 1);
    } else {
      MaskedIsGone(t, secrets[0], capacity - |t|);
      if Contains(MaskedAll(next, secrets[1..], capacity), secrets[0]) {
        MaskingAllAddsNothing(next, secrets[1..], capacity, secrets[0]);
      }
    }
  }

  // ----- exactly which secrets -----

  /** No star at either end and no whole mask inside. */
  predicate Sturdy(s: string) { s != "" && s[0] != '*' && Unbroken(s) }

  /** What a masked line can begin with only where the line did. */
  predicate Unbroken(u: string) { u != "" ==> u[|u| - 1] != '*' && !Contains(u, MASK) }

  lemma UnbrokenTail(u: string)
    requires u != "" && Unbroken(u)
    ensures Unbroken(u[1..])
  {
    if u[1..] != "" {
      assert u[1..][|u| - 2] == u[|u| - 1];
      if Contains(u[1..], MASK) {
        ContainsTail(u, 1, MASK);
      }
    }
  }

  lemma MaskStart(u: string, r: string)
    requires u != "" && Unbroken(u)
    ensures !StartsWith(MASK + r, u)
  {
    var t := MASK + r;
    if |u| <= |t| {
      if |u| >= 3 {
        assert u[0..] == u && !StartsWith(u[0..], MASK);
        assert t[..|u|][..3] == MASK;
      } else {
        assert t[..|u|][|u| - 1] == '*';
      }
    }
  }

  /** Unbroken text that begins a masked line began the line before. */
  lemma {:induction false} ReplacedStart(t: string, secret: string, u: string)
    requires secret != "" && u != "" && Unbroken(u) && StartsWith(Replaced(t, secret), u)
    ensures StartsWith(t, u)
  {
    if |t| < |secret| {
    } else {
      if StartsWith(t, secret) {
        MaskStart(u, Replaced(t[|secret|..], secret));
      } else {
        var r := Replaced(t[1..], secret);
        StartsBehind(t[0], r, u);
        if |u| > 1 {
          UnbrokenTail(u);
          ReplacedStart(t[1..], secret, u[1..]);
        }
        StartsBehind(t[0], t[1..], u);
        assert [t[0]] + t[1..] == t;
      }
    }
  }

  /** A sturdy secret lies behind a mask or is broken by it. */
  lemma NotInMask(r: string, s: string)
    requires Sturdy(s) && Contains(MASK + r, s)
    ensures Contains(r, s)
  {
    ContainsBehind(MASK, r, s);
    forall i | 0 <= i < 3 ensures !StartsWith((MASK + r)[i..], s) {
      assert (MASK + r)[i..][0] == '*';
      assert |s| <= |(MASK + r)[i..]| ==> (MASK + r)[i..][..|s|][0] == '*';
    }
  }

  /** Masking one secret never brings up a sturdy one. */
  lemma {:induction false} ReplacingAddsNothing(t: string, secret: string, s: string)
    requires secret != "" && Sturdy(s) && Contains(Replaced(t, secret), s)
    ensures Contains(t, s)
  {
    if |t| < |secret| {
    } else {
      if StartsWith(t, secret) {
        var rest := t[|secret|..];
        NotInMask(Replaced(rest, secret), s);
        ReplacingAddsNothing(rest, secret, s);
        ContainsTail(t, |secret|, s);
      } else {
        var r := Replaced(t[1..], secret);
        ContainsBehind([t[0]], r, s);
        if Contains(r, s) {
          ReplacingAddsNothing(t[1..], secret, s);
          ContainsTail(t, 1, s);
        } else {
          assert ([t[0]] + r)[0..] == Replaced(t, secret);
          ReplacedStart(t, secret, s);
          assert t[0..] == t;
        }
      }
    }
  }

  lemma {:induction false} ReplacedIsGone(t: string, secret: string)
    requires Sturdy(secret)
    ensures !Contains(Replaced(t, secret), secret)
  {
    var m := Replaced(t, secret);
    if |t| < |secret| || !Contains(m, secret) {
    } else {
      if StartsWith(t, secret) {
        ReplacedIsGone(t[|secret|..], secret);
        NotInMask(Replaced(t[|secret|..], secret), secret);
      } else {
        var r := Replaced(t[1..], secret);
        ReplacedIsGone(t[1..], secret);
        ContainsBehind([t[0]], r, secret);
        assert ([t[0]] + r)[0..] == m;
        ReplacedStart(t, secret, secret);
      }
    }
  }

  lemma {:induction false} RedactingAddsNothing(t: string, secrets: seq<string>, s: string)
    requires Sturdy(s) && Contains(Redacted(t, secrets), s)
    ensures Contains(t, s)
    decreases |secrets|
  {
    if secrets == [] {
    } else {
      RedactingAddsNothing(if secrets[0] == "" then t else Replaced(t, secrets[0]), secrets[1..], s);
      if secrets[0] != "" {
        ReplacingAddsNothing(t, secrets[0], s);
      }
    }
  }

  /** The simple form leaves no registered secret that is sturdy, whatever the others. */
  lemma {:induction false} NoSecretRemainsSimple(t: string, secrets: seq<string>, k: nat)
    requires k < |secrets| && Sturdy(secrets[k])
    ensures !Contains(Redacted(t, secrets), secrets[k])
    decreases |secrets|
  {
    var next := if secrets[0] == "" then t else Replaced(t, secrets[0]);
    if k > 0 {
      NoSecretRemainsSimple(next, secrets[1..], k - 1);
    } else {
      ReplacedIsGone(t, secrets[0]);
      if Contains(Redacted(next, secrets[1..]), secrets[0]) {
        RedactingAddsNothing(next, secrets[1..], secrets[0]);
      }
    }
  }

  // ----- lines that defeat the others -----

  /** A cut of the secret in front of it is no earlier match, if the cut is at a star. */
  lemma NoEarlierMatch(s: string, j: nat, w: string, i: nat)
    requires i < j < |s| && s[0] != '*' && s[j] == '*'
    ensures !StartsWith((s[..j] + s + w)[i..], s)
  {
    var t := s[..j] + s + w;
    if |s| <= |t[i..]| {
      var m := t[i..][..|s|];
      assert m[0] == t[i] == s[i] && m[j] == t[i + j] == s[i];
    }
  }

  /** A cut of the secret at a star, the secret, and less than a secret. */
  lemma CutAndWhole(s: string, j: nat, w: string)
    requires 0 < j < |s| && s[0] != '*' && s[j] == '*' && |w| < |s|
    ensures Replaced(s[..j] + s + w, s) == s[..j] + (MASK + w)
  {
    var t := s[..j] + s + w;
    forall i | 0 <= i < j ensures !StartsWith(t[i..], s) {
      NoEarlierMatch(s, j, w, i);
    }
    ReplacedUpTo(t, s, j);
    Assoc(s[..j], s, w);
    Parted(s[..j], s + w);
    Parted(s, w);
    assert t[j..] == s + w;
    assert Replaced(w, s) == w;
  }

  function Repeated(s: string, n: nat): string { if n == 0 then "" else s + Repeated(s, n - 1) }

  /** Whole secrets in front of less than one become as many masks. */
  lemma {:induction false} RepeatedIsMasked(s: string, n: nat, w: string)
    requires |w| < |s|
    ensures Replaced(Repeated(s, n) + w, s) == Stars(3 * n) + w
  {
    if n == 0 {
      NoneAround(w);
    } else {
      var rest := Repeated(s, n - 1) + w;
      Assoc(s, Repeated(s, n - 1), w);
      Parted(s, rest);
      RepeatedIsMasked(s, n - 1, w);
      assert Replaced(s + rest, s) == MASK + Replaced(rest, s);
      assert MASK + Stars(3 * (n - 1)) == Stars(3 * n);
      Assoc(MASK, Stars(3 * (n - 1)), w);
    }
  }

  /** How many stars a text begins with. */
  function Leading(s: string): (n: nat)
    ensures n <= |s| && s[..n] == Stars(n)
  {
    if s == "" || s[0] != '*' then 0
    else
      assert s[..1 + Leading(s[1..])] == [s[0]] + s[1..][..Leading(s[1..])];
      1 + Leading(s[1..])
  }

  lemma ContainsWithin(a: string, s: string, b: string)
    ensures Contains(a + (s + b), s)
  {
    Parted(a, s + b);
    Parted(s, b);
    assert StartsWith((a + (s + b))[|a|..], s);
  }

  /** A secret that begins with stars is put together from masks and its own end. */
  lemma StarFirstRemains(s: string) returns (t: string)
    requires s != "" && s[0] == '*'
    ensures Contains(Replaced(t, s), s)
  {
    var n := Leading(s);
    var w := s[n..];
    t := Repeated(s, n) + w;
    RepeatedIsMasked(s, n, w);
    assert Stars(3 * n) == Stars(2 * n) + Stars(n);
    Assoc(Stars(2 * n), Stars(n), w);
    Halves(s, n);
    NoneAround(s);
    ContainsWithin(Stars(2 * n), s, "");
  }

  lemma StarLastRemains(s: string) returns (t: string)
    requires s != "" && s[0] != '*' && s[|s| - 1] == '*'
    ensures Contains(Replaced(t, s), s)
  {
    var j := |s| - 1;
    t := s[..j] + s + "";
    CutAndWhole(s, j, "");
    assert s == s[..j] + "*";
    assert s[..j] + (MASK + "") == "" + (s + "**");
    ContainsWithin("", s, "**");
  }

  lemma MaskInsideRemains(s: string) returns (t: string)
    requires s != "" && s[0] != '*' && Contains(s, MASK)
    ensures Contains(Replaced(t, s), s)
  {
    var j :| 0 <= j <= |s| && StartsWith(s[j..], MASK);
    assert s[j] == s[j..][..3][0];
    var w := s[j + 3..];
    t := s[..j] + s + w;
    CutAndWhole(s, j, w);
    DropTwice(s, j, 3);
    Halves(s[j..], 3);
    Halves(s, j);
    NoneAround(s);
    ContainsWithin("", s, "");
  }

  lemma OthersRemain(s: string) returns (t: string)
    requires s != "" && !Sturdy(s)
    ensures Contains(Replaced(t, s), s)
  {
    if s[0] == '*' {
      t := StarFirstRemains(s);
    } else if s[|s| - 1] == '*' {
      t := StarLastRemains(s);
    } else {
      t := MaskInsideRemains(s);
    }
  }

  /** Masking the secret in this line leaves it there. */
  predicate SurvivesIn(t: string, s: string)
    requires s != ""
  {
    Contains(Replaced(t, s), s)
  }

  lemma OthersSurvive(s: string)
    requires s != "" && !Sturdy(s)
    ensures exists t :: SurvivesIn(t, s)
  {
    var t := OthersRemain(s);
    assert SurvivesIn(t, s);
  }

  /**
   * A secret is gone from every line it is masked in exactly when it neither begins
   * nor ends with a star and holds no whole mask.
   */
  lemma SecretIsGoneIff(s: string)
    requires s != ""
    ensures (forall t :: !SurvivesIn(t, s)) <==> s[0] != '*' && s[|s| - 1] != '*' && !Contains(s, MASK)
  {
    assert Sturdy(s) <==> s[0] != '*' && s[|s| - 1] != '*' && !Contains(s, MASK);
    if Sturdy(s) {
      forall t ensures !SurvivesIn(t, s) {
        ReplacedIsGone(t, s);
      }
    } else {
      OthersSurvive(s);
    }
  }

  predicate RemainsIn(t: string, secrets: seq<string>, s: string) { s in secrets && Contains(Redacted(t, secrets), s) }

  /** The same holds of the simple form among any other secrets. */
  lemma GoneAmongOthersSimplyIff(s: string)
    requires s != ""
    ensures (forall t, secrets :: !RemainsIn(t, secrets, s)) <==> s[0] != '*' && s[|s| - 1] != '*' && !Contains(s, MASK)
  {
    if Sturdy(s) {
      forall t, secrets ensures !RemainsIn(t, secrets, s) {
        if k :| 0 <= k < |secrets| && secrets[k] == s {
          NoSecretRemainsSimple(t, secrets, k);
        }
      }
    } else {
      var t := OthersRemain(s);
      assert Redacted(t, [s]) == Redacted(Replaced(t, s), []) == Replaced(t, s);
      assert RemainsIn(t, [s], s);
    }
  }

  /** A short sturdy secret has no star at all. */
  lemma ShortIsStarless(s: string)
    requires Sturdy(s) && |s| < 3
    ensures Starless(s)
  {
    assert |s| == 2 ==> s[1] == s[|s| - 1];
  }

  /** The same holds of the form in place, over every line and every buffer that holds it. */
  lemma SecretIsGoneInPlaceIff(s: string)
    requires s != ""
    ensures (forall t: string, room: nat :: !Contains(Masked(t, s, room), s))
            <==> s[0] != '*' && s[|s| - 1] != '*' && !Contains(s, MASK)
  {
    if Sturdy(s) {
      forall t: string, room: nat ensures !Contains(Masked(t, s, room), s) {
        if |s| >= 3 {
          ReplacedLength(t, s);
          MaskedIsReplaced(t, s, room);
          ReplacedIsGone(t, s);
        } else {
          ShortIsStarless(s);
          MaskedIsGone(t, s, room);
        }
      }
    } else {
      var t := OthersRemain(s);
      var room: nat := |Replaced(t, s)|;
      MaskedIsReplaced(t, s, room);
      assert Contains(Masked(t, s, room), s);
    }
  }

  // ----- several secrets in a full buffer -----

  lemma {:induction false} NothingToMask(t: string, c: char)
    requires Lacks(t, c)
    ensures Masked(t, [c], 0) == t
  {
    if t == [] {
    } else {
      assert t[0] != c;
      NothingToMask(t[1..], c);
      assert Masked(t, [c], 0) == [t[0]] + Masked(t[1..], [c], 0);
    }
  }

  /** Without room to grow, a secret of one character becomes one star. */
  lemma {:induction false} OneStar(t: string, c: char, p: nat)
    requires p < |t| && t[p] == c && Lacks(t[..p], c) && Lacks(t[p + 1..], c)
    ensures Masked(t, [c], 0) == t[p := '*']
  {
    if p == 0 {
      NothingToMask(t[1..], c);
      assert Masked(t, [c], 0) == Stars(1) + Masked(t[1..], [c], 0);
    } else {
      var rest := t[1..];
      assert t[..p][0] != c;
      assert rest[..p - 1] == t[..p][1..] && rest[p..] == t[p + 1..];
      OneStar(rest, c, p - 1);
      assert Masked(t, [c], 0) == [t[0]] + Masked(rest, [c], 0);
    }
  }

  /** The clamped mask of a character that a secret lacks puts the secret together around it. */
  lemma StarComesBack(s: string, p: nat, c: char)
    requires p < |s| && s[p] == '*' && Lacks(s, c)
    ensures MaskedAll(s[p := c], [s, [c]], |s|) == s
  {
    var t := s[p := c];
    assert t[p] != s[p];
    assert !StartsWith(t, s);
    assert Masked(t[1..], s, 0) == t[1..] && Masked(t, s, 0) == [t[0]] + t[1..] == t;
    assert t[..p] == s[..p] && t[p + 1..] == s[p + 1..];
    OneStar(t, c, p);
    assert t[p := '*'] == s;
    MaskedAllStep(t, [s, [c]], |s|);
    assert [s, [c]][1..] == [[c]];
    MaskedAllStep(t, [[c]], |s|);
    assert [[c]][1..] == [];
  }

  /** A registered secret is in the buffer when all have been masked. */
  predicate StillThere(t: string, secrets: seq<string>, capacity: nat, s: string)
    requires |t| <= capacity
  {
    s in secrets && Contains(MaskedAll(t, secrets, capacity), s)
  }

  /**
   * In place, among any other secrets, in any line and any buffer, a secret is gone
   * exactly when it has no star at all: the clamped mask of another one can put a
   * starred secret together. (`c` is any character the secret does not use.)
   */
  lemma GoneAmongOthersIff(s: string, c: char)
    requires s != "" && Lacks(s, c)
    ensures (forall t, secrets, capacity: nat :: |t| <= capacity ==> !StillThere(t, secrets, capacity, s))
       <==> Starless(s)
  {
    if Starless(s) {
      forall t, secrets, capacity: nat | |t| <= capacity
        ensures !StillThere(t, secrets, capacity, s)
      {
        if k :| 0 <= k < |secrets| && secrets[k] == s {
          NoSecretRemains(t, secrets, capacity, k);
        }
      }
    } else {
      var p :| 0 <= p < |s| && s[p] == '*';
      StarComesBack(s, p, c);
      assert StartsWith(s[0..], s);
      assert StillThere(s[p := c], [s, [c]], |s|, s);
    }
  }
}
