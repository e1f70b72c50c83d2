/**
 * Scrubbing registered secrets out of a line: the simple form and the one that
 * works in the line's own buffer (log/Redactor.h).
 */
module Redactor {
  import opened Wrappers
  import opened Text

  const MASK := "***"

  // ----- the simple form -----

  predicate StartsWith(t: string, s: string) { |s| <= |t| && t[..|s|] == s }

  predicate Contains(t: string, s: string) { exists i :: 0 <= i <= |t| && StartsWith(t[i..], s) }

  /** Every match, from the left, replaced by the mask. */
  function Replaced(t: string, secret: string): string
    requires secret != ""
  {
    if |t| < |secret| then t
    else if StartsWith(t, secret) then MASK + Replaced(t[|secret|..], secret)
    else [t[0]] + Replaced(t[1..], secret)
  }

  function Redacted(t: string, secrets: seq<string>): string
    decreases |secrets|
  {
    if secrets == [] then t
    else Redacted(if secrets[0] == "" then t else Replaced(t, secrets[0]), secrets[1..])
  }

  // ----- the form that works in place -----

  /** The mask's length when only `room` more characters fit. */
  function MaskLen(secretLen: nat, room: nat): nat {
    if secretLen < 3 && 3 - secretLen > room then secretLen + room else 3
  }

  function Stars(n: nat): string { seq(n, i => '*') }

  /** Every match, from the left, overwritten by as much of the mask as fits. */
  function Masked(t: string, secret: string, room: nat): (r: string)
    requires secret != ""
    ensures |r| <= |t| + room
  {
    if |t| < |secret| then t
    else if StartsWith(t, secret) then
      var n := MaskLen(|secret|, room);
      Stars(n) + Masked(t[|secret|..], secret, room + |secret| - n)
    else [t[0]] + Masked(t[1..], secret, room)
  }

  /** The text of a buffer with room for `capacity` characters, after every secret in turn. */
  function MaskedAll(t: string, secrets: seq<string>, capacity: nat): (r: string)
    requires |t| <= capacity
    ensures |r| <= capacity
    decreases |secrets|
  {
    if secrets == [] then t
    else MaskedAll(if secrets[0] == "" then t else Masked(t, secrets[0], capacity - |t|), secrets[1..], capacity)
  }

  lemma MaskedAllStep(t: string, secrets: seq<string>, capacity: nat)
    requires |t| <= capacity && secrets != []
    ensures MaskedAll(t, secrets, capacity)
      == MaskedAll(if secrets[0] == "" then t else Masked(t, secrets[0], capacity - |t|), secrets[1..], capacity)
  {
  }

  /** The C string at the front of a buffer. */
  function CString(buf: seq<char>): string { buf[..Find(buf, '\0')] }

  /** The buffer's first `size` bytes hold this text and its terminator. */
  ghost predicate Holds(b: seq<char>, size: nat, text: string) {
    |text| < size <= |b| && b[..|text|] == text && b[|text|] == '\0' && Lacks(text, '\0')
  }

  lemma HoldsIsCString(b: seq<char>, size: nat, text: string)
    requires Holds(b, size, text)
    ensures CString(b) == text
  {
    FindIs(b, '\0', |text|);
  }

  lemma HoldsItsCString(b: seq<char>, size: nat)
    requires size <= |b| && exists i :: 0 <= i < size && b[i] == '\0'
    ensures Holds(b, size, CString(b))
  {
    var i :| 0 <= i < size && b[i] == '\0';
    FindAtMost(b, '\0', i);
  }

  class Redactor {
    var secrets: seq<string>

    constructor ()
      ensures secrets == []
    {
      secrets := [];
    }

    method RegisterSecret(secret: string)
      modifies this
      ensures secrets == if secret == "" || secret in old(secrets) then old(secrets) else old(secrets) + [secret]
    {
      if secret == "" { return; }
      for i := 0 to |secrets|
        invariant secrets == old(secrets) && secret !in secrets[..i]
      {
        if secrets[i] == secret { return; }
      }
      secrets := secrets + [secret];
    }

    method Redact(line: string) returns (result: string)
      ensures result == Redacted(line, secrets)
    {
      result := line;
      for k := 0 to |secrets|
        invariant Redacted(line, secrets) == Redacted(result, secrets[k..])
      {
        var secret := secrets[k];
        if secret != "" { result := ReplaceAll(result, secret); }
        assert secrets[k..][1..] == secrets[k + 1..];
      }
    }

    /** `size` bytes of the buffer belong to the line; it is NUL-terminated within them. */
    method RedactInPlace(buf: array<char>, size: nat)
      requires size <= buf.Length && (size > 0 ==> exists i :: 0 <= i < size && buf[i] == '\0')
      modifies buf
      ensures size > 0 ==> CString(buf[..]) == MaskedAll(CString(old(buf[..])), secrets, size - 1)
      ensures size == 0 ==> buf[..] == old(buf[..])
      ensures forall i :: size <= i < buf.Length ==> buf[i] == old(buf[i])
    {
      if |secrets| == 0 || size == 0 { return; }
      HoldsItsCString(buf[..], size);
      ghost var text := CString(buf[..]);
      text := MaskEach(secrets, buf, size, text);
      HoldsIsCString(buf[..], size, text);
    }
  }

  // ----- the loops -----

  /** `find(secret, pos)`: the first match at or after pos. */
  method FindFrom(t: string, secret: string, pos: nat) returns (at: nat, found: bool)
    requires pos <= |t| && secret != ""
    ensures found ==> pos <= at && at + |secret| <= |t| && StartsWith(t[at..], secret)
    ensures forall i :: pos <= i < (if found then at else |t| + 1) ==> !StartsWith(t[i..], secret)
  {
    at := pos;
    while at + |secret| <= |t|
      invariant pos <= at <= |t| + 1
      invariant forall i :: pos <= i < at ==> !StartsWith(t[i..], secret)
    {
      if t[at..at + |secret|] == secret {
        assert t[at..][..|secret|] == t[at..at + |secret|];
        return at, true;
      }
      assert t[at..][..|secret|] == t[at..at + |secret|];
      at := at + 1;
    }
    found := false;
  }

  lemma {:induction false} ReplacedUpTo(t: string, secret: string, n: nat)
    requires secret != "" && n <= |t| && forall i :: 0 <= i < n ==> !StartsWith(t[i..], secret)
    ensures Replaced(t, secret) == t[..n] + Replaced(t[n..], secret)
  {
    if n == 0 {
      assert t[..0] + Replaced(t[0..], secret) == Replaced(t, secret) by {
        assert t[0..] == t;
      }
    } else if |t| < |secret| {
      assert Replaced(t[n..], secret) == t[n..];
    } else {
      assert t[0..] == t;
      var u := t[1..];
      forall i | 0 <= i < n - 1 ensures !StartsWith(u[i..], secret) {
        DropTwice(t, 1, i);
      }
      ReplacedUpTo(u, secret, n - 1);
      DropTwice(t, 1, n - 1);
      TakeCons(t, n - 1);
      Assoc([t[0]], u[..n - 1], Replaced(t[n..], secret));
    }
  }

  /** The next match, seen from where the search stands. */
  lemma ReplacedStep(t: string, secret: string, pos: nat, at: nat)
    requires secret != "" && pos <= at <= |t|
    requires forall i :: pos <= i < at ==> !StartsWith(t[i..], secret)
    ensures Replaced(t[pos..], secret) == t[pos..at] + Replaced(t[at..], secret)
  {
    var tail := t[pos..];
    forall i | 0 <= i < at - pos ensures !StartsWith(tail[i..], secret) {
      assert tail[i..] == t[pos + i..];
    }
    ReplacedUpTo(tail, secret, at - pos);
    assert tail[at - pos..] == t[at..] && tail[..at - pos] == t[pos..at];
  }

  /** The line a search will end with, from where it stands. */
  ghost function Awaited(t: string, secret: string, pos: nat): string
    requires secret != "" && pos <= |t|
  {
    t[..pos] + Replaced(t[pos..], secret)
  }

  lemma NoMoreMatches(t: string, secret: string, pos: nat)
    requires secret != "" && pos <= |t|
    requires forall i :: pos <= i <= |t| ==> !StartsWith(t[i..], secret)
    ensures Awaited(t, secret, pos) == t
  {
    ReplacedStep(t, secret, pos, |t|);
    assert t[..pos] + t[pos..|t|] == t && Replaced(t[|t|..], secret) == "";
  }

  lemma NextMatch(t: string, secret: string, pos: nat, at: nat, next: string)
    requires secret != "" && pos <= at <= |t| && StartsWith(t[at..], secret)
    requires forall i :: pos <= i < at ==> !StartsWith(t[i..], secret)
    requires next == t[..at] + MASK + t[at + |secret|..]
    ensures Awaited(next, secret, at + 3) == Awaited(t, secret, pos)
  {
    var rest := t[at + |secret|..];
    var tail := Replaced(rest, secret);
    ReplacedStep(t, secret, pos, at);
    MatchHere(t, secret, at);
    Parted(t[..at] + MASK, rest);
    Assoc(t[..pos], t[pos..at], MASK + tail);
    Assoc(t[..at], MASK, tail);
    TakeMore(t, pos, at - pos);
  }

  lemma MatchHere(t: string, secret: string, at: nat)
    requires secret != "" && at <= |t| && StartsWith(t[at..], secret)
    ensures Replaced(t[at..], secret) == MASK + Replaced(t[at + |secret|..], secret)
  {
    assert t[at..][|secret|..] == t[at + |secret|..];
  }

  method ReplaceAll(line: string, secret: string) returns (result: string)
    requires secret != ""
    ensures result == Replaced(line, secret)
  {
    result := line;
    var pos: nat := 0;
    assert result[..0] + Replaced(result[0..], secret) == Replaced(line, secret) by {
      assert result[0..] == line;
    }
    while true
      invariant pos <= |result|
      invariant Replaced(line, secret) == Awaited(result, secret, pos)
      decreases |result| - pos
    {
      var at, found := FindFrom(result, secret, pos);
      if !found {
        NoMoreMatches(result, secret, pos);
        return;
      }
      var next := result[..at] + MASK + result[at + |secret|..];
      NextMatch(result, secret, pos, at, next);
      result := next;
      pos := at + 3;
    }
  }

  function Moved(b: seq<char>, dst: nat, src: nat, n: nat): seq<char>
    requires dst + n <= |b| && src + n <= |b|
  {
    seq(|b|, i requires 0 <= i < |b| => if dst <= i < dst + n then b[i - dst + src] else b[i])
  }

  /** `memmove` */
  method MoveBytes(buf: array<char>, dst: nat, src: nat, n: nat)
    requires dst + n <= buf.Length && src + n <= buf.Length
    modifies buf
    ensures buf[..] == Moved(old(buf[..]), dst, src, n)
  {
    forall i | 0 <= i < n { buf[dst + i] := buf[src + i]; }
  }

  function Overlaid(b: seq<char>, dst: nat, n: nat): seq<char>
    requires dst + n <= |b|
  {
    seq(|b|, i requires 0 <= i < |b| => if dst <= i < dst + n then '*' else b[i])
  }

  /** `memcpy` of the mask */
  method StarBytes(buf: array<char>, dst: nat, n: nat)
    requires dst + n <= buf.Length
    modifies buf
    ensures buf[..] == Overlaid(old(buf[..]), dst, n)
  {
    forall i | 0 <= i < n { buf[dst + i] := '*'; }
  }

  lemma SameSlice(b: seq<char>, c: seq<char>, i: nat, j: nat, n: nat)
    requires i + n <= |b| && j + n <= |c| && forall k :: j <= k < j + n ==> c[k] == b[k - j + i]
    ensures c[j..j + n] == b[i..i + n]
  {
  }

  /** `c` is `b` with `m` characters at `pos` replaced by `n` stars, as far as `len` went. */
  ghost predicate Starred(b: seq<char>, c: seq<char>, pos: nat, m: nat, n: nat, len: nat) {
    && pos + m <= len <= |b| == |c| && len - m + n <= |c|
    && c[..pos] == b[..pos] && c[pos..pos + n] == Stars(n) && c[pos + n..len - m + n] == b[pos + m..len]
  }

  lemma StarredFrom(b: seq<char>, c: seq<char>, pos: nat, m: nat, n: nat, len: nat, starred: seq<char>)
    requires pos + m <= len < |b| && len - m + n < |b|
    requires starred == Overlaid(Moved(b, pos + n, pos + m, len - pos - m), pos, n)
    requires |c| == |b| && c[len - m + n] == '\0'
    requires forall i :: 0 <= i < |b| && i != len - m + n ==> c[i] == starred[i]
    ensures Starred(b, c, pos, m, n, len) && forall i :: len < i < |b| && len - m + n < i ==> c[i] == b[i]
  {
    SameSlice(b, c, pos + m, pos + n, len - pos - m);
  }

  /** The mask over one match: the tail moves, the stars go in, the terminator follows. */
  method Overwrite(buf: array<char>, pos: nat, secretLen: nat, maskLen: nat, len: nat) returns (newLen: nat)
    requires pos + secretLen <= len < buf.Length && len - secretLen + maskLen < buf.Length
    modifies buf
    ensures newLen == len - secretLen + maskLen && buf[newLen] == '\0'
    ensures Starred(old(buf[..]), buf[..], pos, secretLen, maskLen, len)
    ensures forall i :: len < i < buf.Length && newLen < i ==> buf[i] == old(buf[i])
  {
    ghost var b := buf[..];
    var tailLen := len - (pos + secretLen);
    MoveBytes(buf, pos + maskLen, pos + secretLen, tailLen);
    StarBytes(buf, pos, maskLen);
    ghost var starred := buf[..];
    newLen := pos + maskLen + tailLen;
    buf[newLen] := '\0';
    ghost var c := buf[..];
    StarredFrom(b, c, pos, secretLen, maskLen, len, starred);
  }

  /** The line a pass will end with, from where it stands in the buffer. */
  ghost function Pending(b: seq<char>, pos: nat, len: nat, secret: string, size: nat): string
    requires pos <= len < size <= |b| && secret != ""
  {
    b[..pos] + Masked(b[pos..len], secret, size - 1 - len)
  }

  lemma PassMiss(b: seq<char>, pos: nat, len: nat, secret: string, size: nat)
    requires pos + |secret| <= len < size <= |b| && secret != "" && b[pos..pos + |secret|] != secret
    ensures Pending(b, pos, len, secret, size) == Pending(b, pos + 1, len, secret, size)
  {
    var t := b[pos..len];
    assert t[..|secret|] == b[pos..pos + |secret|];
    assert t[1..] == b[pos + 1..len] && t[0] == b[pos];
    assert b[..pos + 1] == b[..pos] + [b[pos]];
    Assoc(b[..pos], [b[pos]], Masked(t[1..], secret, size - 1 - len));
  }

  lemma PassMatch(b: seq<char>, c: seq<char>, pos: nat, len: nat, n: nat, secret: string, size: nat)
    requires pos + |secret| <= len < size <= |b| == |c| && secret != "" && b[pos..pos + |secret|] == secret
    requires n == MaskLen(|secret|, size - 1 - len)
    requires |b| == |c| && c[..pos] == b[..pos] && c[pos..pos + n] == Stars(n)
    requires len - |secret| + n < size && c[pos + n..len - |secret| + n] == b[pos + |secret|..len]
    ensures Pending(b, pos, len, secret, size) == Pending(c, pos + n, len - |secret| + n, secret, size)
  {
    var rest := b[pos + |secret|..len];
    var tail := Masked(rest, secret, size - 1 - (len - |secret| + n));
    var t := b[pos..len];
    SliceSlice(b, pos, len, |secret|);
    MaskedHere(t, secret, size - 1 - len, rest);
    Halves(c[..pos + n], pos);
    TakeMore(c, pos, n);
    Assoc(b[..pos], Stars(n), tail);
  }

  lemma SliceSlice(b: seq<char>, i: nat, j: nat, k: nat)
    requires i + k <= j <= |b|
    ensures b[i..j][..k] == b[i..i + k] && b[i..j][k..] == b[i + k..j]
  {
  }

  lemma MaskedHere(t: string, secret: string, room: nat, rest: string)
    requires secret != "" && StartsWith(t, secret) && rest == t[|secret|..]
    ensures Masked(t, secret, room)
         == Stars(MaskLen(|secret|, room)) + Masked(rest, secret, room + |secret| - MaskLen(|secret|, room))
  {
  }

  lemma StillText(b: seq<char>, c: seq<char>, pos: nat, len: nat, m: nat, n: nat)
    requires Starred(b, c, pos, m, n, len) && Lacks(b[..len], '\0')
    ensures Lacks(c[..len - m + n], '\0')
  {
    var tail := c[pos + n..len - m + n];
    forall i | 0 <= i < len - m + n ensures c[i] != '\0' {
      if i < pos {
        assert c[i] == c[..pos][i] == b[..len][i];
      } else if i < pos + n {
        assert c[i] == c[pos..pos + n][i - pos];
      } else {
        assert c[i] == tail[i - pos - n] == b[..len][i - n + m];
      }
    }
  }

  ghost predicate AtWork(b: seq<char>, pos: nat, len: nat, size: nat) {
    pos <= len < size <= |b| && b[len] == '\0' && Lacks(b[..len], '\0')
  }

  lemma MatchDone(b: seq<char>, c: seq<char>, pos: nat, len: nat, n: nat, secret: string, size: nat)
    requires secret != "" && AtWork(b, pos, len, size) && pos + |secret| <= len && b[pos..pos + |secret|] == secret
    requires n == MaskLen(|secret|, size - 1 - len)
    requires Starred(b, c, pos, |secret|, n, len) && c[len - |secret| + n] == '\0'
    ensures AtWork(c, pos + n, len - |secret| + n, size)
    ensures Pending(c, pos + n, len - |secret| + n, secret, size) == Pending(b, pos, len, secret, size)
  {
    StillText(b, c, pos, len, |secret|, n);
    PassMatch(b, c, pos, len, n, secret, size);
  }

  method MaskMatch(buf: array<char>, pos: nat, len: nat, secret: string, size: nat) returns (next: nat, newLen: nat)
    requires secret != "" && AtWork(buf[..], pos, len, size)
    requires pos + |secret| <= len && buf[..][pos..pos + |secret|] == secret
    modifies buf
    ensures AtWork(buf[..], next, newLen, size) && newLen - next < len - pos
    ensures Pending(buf[..], next, newLen, secret, size) == Pending(old(buf[..]), pos, len, secret, size)
    ensures forall i :: size <= i < buf.Length ==> buf[i] == old(buf[i])
  {
    var maskLen := 3;
    if 3 > |secret| {
      var growth, available := 3 - |secret|, size - 1 - len;
      if growth > available { maskLen := |secret| + available; }
    }
    newLen := Overwrite(buf, pos, |secret|, maskLen, len);
    MatchDone(old(buf[..]), buf[..], pos, len, maskLen, secret, size);
    next := pos + maskLen;
  }

  /** One secret's pass over the buffer. */
  method MaskInPlace(buf: array<char>, size: nat, secret: string, ghost text: string) returns (ghost masked: string)
    requires Holds(buf[..], size, text) && secret != ""
    modifies buf
    ensures masked == Masked(text, secret, size - 1 - |text|) && Holds(buf[..], size, masked)
    ensures forall i :: size <= i < buf.Length ==> buf[i] == old(buf[i])
  {
    HoldsIsCString(buf[..], size, text);
    var len: nat := Find(buf[..], '\0');
    var pos: nat := 0;
    masked := Masked(text, secret, size - 1 - |text|);
    PassStarts(buf[..], len, secret, size, text);
    while pos + |secret| <= len
      invariant AtWork(buf[..], pos, len, size)
      invariant masked == Pending(buf[..], pos, len, secret, size)
      invariant forall i :: size <= i < buf.Length ==> buf[i] == old(buf[i])
      decreases len - pos
    {
      if buf[..][pos..pos + |secret|] == secret {
        pos, len := MaskMatch(buf, pos, len, secret, size);
      } else {
        PassMiss(buf[..], pos, len, secret, size);
        pos := pos + 1;
      }
    }
    PassEnds(buf[..], pos, len, secret, size);
  }

  lemma PassStarts(b: seq<char>, len: nat, secret: string, size: nat, text: string)
    requires Holds(b, size, text) && len == |text| && secret != ""
    ensures AtWork(b, 0, len, size) && Pending(b, 0, len, secret, size) == Masked(text, secret, size - 1 - len)
  {
    assert b[0..len] == b[..len];
  }

  lemma PassEnds(b: seq<char>, pos: nat, len: nat, secret: string, size: nat)
    requires AtWork(b, pos, len, size) && secret != "" && len < pos + |secret|
    ensures Holds(b, size, Pending(b, pos, len, secret, size))
  {
    TakeMore(b, pos, len - pos);
  }

  /** The loop over the secrets. */
  method MaskEach(secrets: seq<string>, buf: array<char>, size: nat, ghost text: string) returns (ghost masked: string)
    requires Holds(buf[..], size, text)
    modifies buf
    ensures masked == MaskedAll(text, secrets, size - 1) && Holds(buf[..], size, masked)
    ensures forall i :: size <= i < buf.Length ==> buf[i] == old(buf[i])
  {
    masked := text;
    ghost var all := MaskedAll(text, secrets, size - 1);
    var left := secrets;
    while |left| > 0
      invariant Holds(buf[..], size, masked)
      invariant all == MaskedAll(masked, left, size - 1)
      invariant forall i :: size <= i < buf.Length ==> buf[i] == old(buf[i])
      decreases |left|
    {
      var secret := left[0];
      MaskedAllStep(masked, left, size - 1);
      if secret != "" { masked := MaskInPlace(buf, size, secret, masked); }
      left := left[1..];
    }
  }
}
