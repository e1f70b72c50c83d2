/**
 * The stored network name and password: what is valid, and the JSON file they
 * are kept in (provision/WifiCredentials.cpp).
 */
module WifiCredentials {
  import opened Wrappers
  import opened Text
  import opened Json
  import Scan = JsonScanner

  datatype Credentials = Credentials(ssid: string, password: string)

  const MAX_SSID: nat := 32
  const MIN_PASSWORD: nat := 8
  const MAX_PASSWORD: nat := 64

  /** The sentence shown to the person, by its subject. */
  datatype Problem = EmptyName | LongName | UntypableName | UntypablePassword | ShortPassword | LongPassword

  predicate HasControlChars(s: string) { exists i :: 0 <= i < |s| && (s[i] < 32 as char || s[i] == 127 as char) }

  predicate AllHex(s: string) { forall i :: 0 <= i < |s| ==> IsHex(s[i]) }

  function SsidError(ssid: string): Option<Problem> {
    if ssid == "" then Some(EmptyName)
    else if |ssid| > MAX_SSID then Some(LongName)
    else if HasControlChars(ssid) then Some(UntypableName)
    else None
  }

  function PasswordError(password: string): Option<Problem> {
    if password == "" then None
    else if HasControlChars(password) then Some(UntypablePassword)
    else if |password| < MIN_PASSWORD then Some(ShortPassword)
    else if |password| > MAX_PASSWORD then Some(LongPassword)
    else if |password| == MAX_PASSWORD && !AllHex(password) then Some(LongPassword)
    else None
  }

  predicate Valid(c: Credentials) { SsidError(c.ssid).None? && PasswordError(c.password).None? }

  // ----- writing -----

  function Escaped(s: string): string {
    if s == "" then "" else (if s[0] == '"' || s[0] == '\\' then ['\\', s[0]] else [s[0]]) + Escaped(s[1..])
  }

  function Quoted(s: string): string { "\"" + (Escaped(s) + "\"") }

  function EncodeWifiJson(c: Credentials): string {
    "{\"ssid\":" + Quoted(c.ssid) + ",\"password\":" + Quoted(c.password) + "}"
  }

  // ----- reading -----

  datatype Fields = Fields(ssid: string, password: string, hasSsid: bool)

  const NOTHING := Fields("", "", false)

  predicate Known(key: string) { key == "ssid" || key == "password" }

  function Put(f: Fields, key: string, value: string): Fields {
    if key == "ssid" then f.(ssid := value, hasSsid := true) else f.(password := value)
  }

  datatype Progress = Progress(fields: Fields, rest: string)

  function ReadMember(t: string, f: Fields): (r: Option<Progress>)
    ensures r.Some? ==> |r.value.rest| < |t|
  {
    var key := Scan.ReadString(t);
    if key.None? then None
    else
      var after := Scan.Consume(key.value.rest, ':');
      if after.None? then None
      else if Known(key.value.value) then
        var value := Scan.ReadString(after.value);
        if value.None? then None else Some(Progress(Put(f, key.value.value, value.value.value), value.value.rest))
      else
        var rest := Scan.SkipValue(after.value);
        if rest.None? then None else Some(Progress(f, rest.value))
  }

  function ReadMembers(t: string, f: Fields): Option<Progress>
    decreases |t|
  {
    var m := ReadMember(t, f);
    if m.None? then None
    else if Scan.Peek(m.value.rest) == ',' then ReadMembers(SkipSpace(m.value.rest)[1..], m.value.fields)
    else Some(Progress(m.value.fields, SkipSpace(m.value.rest)))
  }

  /** From behind the opening brace up to the closing one. */
  function ReadInside(inside: string): Option<Progress> {
    if Scan.Peek(inside) == '}' then Some(Progress(NOTHING, SkipSpace(inside)))
    else ReadMembers(SkipSpace(inside), NOTHING)
  }

  function Closed(ms: Option<Progress>): Option<Progress> {
    if ms.None? then None
    else
      var rest := Scan.Consume(ms.value.rest, '}');
      if rest.None? then None else Some(Progress(ms.value.fields, rest.value))
  }

  function ReadObject(t: string): Option<Progress> {
    var inside := Scan.Consume(t, '{');
    if inside.None? then None else Closed(ReadInside(inside.value))
  }

  function Accept(f: Fields): Option<Credentials> {
    if f.hasSsid && Valid(Credentials(f.ssid, f.password)) then Some(Credentials(f.ssid, f.password)) else None
  }

  function ParseWifi(t: string): (r: Option<Credentials>)
    ensures r.Some? ==> Valid(r.value)
  {
    var o := ReadObject(t);
    if o.None? then None else Accept(o.value.fields)
  }

  /** One turn of the loop in `parseWifiJson`, up to its comma. */
  method ParseMember(scanner: Scan.JsonScanner, f: Fields) returns (r: Option<Fields>)
    requires scanner.Valid() && scanner.ok
    modifies scanner
    ensures scanner.Valid() && (r.Some? ==> scanner.ok)
    ensures match ReadMember(old(scanner.Ahead()), f)
      case Some(p) => r == Some(p.fields) && scanner.Ahead() == p.rest
      case None => r == None
  {
    var key := scanner.ParseString();
    if key.None? { return None; }
    var colon := scanner.ConsumeChar(':');
    if !colon { return None; }
    if key.value == "ssid" || key.value == "password" {
      var value := scanner.ParseString();
      if value.None? { return None; }
      r := Some(if key.value == "ssid" then f.(ssid := value.value, hasSsid := true) else f.(password := value.value));
    } else {
      scanner.SkipAnyValue();
      r := if scanner.ok then Some(f) else None;
    }
  }

  method ParseMembers(scanner: Scan.JsonScanner) returns (r: Option<Fields>)
    requires scanner.Valid() && scanner.ok
    modifies scanner
    ensures scanner.Valid() && (r.Some? ==> scanner.ok)
    ensures match ReadMembers(old(scanner.Ahead()), NOTHING)
      case Some(p) => r == Some(p.fields) && scanner.Ahead() == p.rest
      case None => r == None
  {
    var f := NOTHING;
    ghost var all := ReadMembers(scanner.Ahead(), NOTHING);
    while true
      invariant scanner.Valid() && scanner.ok
      invariant all == ReadMembers(scanner.Ahead(), f)
      decreases |scanner.Ahead()|
    {
      var m := ParseMember(scanner, f);
      if m.None? { return None; }
      f := m.value;
      ghost var t := scanner.Ahead();
      var comma := scanner.PeekChar();
      if comma != ',' { return Some(f); }
      Scan.SkipSpaceTwice(t);
      var consumed := scanner.ConsumeChar(',');
    }
  }

  /** From behind the opening brace. */
  method ParseInside(scanner: Scan.JsonScanner) returns (r: Option<Fields>)
    requires scanner.Valid() && scanner.ok
    modifies scanner
    ensures scanner.Valid() && (r.Some? ==> scanner.ok)
    ensures match ReadInside(old(scanner.Ahead()))
      case Some(p) => r == Some(p.fields) && scanner.Ahead() == p.rest
      case None => r == None
  {
    var next := scanner.PeekChar();
    if next == '}' { return Some(NOTHING); }
    r := ParseMembers(scanner);
  }

  method ParseObject(json: string) returns (r: Option<Fields>)
    ensures match ReadObject(json) case Some(p) => r == Some(p.fields) case None => r == None
  {
    var scanner := new Scan.JsonScanner(json);
    var found := scanner.ConsumeChar('{');
    if !found { return None; }
    ghost var t := scanner.Ahead();
    assert ReadObject(json) == Closed(ReadInside(t));
    var inside := ParseInside(scanner);
    if inside.None? { return None; }
    ghost var read := Progress(inside.value, scanner.Ahead());
    assert ReadInside(t) == Some(read);
    var closed := scanner.ConsumeChar('}');
    r := if closed then inside else None;
    assert Closed(Some(read)).Some? == closed;
  }

  method ParseWifiJson(json: string) returns (r: Option<Credentials>)
    ensures r == ParseWifi(json)
  {
    var f := ParseObject(json);
    if f.None? || !f.value.hasSsid { return None; }
    if SsidError(f.value.ssid).Some? || PasswordError(f.value.password).Some? { return None; }
    r := Some(Credentials(f.value.ssid, f.value.password));
  }
}
