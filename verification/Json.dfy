/** JSON values (sections 2 to 7 of RFC 8259) as trees with their white space, and the text they stand for. */
module Json {
  import opened Wrappers
  import opened Text

  /** One character of a string, as it is written. */
  datatype Item =
    | Plain(c: char)
    | Escape(c: char)
    | Unicode(hex: string)

  datatype Exponent = Exponent(mark: char, sign: string, digits: string)

  datatype Value =
    | Word(name: string)
    | Number(minus: bool, whole: string, fraction: Option<string>, exponent: Option<Exponent>)
    | Str(items: seq<Item>)
    | Array(space: string, elements: Elements)
    | Object(space: string, members: Members)

  datatype Elements =
    | NoElements
    | Element(before: string, value: Value, after: string, rest: Elements)

  datatype Members =
    | NoMembers
    | Member(before: string, key: seq<Item>, middle: string, between: string,
             value: Value, after: string, rest: Members)

  // ----- what is well formed -----

  predicate IsWhite(c: char) { c == ' ' || c == '\t' || c == '\n' || c == '\r' }

  predicate White(s: string) { forall i :: 0 <= i < |s| ==> IsWhite(s[i]) }

  predicate Digits(s: string) { s != "" && forall i :: 0 <= i < |s| ==> IsDigit(s[i]) }

  predicate IsHex(c: char) { IsDigit(c) || 'a' <= c <= 'f' || 'A' <= c <= 'F' }

  predicate GoodItem(i: Item) {
    match i
    case Plain(c) => c >= ' ' && c != '"' && c != '\\'
    case Escape(c) => c in "\"\\/bfnrt"
    case Unicode(hex) => |hex| == 4 && forall i :: 0 <= i < 4 ==> IsHex(hex[i])
  }

  predicate GoodItems(items: seq<Item>) { forall i :: 0 <= i < |items| ==> GoodItem(items[i]) }

  predicate GoodValue(v: Value) {
    match v
    case Word(name) => name in {"true", "false", "null"}
    case Number(_, whole, fraction, exponent) =>
      && Digits(whole) && (whole[0] == '0' ==> |whole| == 1)
      && (fraction.Some? ==> Digits(fraction.value))
      && (exponent.Some? ==>
            exponent.value.mark in "eE" && exponent.value.sign in {"", "+", "-"} && Digits(exponent.value.digits))
    case Str(items) => GoodItems(items)
    case Array(space, es) => White(space) && GoodElements(es)
    case Object(space, ms) => White(space) && GoodMembers(ms)
  }

  predicate GoodElements(es: Elements) {
    es.Element? ==> White(es.before) && GoodValue(es.value) && White(es.after) && GoodElements(es.rest)
  }

  predicate GoodMembers(ms: Members) {
    ms.Member? ==>
      && White(ms.before) && GoodItems(ms.key) && White(ms.middle) && White(ms.between)
      && GoodValue(ms.value) && White(ms.after) && GoodMembers(ms.rest)
  }

  // ----- the text -----

  function ItemText(i: Item): string {
    match i
    case Plain(c) => [c]
    case Escape(c) => ['\\', c]
    case Unicode(hex) => "\\u" + hex
  }

  function ItemsText(items: seq<Item>): string {
    if items == [] then "" else ItemText(items[0]) + ItemsText(items[1..])
  }

  function StringText(items: seq<Item>): string { "\"" + (ItemsText(items) + "\"") }

  function FractionText(f: Option<string>): string { if f.None? then "" else "." + f.value }

  function ExponentText(e: Option<Exponent>): string {
    if e.None? then "" else [e.value.mark] + e.value.sign + e.value.digits
  }

  function ValueText(v: Value): string {
    match v
    case Word(name) => name
    case Number(minus, whole, fraction, exponent) =>
      (if minus then "-" else "") + whole + FractionText(fraction) + ExponentText(exponent)
    case Str(items) => StringText(items)
    case Array(space, es) => "[" + ((if es.NoElements? then space else ElementsText(es)) + "]")
    case Object(space, ms) => "{" + ((if ms.NoMembers? then space else MembersText(ms)) + "}")
  }

  function ElementsText(es: Elements): string {
    if es.NoElements? then ""
    else es.before
         + (ValueText(es.value) + (es.after + if es.rest.NoElements? then "" else "," + ElementsText(es.rest)))
  }

  function MembersText(ms: Members): string {
    if ms.NoMembers? then ""
    else ms.before + (StringText(ms.key) + (ms.middle + (":" + ValueAndRest(ms))))
  }

  function ValueAndRest(ms: Members): string
    requires ms.Member?
    decreases ms, 0
  {
    ms.between + (ValueText(ms.value) + (ms.after + if ms.rest.NoMembers? then "" else "," + MembersText(ms.rest)))
  }

  predicate Scalar(v: Value) { v.Word? || v.Number? }

  // ----- what strings say -----

  function HexValue(c: char): nat
    requires IsHex(c)
  {
    if IsDigit(c) then c as nat - '0' as nat
    else if c >= 'a' then c as nat - 'a' as nat + 10
    else c as nat - 'A' as nat + 10
  }

  /** The code unit that four hexadecimal digits name. */
  function CodeUnit(i: Item): nat
    requires i.Unicode? && GoodItem(i)
  {
    var h := i.hex;
    0x1000 * HexValue(h[0]) + 0x100 * HexValue(h[1]) + 0x10 * HexValue(h[2]) + HexValue(h[3])
  }

  /** A byte, as the strings of the source hold it. */
  function Octet(n: nat): char { (n % 256) as char }

  /** UTF-8 (section 3 of RFC 3629). */
  function Utf8(n: nat): (s: string)
    ensures 1 <= |s| <= 4 && (n < 0x1_0000 ==> |s| <= 3)
  {
    if n < 0x80 then [Octet(n)]
    else if n < 0x800 then [Octet(0xC0 + n / 0x40), Octet(0x80 + n % 0x40)]
    else if n < 0x1_0000 then [Octet(0xE0 + n / 0x1000), Octet(0x80 + n / 0x40 % 0x40), Octet(0x80 + n % 0x40)]
    else [Octet(0xF0 + n / 0x4_0000 % 8), Octet(0x80 + n / 0x1000 % 0x40),
      Octet(0x80 + n / 0x40 % 0x40), Octet(0x80 + n % 0x40)]
  }

  predicate IsHighSurrogate(i: Item) { i.Unicode? && GoodItem(i) && 0xD800 <= CodeUnit(i) < 0xDC00 }

  predicate IsLowSurrogate(i: Item) { i.Unicode? && GoodItem(i) && 0xDC00 <= CodeUnit(i) < 0xE000 }

  /** What one item stands for by itself (section 7 of RFC 8259). */
  function Meant(i: Item): string
    requires GoodItem(i)
  {
    match i
    case Plain(c) => [c]
    case Escape(c) =>
      if c == 'n' then "\n" else if c == 't' then "\t" else if c == 'b' then [8 as char]
      else if c == 'f' then [12 as char] else if c == 'r' then "\r" else [c]
    case Unicode(_) => Utf8(CodeUnit(i))
  }

  /** What a string stands for, in UTF-8; two surrogates in a row name one character. */
  function ItemsMeant(items: seq<Item>): string
    requires GoodItems(items)
  {
    if items == [] then ""
    else if |items| >= 2 && IsHighSurrogate(items[0]) && IsLowSurrogate(items[1]) then
      Utf8(0x1_0000 + 0x400 * (CodeUnit(items[0]) - 0xD800) + (CodeUnit(items[1]) - 0xDC00)) + ItemsMeant(items[2..])
    else Meant(items[0]) + ItemsMeant(items[1..])
  }
}
