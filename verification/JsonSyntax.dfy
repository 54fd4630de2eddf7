// The JSON grammar of RFC 8259 (with the three non-finite words that Python's decoder also takes):
// concrete syntax trees that keep every blank and every escape, the text each one spells,
// and the value tree it denotes.
module JsonSyntax {

  // One character position of a string literal: itself, a two-character escape, or a \uXXXX escape.
  datatype StrUnit = Raw(c: char) | Short(c: char) | Hex(h3: char, h2: char, h1: char, h0: char)

  datatype Keyword = NullWord | TrueWord | FalseWord | NaN | Infinity | MinusInfinity

  datatype Exponent = NoExponent | Exponent(mark: char, sign: string, digits: string)

  datatype Cst =
    | Word(word: Keyword)
    | Num(negative: bool, whole: string, fraction: string, exponent: Exponent)
    | Str(units: seq<StrUnit>)
    | Arr(pad: string, items: seq<Item>)
    | Obj(pad: string, members: seq<Member>)

  // An array item with the blanks around it.
  datatype Item = Item(pre: string, value: Cst, post: string)

  // An object member: blanks, key, blanks, ':', blanks, value, blanks.
  datatype Member = Member(pre: string, key: seq<StrUnit>, mid: string, gap: string, value: Cst, post: string)

  // A whole document.
  datatype Doc = Doc(before: string, value: Cst, after: string)

  // ---------------------------------------------------------------- characters

  predicate IsBlank(c: char) { c == ' ' || c == '\t' || c == '\n' || c == '\r' }

  predicate IsDigit(c: char) { '0' <= c <= '9' }

  predicate IsHexDigit(c: char) { IsDigit(c) || 'a' <= c <= 'f' || 'A' <= c <= 'F' }

  predicate IsShort(c: char)
  {
    c == '"' || c == '\\' || c == '/' || c == 'b' || c == 'f' || c == 'n' || c == 'r' || c == 't'
  }

  predicate AllBlank(s: string) { s != "" ==> IsBlank(s[0]) && AllBlank(s[1..]) }

  predicate AllDigits(s: string) { s != "" ==> IsDigit(s[0]) && AllDigits(s[1..]) }

  // ---------------------------------------------------------------- well-formed trees

  predicate WfUnit(u: StrUnit)
  {
    match u
    case Raw(c) => c != '"' && c != '\\' && c >= ' '
    case Short(c) => IsShort(c)
    case Hex(a, b, c, d) => IsHexDigit(a) && IsHexDigit(b) && IsHexDigit(c) && IsHexDigit(d)
  }

  predicate WfUnits(us: seq<StrUnit>) { us != [] ==> WfUnit(us[0]) && WfUnits(us[1..]) }

  predicate WfWhole(s: string)
  {
    s != "" && AllDigits(s) && (s[0] == '0' ==> |s| == 1)
  }

  predicate WfExponent(e: Exponent)
  {
    e.Exponent? ==>
      && (e.mark == 'e' || e.mark == 'E')
      && (e.sign == "" || e.sign == "+" || e.sign == "-")
      && e.digits != "" && AllDigits(e.digits)
  }

  predicate Wf(c: Cst)
    decreases c, 0
  {
    match c
    case Word(_) => true
    case Num(_, whole, fraction, exponent) => WfWhole(whole) && AllDigits(fraction) && WfExponent(exponent)
    case Str(us) => WfUnits(us)
    case Arr(pad, items) => AllBlank(pad) && (items == [] || pad == "") && WfItems(items)
    case Obj(pad, members) => AllBlank(pad) && (members == [] || pad == "") && WfMembers(members)
  }

  predicate WfItems(items: seq<Item>)
    decreases items
  {
    items != [] ==>
      && AllBlank(items[0].pre) && Wf(items[0].value) && AllBlank(items[0].post)
      && WfItems(items[1..])
  }

  predicate WfMembers(ms: seq<Member>)
    decreases ms
  {
    ms != [] ==>
      && AllBlank(ms[0].pre) && WfUnits(ms[0].key) && AllBlank(ms[0].mid)
      && AllBlank(ms[0].gap) && Wf(ms[0].value) && AllBlank(ms[0].post)
      && WfMembers(ms[1..])
  }

  predicate WfDoc(d: Doc) { AllBlank(d.before) && Wf(d.value) && AllBlank(d.after) }

  // ---------------------------------------------------------------- spelling
  // Spell*(x, t) is the text of x followed by the text t.

  function SpellUnit(u: StrUnit, t: string): string
  {
    match u
    case Raw(c) => [c] + t
    case Short(c) => ['\\', c] + t
    case Hex(a, b, c, d) => ['\\', 'u', a, b, c, d] + t
  }

  function SpellUnits(us: seq<StrUnit>, t: string): string
  {
    if us == [] then t else SpellUnit(us[0], SpellUnits(us[1..], t))
  }

  function SpellString(us: seq<StrUnit>, t: string): string { ['"'] + SpellUnits(us, ['"'] + t) }

  function SpellWord(w: Keyword, t: string): string
  {
    match w
    case NullWord => ['n', 'u', 'l', 'l'] + t
    case TrueWord => ['t', 'r', 'u', 'e'] + t
    case FalseWord => ['f', 'a', 'l', 's', 'e'] + t
    case NaN => ['N', 'a', 'N'] + t
    case Infinity => ['I', 'n', 'f', 'i', 'n', 'i', 't', 'y'] + t
    case MinusInfinity => ['-', 'I', 'n', 'f', 'i', 'n', 'i', 't', 'y'] + t
  }

  function SpellFraction(f: string, t: string): string { if f == "" then t else ['.'] + (f + t) }

  function SpellExponent(e: Exponent, t: string): string
  {
    if e.NoExponent? then t else [e.mark] + (e.sign + (e.digits + t))
  }

  function SpellNumber(negative: bool, whole: string, fraction: string, e: Exponent, t: string): string
  {
    var unsigned := whole + SpellFraction(fraction, SpellExponent(e, t));
    if negative then ['-'] + unsigned else unsigned
  }

  function Spell(c: Cst, t: string): string
    decreases c, 0
  {
    match c
    case Word(w) => SpellWord(w, t)
    case Num(n, w, f, e) => SpellNumber(n, w, f, e, t)
    case Str(us) => SpellString(us, t)
    case Arr(pad, items) => ['['] + (if items == [] then pad + ([']'] + t) else SpellItems(items, t))
    case Obj(pad, members) => ['{'] + (if members == [] then pad + (['}'] + t) else SpellMembers(members, t))
  }

  // A non-empty list of items up to and including the closing bracket, then t.
  function SpellItems(items: seq<Item>, t: string): string
    requires items != []
    decreases items
  {
    items[0].pre + Spell(items[0].value, items[0].post +
      (if |items| == 1 then [']'] + t else [','] + SpellItems(items[1..], t)))
  }

  // Blanks, key, blanks, ':', blanks.
  function SpellHead(pre: string, key: seq<StrUnit>, mid: string, gap: string, t: string): string
  {
    pre + SpellString(key, mid + ([':'] + (gap + t)))
  }

  function SpellMembers(ms: seq<Member>, t: string): string
    requires ms != []
    decreases ms
  {
    SpellHead(ms[0].pre, ms[0].key, ms[0].mid, ms[0].gap, Spell(ms[0].value, ms[0].post +
      (if |ms| == 1 then ['}'] + t else [','] + SpellMembers(ms[1..], t))))
  }

  function DocText(d: Doc): string { d.before + Spell(d.value, d.after) }

  // ---------------------------------------------------------------- denotation

  datatype Json =
    | Null
    | Bool(b: bool)
    | NonFinite(word: Keyword)
    | Number(lexeme: string)
    | String(points: seq<nat>)
    | List(elements: seq<Json>)
    | Object(entries: seq<Entry>)

  datatype Entry = Entry(key: seq<nat>, value: Json)

  function HexDigitValue(c: char): nat
  {
    if IsDigit(c) then (c - '0') as int
    else if 'a' <= c <= 'f' then 10 + (c - 'a') as int
    else if 'A' <= c <= 'F' then 10 + (c - 'A') as int
    else 0
  }

  function HexValue(u: StrUnit): nat
  {
    if !u.Hex? then 0
    else ((HexDigitValue(u.h3) * 16 + HexDigitValue(u.h2)) * 16 + HexDigitValue(u.h1)) * 16 + HexDigitValue(u.h0)
  }

  function ShortValue(c: char): nat
  {
    match c
    case 'b' => 8
    case 'f' => 12
    case 'n' => 10
    case 'r' => 13
    case 't' => 9
    case _ => c as int
  }

  predicate IsHigh(u: StrUnit) { 0xD800 <= HexValue(u) <= 0xDBFF }

  predicate IsLow(u: StrUnit) { 0xDC00 <= HexValue(u) <= 0xDFFF }

  function UnitPoint(u: StrUnit): nat
  {
    match u
    case Raw(c) => c as int
    case Short(c) => ShortValue(c)
    case Hex(_, _, _, _) => HexValue(u)
  }

  // Code points of a literal; an escaped surrogate pair is one point, a lone surrogate is kept.
  function Points(us: seq<StrUnit>): seq<nat>
  {
    if us == [] then []
    else if |us| > 1 && IsHigh(us[0]) && IsLow(us[1]) then
      [0x10000 + (HexValue(us[0]) - 0xD800) * 0x400 + (HexValue(us[1]) - 0xDC00)] + Points(us[2..])
    else [UnitPoint(us[0])] + Points(us[1..])
  }

  // The syntax tree with blanks and escapes forgotten; duplicate keys are still there.
  function Erase(c: Cst): Json
    decreases c, 0
  {
    match c
    case Word(w) =>
      (match w
       case NullWord => Null
       case TrueWord => Bool(true)
       case FalseWord => Bool(false)
       case _ => NonFinite(w))
    case Num(n, w, f, e) => Number(SpellNumber(n, w, f, e, ""))
    case Str(us) => String(Points(us))
    case Arr(_, items) => List(EraseItems(items))
    case Obj(_, members) => Object(EraseMembers(members))
  }

  function EraseItems(items: seq<Item>): seq<Json>
    decreases items
  {
    if items == [] then [] else [Erase(items[0].value)] + EraseItems(items[1..])
  }

  function EraseMembers(ms: seq<Member>): seq<Entry>
    decreases ms
  {
    if ms == [] then [] else [Entry(Points(ms[0].key), Erase(ms[0].value))] + EraseMembers(ms[1..])
  }

  // ---------------------------------------------------------------- nesting depth

  function Max(a: int, b: int): int { if a > b then a else b }

  // Scalars have depth 0; a container is one deeper than its deepest child.
  function Depth(v: Json): nat
    decreases v, 0
  {
    match v
    case List(vs) => 1 + DepthAll(vs)
    case Object(es) => 1 + DepthEntries(es)
    case _ => 0
  }

  function DepthAll(vs: seq<Json>): nat
    decreases vs
  {
    if vs == [] then 0 else Max(Depth(vs[0]), DepthAll(vs[1..]))
  }

  function DepthEntries(es: seq<Entry>): nat
    decreases es
  {
    if es == [] then 0 else Max(Depth(es[0].value), DepthEntries(es[1..]))
  }
}
