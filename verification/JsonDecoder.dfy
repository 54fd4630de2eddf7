// A left-to-right recursive-descent decoder for the grammar of JsonSyntax, the shape of Python's
// json.loads. It remembers how deep it has been even when it fails, what it had
// accepted by then, and whether it stopped inside a string literal.
module JsonDecoder {
  import opened JsonSyntax

  datatype Parsed<+T> =
    | Ok(value: T, rest: string, deepest: nat)
    | Fail(consumed: string, rest: string, nesting: nat, inString: bool, deepest: nat)

  // ---------------------------------------------------------------- lexical scanners

  // A text cut in two; every lexer here returns where it stopped this way.
  datatype Cut = Cut(front: string, rest: string)

  // Cuts after the longest blank prefix.
  function Blanks(s: string): (r: Cut)
    ensures s == r.front + r.rest && AllBlank(r.front)
    ensures r.rest != "" ==> !IsBlank(r.rest[0])
  {
    if s != "" && IsBlank(s[0]) then
      var r := Blanks(s[1..]);
      Cut([s[0]] + r.front, r.rest)
    else Cut("", s)
  }

  // Cuts after the longest digit prefix.
  function Digits(s: string): (r: Cut)
    ensures s == r.front + r.rest && AllDigits(r.front)
    ensures r.rest != "" ==> !IsDigit(r.rest[0])
  {
    if s != "" && IsDigit(s[0]) then
      var r := Digits(s[1..]);
      Cut([s[0]] + r.front, r.rest)
    else Cut("", s)
  }

  predicate StartsWith(s: string, c: char) { s != "" && s[0] == c }

  datatype Lexed = Closed(units: seq<StrUnit>, rest: string) | Broken(units: seq<StrUnit>, rest: string)

  // The escape or plain character at the head of s; None when no legal one is there.
  datatype UnitLex = NoUnit | OneUnit(u: StrUnit, rest: string)

  function UnitAt(s: string): (r: UnitLex)
    ensures r.OneUnit? ==> WfUnit(r.u) && s == SpellUnit(r.u, r.rest) && |r.rest| < |s|
  {
    if s == "" || s[0] == '"' || s[0] < ' ' then NoUnit
    else if s[0] != '\\' then OneUnit(Raw(s[0]), s[1..])
    else if |s| >= 2 && IsShort(s[1]) then OneUnit(Short(s[1]), s[2..])
    else if |s| >= 6 && s[1] == 'u' && IsHexDigit(s[2]) && IsHexDigit(s[3]) && IsHexDigit(s[4]) && IsHexDigit(s[5]) then
      OneUnit(Hex(s[2], s[3], s[4], s[5]), s[6..])
    else NoUnit
  }

  // Reads a string literal after its opening quote.
  function LexString(s: string): (r: Lexed)
    ensures WfUnits(r.units)
    ensures s == SpellUnits(r.units, if r.Closed? then ['"'] + r.rest else r.rest)
    ensures r.Closed? ==> |r.rest| < |s|
  {
    if StartsWith(s, '"') then Closed([], s[1..])
    else
      match UnitAt(s)
      case NoUnit => Broken([], s)
      case OneUnit(u, s') => Cons(u, LexString(s'))
  }

  function Cons(u: StrUnit, r: Lexed): (r': Lexed)
    ensures r'.units == [u] + r.units && r'.units[1..] == r.units
    ensures r'.rest == r.rest && (r'.Closed? <==> r.Closed?)
  {
    r.(units := [u] + r.units)
  }

  datatype WordLex = NoWord | OneWord(w: Keyword, rest: string)

  predicate Has(s: string, w: Keyword)
  {
    match w
    case NullWord => |s| >= 4 && s[0] == 'n' && s[1] == 'u' && s[2] == 'l' && s[3] == 'l'
    case TrueWord => |s| >= 4 && s[0] == 't' && s[1] == 'r' && s[2] == 'u' && s[3] == 'e'
    case FalseWord => |s| >= 5 && s[0] == 'f' && s[1] == 'a' && s[2] == 'l' && s[3] == 's' && s[4] == 'e'
    case NaN => |s| >= 3 && s[0] == 'N' && s[1] == 'a' && s[2] == 'N'
    case Infinity =>
      && |s| >= 8 && s[0] == 'I' && s[1] == 'n' && s[2] == 'f' && s[3] == 'i'
      && s[4] == 'n' && s[5] == 'i' && s[6] == 't' && s[7] == 'y'
    case MinusInfinity => StartsWith(s, '-') && Has(s[1..], Infinity)
  }

  function WordLength(w: Keyword): nat
  {
    match w
    case NullWord => 4
    case TrueWord => 4
    case FalseWord => 5
    case NaN => 3
    case Infinity => 8
    case MinusInfinity => 9
  }

  lemma HasSpells(s: string, w: Keyword)
    requires Has(s, w)
    ensures |s| >= WordLength(w) && s == SpellWord(w, s[WordLength(w)..])
  {
    var t := s[WordLength(w)..];
    match w
    case NullWord => assert s == ['n', 'u', 'l', 'l'] + t;
    case TrueWord => assert s == ['t', 'r', 'u', 'e'] + t;
    case FalseWord => assert s == ['f', 'a', 'l', 's', 'e'] + t;
    case NaN => assert s == ['N', 'a', 'N'] + t;
    case Infinity => assert s == ['I', 'n', 'f', 'i', 'n', 'i', 't', 'y'] + t;
    case MinusInfinity => assert s == ['-', 'I', 'n', 'f', 'i', 'n', 'i', 't', 'y'] + t;
  }

  // The word s starts with, if any; at most one can be there.
  function WordAt(s: string): (r: WordLex)
    ensures r.OneWord? ==> s == SpellWord(r.w, r.rest) && |r.rest| < |s|
  {
    if Has(s, NullWord) then Take(s, NullWord)
    else if Has(s, TrueWord) then Take(s, TrueWord)
    else if Has(s, FalseWord) then Take(s, FalseWord)
    else if Has(s, NaN) then Take(s, NaN)
    else if Has(s, Infinity) then Take(s, Infinity)
    else if Has(s, MinusInfinity) then Take(s, MinusInfinity)
    else NoWord
  }

  function Take(s: string, w: Keyword): (r: WordLex)
    requires Has(s, w)
    ensures r.OneWord? && r.w == w && s == SpellWord(w, r.rest) && |r.rest| < |s|
  {
    HasSpells(s, w);
    OneWord(w, s[WordLength(w)..])
  }

  // The digits after a '.', when there is at least one.
  function FractionAt(s: string): (r: Cut)
    ensures AllDigits(r.front) && s == SpellFraction(r.front, r.rest)
  {
    if StartsWith(s, '.') && Digits(s[1..]).front != "" then Digits(s[1..]) else Cut("", s)
  }

  datatype ExponentLex = ExponentLex(e: Exponent, rest: string)

  function SignAt(s: string): (r: Cut)
    ensures s == r.front + r.rest && (r.front == "" || r.front == "+" || r.front == "-")
    ensures r.front == "" ==> !StartsWith(s, '+') && !StartsWith(s, '-')
  {
    if StartsWith(s, '+') then Cut("+", s[1..]) else if StartsWith(s, '-') then Cut("-", s[1..]) else Cut("", s)
  }

  function ExponentAt(s: string): (r: ExponentLex)
    ensures WfExponent(r.e) && s == SpellExponent(r.e, r.rest)
  {
    if s == "" || (s[0] != 'e' && s[0] != 'E') then ExponentLex(NoExponent, s)
    else
      var sign := SignAt(s[1..]);
      var ds := Digits(sign.rest);
      if ds.front == "" then ExponentLex(NoExponent, s) else ExponentLex(Exponent(s[0], sign.front, ds.front), ds.rest)
  }

  // "0", or digits that do not start with one; "" when neither is there.
  function WholeAt(s: string): (r: Cut)
    ensures s == r.front + r.rest && (r.front != "" ==> WfWhole(r.front))
  {
    if StartsWith(s, '0') then Cut("0", s[1..]) else Digits(s)
  }

  datatype NumberLex =
    | NotNumber
    | IsNumber(negative: bool, whole: string, fraction: string, exponent: Exponent, rest: string)

  // The longest number s starts with.
  function NumberAt(s: string): (r: NumberLex)
    ensures r.IsNumber? ==>
      && WfWhole(r.whole) && AllDigits(r.fraction) && WfExponent(r.exponent)
      && s == SpellNumber(r.negative, r.whole, r.fraction, r.exponent, r.rest)
  {
    var negative := StartsWith(s, '-');
    var whole := WholeAt(if negative then s[1..] else s);
    if whole.front == "" then NotNumber
    else
      var fraction := FractionAt(whole.rest);
      var e := ExponentAt(fraction.rest);
      IsNumber(negative, whole.front, fraction.front, e.e, e.rest)
  }

  lemma NumberShrinks(s: string)
    ensures NumberAt(s).IsNumber? ==> |NumberAt(s).rest| < |s|
  {
  }

  // ---------------------------------------------------------------- recursive descent

  // Prepends an accepted character to a failure.
  function After<T>(c: char, r: Parsed<T>): Parsed<T>
  {
    if r.Fail? then r.(consumed := [c] + r.consumed) else r
  }

  // s starts where a value is expected, inside d open brackets.
  function ParseValue(s: string, d: nat): (r: Parsed<Cst>)
    ensures r.Ok? ==> |r.rest| < |s|
    decreases |s|, 0
  {
    if s == "" then Fail("", s, d, false, d)
    else if s[0] == '"' then
      match LexString(s[1..])
      case Closed(us, rest) => Ok(Str(us), rest, d)
      case Broken(us, rest) => Fail(['"'] + SpellUnits(us, ""), rest, d, true, d)
    else if s[0] == '[' then After('[', ParseArray(s[1..], d + 1))
    else if s[0] == '{' then After('{', ParseObject(s[1..], d + 1))
    else
      match WordAt(s)
      case OneWord(w, rest) => Ok(Word(w), rest, d)
      case NoWord =>
        NumberShrinks(s);
        match NumberAt(s)
        case NotNumber => Fail("", s, d, false, d)
        case IsNumber(n, w, f, e, rest) => Ok(Num(n, w, f, e), rest, d)
  }

  // s follows a '['.
  function ParseArray(s: string, d: nat): (r: Parsed<Cst>)
    ensures r.Ok? ==> |r.rest| < |s|
    decreases |s|, 2
  {
    var pad := Blanks(s);
    if StartsWith(pad.rest, ']') then Ok(Arr(pad.front, []), pad.rest[1..], d)
    else
      match ParseItems(s, d)
      case Ok(items, rest, deepest) => Ok(Arr("", items), rest, deepest)
      case Fail(c, r, n, q, deepest) => Fail(c, r, n, q, deepest)
  }

  function ParseItems(s: string, d: nat): (r: Parsed<seq<Item>>)
    ensures r.Ok? ==> r.value != [] && |r.rest| < |s|
    decreases |s|, 1
  {
    var pre := Blanks(s);
    match ParseValue(pre.rest, d)
    case Fail(c, r, n, q, deepest) => Fail(pre.front + c, r, n, q, deepest)
    case Ok(v, s2, deepest) =>
      var post := Blanks(s2);
      var item := Item(pre.front, v, post.front);
      if StartsWith(post.rest, ']') then Ok([item], post.rest[1..], deepest)
      else if StartsWith(post.rest, ',') then
        match ParseItems(post.rest[1..], d)
        case Ok(items, rest, deepest') => Ok([item] + items, rest, Max(deepest, deepest'))
        case Fail(c, r, n, q, deepest') => Fail(SpellItem(item, [','] + c), r, n, q, Max(deepest, deepest'))
      else Fail(SpellItem(item, ""), post.rest, d, false, deepest)
  }

  function SpellItem(i: Item, t: string): string { i.pre + Spell(i.value, i.post + t) }

  // s follows a '{'.
  function ParseObject(s: string, d: nat): (r: Parsed<Cst>)
    ensures r.Ok? ==> |r.rest| < |s|
    decreases |s|, 2
  {
    var pad := Blanks(s);
    if StartsWith(pad.rest, '}') then Ok(Obj(pad.front, []), pad.rest[1..], d)
    else
      match ParseMembers(s, d)
      case Ok(members, rest, deepest) => Ok(Obj("", members), rest, deepest)
      case Fail(c, r, n, q, deepest) => Fail(c, r, n, q, deepest)
  }

  // The part of a member before its value.
  datatype Head = Head(pre: string, key: seq<StrUnit>, mid: string, gap: string)

  function ParseHead(s: string, d: nat): (r: Parsed<Head>)
    ensures r.Ok? ==> |r.rest| < |s|
  {
    var pre := Blanks(s);
    if !StartsWith(pre.rest, '"') then Fail(pre.front, pre.rest, d, false, d)
    else
      match LexString(pre.rest[1..])
      case Broken(us, rest) => Fail(pre.front + (['"'] + SpellUnits(us, "")), rest, d, true, d)
      case Closed(us, s2) =>
        var mid := Blanks(s2);
        if !StartsWith(mid.rest, ':') then Fail(pre.front + SpellString(us, mid.front), mid.rest, d, false, d)
        else
          var gap := Blanks(mid.rest[1..]);
          Ok(Head(pre.front, us, mid.front, gap.front), gap.rest, d)
  }

  function ParseMembers(s: string, d: nat): (r: Parsed<seq<Member>>)
    ensures r.Ok? ==> r.value != [] && |r.rest| < |s|
    decreases |s|, 1
  {
    match ParseHead(s, d)
    case Fail(c, r, n, q, deepest) => Fail(c, r, n, q, deepest)
    case Ok(h, s1, _) =>
      match ParseValue(s1, d)
      case Fail(c, r, n, q, deepest) => Fail(SpellHead(h.pre, h.key, h.mid, h.gap, c), r, n, q, deepest)
      case Ok(v, s2, deepest) =>
        var post := Blanks(s2);
        var member := Member(h.pre, h.key, h.mid, h.gap, v, post.front);
        if StartsWith(post.rest, '}') then Ok([member], post.rest[1..], deepest)
        else if StartsWith(post.rest, ',') then
          match ParseMembers(post.rest[1..], d)
          case Ok(ms, rest, deepest') => Ok([member] + ms, rest, Max(deepest, deepest'))
          case Fail(c, r, n, q, deepest') => Fail(SpellMember(member, [','] + c), r, n, q, Max(deepest, deepest'))
        else Fail(SpellMember(member, ""), post.rest, d, false, deepest)
  }

  function SpellMember(m: Member, t: string): string
  {
    SpellHead(m.pre, m.key, m.mid, m.gap, Spell(m.value, m.post + t))
  }

  // A whole text: one value between blanks, and nothing else.
  function Decode(text: string): Parsed<Doc>
  {
    var before := Blanks(text);
    match ParseValue(before.rest, 0)
    case Fail(c, r, n, q, deepest) => Fail(before.front + c, r, n, q, deepest)
    case Ok(v, s2, deepest) =>
      var after := Blanks(s2);
      if after.rest == "" then Ok(Doc(before.front, v, after.front), "", deepest)
      else Fail(before.front + Spell(v, after.front), after.rest, 0, false, deepest)
  }
}
