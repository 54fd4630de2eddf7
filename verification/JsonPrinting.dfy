// A printer of JSON values, written without regard to the decoder, and what the gate makes of its output:
// the value printed, whatever blanks, escapes and hexadecimal digits are chosen.
module JsonPrinting {
  import opened JsonSyntax
  import opened JsonSoundness
  import opened ValueWalkers
  import opened BoundedJson

  // blank goes wherever the grammar admits blanks; upper asks for upper-case hexadecimal digits; raw leaves
  // the slash and characters beyond ASCII unescaped.
  datatype Style = Style(blank: string, upper: bool, raw: bool)

  // ---------------------------------------------------------------- the printer
  // Print*(x, style, t) is the text of x followed by the text t.

  function HexChar(n: nat, upper: bool): char
    requires n < 16
  {
    if upper then "0123456789ABCDEF"[n] else "0123456789abcdef"[n]
  }

  // \uXXXX
  function PrintHex(n: nat, upper: bool, t: string): string
    requires n < 0x10000
  {
    ['\\', 'u', HexChar(n / 16 / 16 / 16, upper), HexChar(n / 16 / 16 % 16, upper), HexChar(n / 16 % 16, upper),
     HexChar(n % 16, upper)] + t
  }

  // The two halves of a point beyond the basic plane.
  function HighHalf(p: nat): (h: nat)
    requires 0x10000 <= p <= 0x10FFFF
    ensures 0xD800 <= h <= 0xDBFF
  {
    0xD800 + (p - 0x10000) / 0x400
  }

  function LowHalf(p: nat): (h: nat)
    requires 0x10000 <= p <= 0x10FFFF
    ensures 0xDC00 <= h <= 0xDFFF
  {
    0xDC00 + (p - 0x10000) % 0x400
  }

  predicate Surrogate(p: nat) { 0xD800 <= p <= 0xDFFF }

  predicate Plain(p: nat, style: Style)
  {
    || (0x20 <= p < 0x7F && p != 0x22 && p != 0x5C && (p != 0x2F || style.raw))
    || (style.raw && 0x80 <= p <= 0x10FFFF && !Surrogate(p))
  }

  function PrintPoint(p: nat, style: Style, t: string): string
    requires p <= 0x10FFFF
  {
    if p == 0x22 then "\\\"" + t
    else if p == 0x5C then "\\\\" + t
    else if Plain(p, style) then [p as char] + t
    else if p == 0x2F then "\\/" + t
    else if p == 0x08 then "\\b" + t
    else if p == 0x0C then "\\f" + t
    else if p == 0x0A then "\\n" + t
    else if p == 0x0D then "\\r" + t
    else if p == 0x09 then "\\t" + t
    else if p <= 0xFFFF then PrintHex(p, style.upper, t)
    else PrintHex(HighHalf(p), style.upper, PrintHex(LowHalf(p), style.upper, t))
  }

  predicate InRange(ps: seq<nat>) { forall i :: 0 <= i < |ps| ==> ps[i] <= 0x10FFFF }

  function PrintPoints(ps: seq<nat>, style: Style, t: string): string
    requires InRange(ps)
  {
    if ps == [] then t else PrintPoint(ps[0], style, PrintPoints(ps[1..], style, t))
  }

  // Code points; no high surrogate stands directly before a low one, which would be one point.
  predicate PrintablePoints(ps: seq<nat>)
  {
    && InRange(ps)
    && forall i :: 0 <= i < |ps| - 1 ==> !(0xD800 <= ps[i] <= 0xDBFF && 0xDC00 <= ps[i + 1] <= 0xDFFF)
  }

  ghost predicate PrintableNumber(lexeme: string)
  {
    exists n, w, f, e ::
      WfWhole(w) && AllDigits(f) && WfExponent(e) && lexeme == SpellNumber(n, w, f, e, "")
  }

  ghost predicate Printable(v: Json)
    decreases v
  {
    match v
    case NonFinite(w) => w.NaN? || w.Infinity? || w.MinusInfinity?
    case Number(lexeme) => PrintableNumber(lexeme)
    case String(ps) => PrintablePoints(ps)
    case List(vs) => forall x | x in vs :: Printable(x)
    case Object(es) => forall e | e in es :: PrintablePoints(e.key) && Printable(e.value)
    case _ => true
  }

  ghost function Print(v: Json, style: Style, t: string): string
    requires Printable(v)
    decreases v, 0
  {
    match v
    case Null => "null" + t
    case Bool(b) => (if b then "true" else "false") + t
    case NonFinite(w) => (if w.NaN? then "NaN" else if w.Infinity? then "Infinity" else "-Infinity") + t
    case Number(lexeme) => lexeme + t
    case String(ps) => "\"" + PrintPoints(ps, style, "\"" + t)
    case List(vs) => "[" + (if vs == [] then style.blank + ("]" + t) else PrintList(vs, style, t))
    case Object(es) => "{" + (if es == [] then style.blank + ("}" + t) else PrintEntries(es, style, t))
  }

  ghost function PrintList(vs: seq<Json>, style: Style, t: string): string
    requires vs != [] && forall x :: x in vs ==> Printable(x)
    decreases vs
  {
    style.blank + Print(vs[0], style, style.blank +
      (if |vs| == 1 then "]" + t else "," + PrintList(vs[1..], style, t)))
  }

  ghost function PrintEntries(es: seq<Entry>, style: Style, t: string): string
    requires es != [] && forall e :: e in es ==> PrintablePoints(e.key) && Printable(e.value)
    decreases es
  {
    assert es[0] in es && PrintablePoints(es[0].key);
    style.blank + ("\"" + PrintPoints(es[0].key, style, "\"" + (style.blank + (":" + (style.blank +
      Print(es[0].value, style, style.blank +
        (if |es| == 1 then "}" + t else "," + PrintEntries(es[1..], style, t))))))))
  }

  // ---------------------------------------------------------------- strings

  lemma DigitBack(n: nat, upper: bool)
    requires n < 16
    ensures IsHexDigit(HexChar(n, upper)) && HexDigitValue(HexChar(n, upper)) == n
  {
  }

  // Four hexadecimal digits, each in either case, are the number they spell.
  lemma HexBack(a: nat, b: nat, c: nat, d: nat, ua: bool, ub: bool, uc: bool, ud: bool)
    requires a < 16 && b < 16 && c < 16 && d < 16
    ensures var u := Hex(HexChar(a, ua), HexChar(b, ub), HexChar(c, uc), HexChar(d, ud));
      WfUnit(u) && HexValue(u) == 0x1000 * a + 0x100 * b + 16 * c + d
  {
    hide HexChar, HexDigitValue;
    DigitBack(a, ua);
    DigitBack(b, ub);
    DigitBack(c, uc);
    DigitBack(d, ud);
  }

  function HexUnit(n: nat, upper: bool): StrUnit
    requires n < 0x10000
  {
    Hex(HexChar(n / 16 / 16 / 16, upper), HexChar(n / 16 / 16 % 16, upper), HexChar(n / 16 % 16, upper),
      HexChar(n % 16, upper))
  }

  lemma HexUnitBack(n: nat, upper: bool)
    requires n < 0x10000
    ensures HexUnit(n, upper).Hex? && WfUnit(HexUnit(n, upper)) && HexValue(HexUnit(n, upper)) == n
  {
    hide HexChar, HexDigitValue;
    var a := n / 16;
    var b := a / 16;
    HexBack(b / 16, b % 16, a % 16, n % 16, upper, upper, upper, upper);
  }

  function UnitsOfPoint(p: nat, style: Style): seq<StrUnit>
    requires p <= 0x10FFFF
  {
    if p == 0x22 then [Short('"')]
    else if p == 0x5C then [Short('\\')]
    else if Plain(p, style) then [Raw(p as char)]
    else if p == 0x2F then [Short('/')]
    else if p == 0x08 then [Short('b')]
    else if p == 0x0C then [Short('f')]
    else if p == 0x0A then [Short('n')]
    else if p == 0x0D then [Short('r')]
    else if p == 0x09 then [Short('t')]
    else if p <= 0xFFFF then [HexUnit(p, style.upper)]
    else [HexUnit(HighHalf(p), style.upper), HexUnit(LowHalf(p), style.upper)]
  }

  function UnitsOf(ps: seq<nat>, style: Style): seq<StrUnit>
    requires InRange(ps)
  {
    if ps == [] then [] else UnitsOfPoint(ps[0], style) + UnitsOf(ps[1..], style)
  }

  lemma PointSpelled(p: nat, style: Style, t: string)
    requires p <= 0x10FFFF
    ensures PrintPoint(p, style, t) == SpellUnits(UnitsOfPoint(p, style), t)
  {
    hide HexChar, HighHalf, LowHalf;
    var us := UnitsOfPoint(p, style);
    if |us| == 1 {
      assert us[1..] == [];
      assert SpellUnits(us, t) == SpellUnit(us[0], t);
      OneUnitSpelled(p, style, t);
    } else {
      assert us[1..] == [us[1]] && [us[1]][1..] == [];
      assert SpellUnits([], t) == t && SpellUnits([us[1]], t) == SpellUnit(us[1], t);
      assert SpellUnits(us, t) == SpellUnit(us[0], SpellUnit(us[1], t));
      HexSpelled(LowHalf(p), style.upper, t);
      HexSpelled(HighHalf(p), style.upper, PrintHex(LowHalf(p), style.upper, t));
    }
  }

  lemma HexSpelled(n: nat, upper: bool, t: string)
    requires n < 0x10000
    ensures PrintHex(n, upper, t) == SpellUnit(HexUnit(n, upper), t)
  {
    hide HexChar;
  }

  lemma OneUnitSpelled(p: nat, style: Style, t: string)
    requires p <= 0xFFFF || Plain(p, style)
    requires p <= 0x10FFFF
    ensures |UnitsOfPoint(p, style)| == 1 && PrintPoint(p, style, t) == SpellUnit(UnitsOfPoint(p, style)[0], t)
  {
    hide HexChar, HexUnit, PrintHex;
    assert "\\\"" == ['\\', '"'] && "\\\\" == ['\\', '\\'] && "\\/" == ['\\', '/'];
    if p <= 0xFFFF { HexSpelled(p, style.upper, t); }
  }

  lemma {:induction false} SpellUnitsJoin(a: seq<StrUnit>, b: seq<StrUnit>, t: string)
    ensures SpellUnits(a + b, t) == SpellUnits(a, SpellUnits(b, t))
  {
    if a == [] {
      assert a + b == b;
    } else {
      SpellUnitsJoin(a[1..], b, t);
      assert (a + b)[1..] == a[1..] + b;
    }
  }

  lemma {:induction false} WfUnitsJoin(a: seq<StrUnit>, b: seq<StrUnit>)
    requires WfUnits(a) && WfUnits(b)
    ensures WfUnits(a + b)
  {
    if a == [] {
      assert a + b == b;
    } else {
      WfUnitsJoin(a[1..], b);
      assert (a + b)[1..] == a[1..] + b;
    }
  }

  lemma PointWf(p: nat, style: Style)
    requires p <= 0x10FFFF
    ensures WfUnits(UnitsOfPoint(p, style))
  {
    hide HexUnit, HexChar, HighHalf, LowHalf;
    var us := UnitsOfPoint(p, style);
    if p <= 0xFFFF {
      HexUnitBack(p, style.upper);
    } else {
      HexUnitBack(HighHalf(p), style.upper);
      HexUnitBack(LowHalf(p), style.upper);
    }
    if |us| == 1 {
      assert us[1..] == [];
    } else {
      assert us[1..] == [us[1]] && [us[1]][1..] == [];
      assert WfUnits([us[1]]);
    }
  }

  lemma {:induction false} StringPrinted(ps: seq<nat>, style: Style, t: string)
    requires InRange(ps)
    ensures PrintPoints(ps, style, t) == SpellUnits(UnitsOf(ps, style), t) && WfUnits(UnitsOf(ps, style))
  {
    hide PrintPoint, UnitsOfPoint, WfUnits;
    if ps != [] {
      assert ps[0] in ps;
      StringPrinted(ps[1..], style, t);
      PointSpelled(ps[0], style, PrintPoints(ps[1..], style, t));
      SpellUnitsJoin(UnitsOfPoint(ps[0], style), UnitsOf(ps[1..], style), t);
      PointWf(ps[0], style);
      WfUnitsJoin(UnitsOfPoint(ps[0], style), UnitsOf(ps[1..], style));
    } else {
      assert WfUnits([]) by { NoUnits(); }
    }
  }

  lemma NoUnits()
    ensures WfUnits([])
  {
  }

  // The units of one point denote it; they end in a high surrogate only for such a point, and begin with a
  // low one only for such a point.
  lemma PointDenoted(p: nat, style: Style)
    requires p <= 0x10FFFF
    ensures var us := UnitsOfPoint(p, style);
      && (|us| == 1 || |us| == 2)
      && (|us| == 1 ==> (IsHigh(us[0]) ==> 0xD800 <= p <= 0xDBFF) && (IsLow(us[0]) ==> 0xDC00 <= p <= 0xDFFF))
      && (|us| == 1 ==> UnitPoint(us[0]) == p)
      && (|us| == 2 ==> IsHigh(us[0]) && IsLow(us[1]))
      && (|us| == 2 ==> p == 0x10000 + (HexValue(us[0]) - 0xD800) * 0x400 + (HexValue(us[1]) - 0xDC00))
  {
    hide HexChar, HexUnit, HexDigitValue, HighHalf, LowHalf;
    if p <= 0xFFFF {
      HexUnitBack(p, style.upper);
    } else {
      HalvesBack(p);
      HexUnitBack(HighHalf(p), style.upper);
      HexUnitBack(LowHalf(p), style.upper);
    }
  }

  lemma HalvesBack(p: nat)
    requires 0x10000 <= p <= 0x10FFFF
    ensures p == 0x10000 + (HighHalf(p) - 0xD800) * 0x400 + (LowHalf(p) - 0xDC00)
  {
  }

  lemma {:induction false} StringDenoted(ps: seq<nat>, style: Style)
    requires PrintablePoints(ps)
    ensures Points(UnitsOf(ps, style)) == ps
  {
    hide UnitsOfPoint, UnitPoint, HexValue, Points;
    if ps == [] {
      NoPoints();
    } else {
      assert ps[0] in ps;
      var head, rest := UnitsOfPoint(ps[0], style), UnitsOf(ps[1..], style);
      StringDenoted(ps[1..], style);
      PointDenoted(ps[0], style);
      if ps[1..] != [] {
        assert ps[1] in ps && rest == UnitsOfPoint(ps[1], style) + UnitsOf(ps[1..][1..], style);
        PointDenoted(ps[1], style);
      }
      PointsStep(head, rest, ps[0]);
    }
  }

  lemma NoPoints()
    ensures Points([]) == []
  {
  }

  lemma PointsStep(head: seq<StrUnit>, rest: seq<StrUnit>, p: nat)
    requires |head| == 1 ==> UnitPoint(head[0]) == p && !(rest != [] && IsHigh(head[0]) && IsLow(rest[0]))
    requires |head| == 2 ==> IsHigh(head[0]) && IsLow(head[1])
    requires |head| == 2 ==> p == 0x10000 + (HexValue(head[0]) - 0xD800) * 0x400 + (HexValue(head[1]) - 0xDC00)
    requires |head| == 1 || |head| == 2
    ensures Points(head + rest) == [p] + Points(rest)
  {
    hide HexValue, IsHigh, IsLow, UnitPoint, ShortValue, HexDigitValue, Points;
    if |head| == 1 {
      assert head == [head[0]];
      SinglePoint(head[0], rest);
    } else {
      assert head == [head[0], head[1]];
      PairPoint(head[0], head[1], rest);
    }
  }

  lemma SinglePoint(u: StrUnit, rest: seq<StrUnit>)
    requires !(rest != [] && IsHigh(u) && IsLow(rest[0]))
    ensures Points([u] + rest) == [UnitPoint(u)] + Points(rest)
  {
    hide HexValue, IsHigh, IsLow, UnitPoint;
    var us := [u] + rest;
    assert us[0] == u && us[1..] == rest;
    assert rest != [] ==> us[1] == rest[0];
  }

  lemma PairPoint(u: StrUnit, w: StrUnit, rest: seq<StrUnit>)
    requires IsHigh(u) && IsLow(w)
    ensures Points([u, w] + rest) ==
      [0x10000 + (HexValue(u) - 0xD800) * 0x400 + (HexValue(w) - 0xDC00)] + Points(rest)
  {
    hide HexDigitValue, UnitPoint;
    var us := [u, w] + rest;
    assert us[0] == u && us[1] == w && us[2..] == rest;
  }

  // ---------------------------------------------------------------- values

  ghost function NumberCst(lexeme: string): Cst
    requires PrintableNumber(lexeme)
  {
    var n, w, f, e :| WfWhole(w) && AllDigits(f) && WfExponent(e) && lexeme == SpellNumber(n, w, f, e, "");
    Num(n, w, f, e)
  }

  ghost function CstOf(v: Json, style: Style): Cst
    requires Printable(v)
    decreases v, 0
  {
    match v
    case Null => Word(NullWord)
    case Bool(b) => Word(if b then TrueWord else FalseWord)
    case NonFinite(w) => Word(w)
    case Number(lexeme) => NumberCst(lexeme)
    case String(ps) => Str(UnitsOf(ps, style))
    case List(vs) => Arr(if vs == [] then style.blank else "", ItemsOf(vs, style))
    case Object(es) => Obj(if es == [] then style.blank else "", MembersOf(es, style))
  }

  ghost function ItemsOf(vs: seq<Json>, style: Style): (r: seq<Item>)
    requires forall x :: x in vs ==> Printable(x)
    ensures |r| == |vs|
    decreases vs
  {
    if vs == [] then [] else [Item(style.blank, CstOf(vs[0], style), style.blank)] + ItemsOf(vs[1..], style)
  }

  ghost function MembersOf(es: seq<Entry>, style: Style): (r: seq<Member>)
    requires forall e :: e in es ==> PrintablePoints(e.key) && Printable(e.value)
    ensures |r| == |es|
    decreases es
  {
    if es == [] then []
    else
      assert es[0] in es && PrintablePoints(es[0].key);
      var key, value := UnitsOf(es[0].key, style), CstOf(es[0].value, style);
      [Member(style.blank, key, style.blank, style.blank, value, style.blank)] + MembersOf(es[1..], style)
  }

  lemma WordPrinted(v: Json, style: Style, t: string)
    requires Printable(v) && (v.Null? || v.Bool? || v.NonFinite?)
    ensures Print(v, style, t) == Spell(CstOf(v, style), t)
  {
    assert "null" == ['n', 'u', 'l', 'l'] && "true" == ['t', 'r', 'u', 'e'] && "false" == ['f', 'a', 'l', 's', 'e'];
    assert "NaN" == ['N', 'a', 'N'] && "Infinity" == ['I', 'n', 'f', 'i', 'n', 'i', 't', 'y'];
    assert "-Infinity" == ['-', 'I', 'n', 'f', 'i', 'n', 'i', 't', 'y'];
  }

  lemma {:induction false} ValuePrinted(v: Json, style: Style, t: string)
    requires Printable(v)
    ensures Print(v, style, t) == Spell(CstOf(v, style), t)
    decreases v, 0
  {
    hide SpellUnits, SpellWord, SpellNumber, PrintPoints, UnitsOf, SpellItems, SpellMembers, PrintList, PrintEntries;
    match v
    case Null => WordPrinted(v, style, t);
    case Bool(_) => WordPrinted(v, style, t);
    case NonFinite(_) => WordPrinted(v, style, t);
    case Number(lexeme) => NumberPrinted(lexeme, t);
    case String(ps) => StringPrinted(ps, style, "\"" + t);
    case List(vs) => if vs != [] { ListPrinted(vs, style, t); }
    case Object(es) => if es != [] { EntriesPrinted(es, style, t); }
  }

  lemma NumberPrinted(lexeme: string, t: string)
    requires PrintableNumber(lexeme)
    ensures lexeme + t == Spell(NumberCst(lexeme), t)
  {
    var c := NumberCst(lexeme);
    NumberAppend(c.negative, c.whole, c.fraction, c.exponent, "", t);
    assert "" + t == t;
  }

  lemma {:induction false} ListPrinted(vs: seq<Json>, style: Style, t: string)
    requires vs != [] && forall x :: x in vs ==> Printable(x)
    ensures PrintList(vs, style, t) == SpellItems(ItemsOf(vs, style), t)
    decreases vs
  {
    hide Print, Spell, CstOf;
    var items := ItemsOf(vs, style);
    assert vs[0] in vs;
    if |vs| > 1 {
      ListPrinted(vs[1..], style, t);
      assert items[1..] == ItemsOf(vs[1..], style);
    }
    ValuePrinted(vs[0], style, style.blank + (if |vs| == 1 then "]" + t else "," + PrintList(vs[1..], style, t)));
  }

  lemma {:induction false} EntriesPrinted(es: seq<Entry>, style: Style, t: string)
    requires es != [] && forall e :: e in es ==> PrintablePoints(e.key) && Printable(e.value)
    ensures PrintEntries(es, style, t) == SpellMembers(MembersOf(es, style), t)
    decreases es
  {
    hide Print, Spell, CstOf, PrintPoints, SpellUnits, UnitsOf;
    var ms := MembersOf(es, style);
    assert es[0] in es;
    if |es| > 1 {
      EntriesPrinted(es[1..], style, t);
      assert ms[1..] == MembersOf(es[1..], style);
    }
    var after := style.blank + (if |es| == 1 then "}" + t else "," + PrintEntries(es[1..], style, t));
    ValuePrinted(es[0].value, style, after);
    StringPrinted(es[0].key, style,
      "\"" + (style.blank + (":" + (style.blank + Print(es[0].value, style, after)))));
  }

  // The syntax tree that is printed is well formed and denotes the value.
  lemma {:induction false} ValueDenoted(v: Json, style: Style)
    requires Printable(v) && AllBlank(style.blank)
    ensures Wf(CstOf(v, style)) && Erase(CstOf(v, style)) == v
    decreases v, 0
  {
    hide Points, UnitsOf, PrintPoints, WfUnits, SpellNumber, PrintablePoints;
    match v
    case Null =>
    case Bool(_) =>
    case NonFinite(_) =>
    case Number(_) =>
    case String(ps) => StringOfPoints(ps, style);
    case List(vs) => ListDenoted(vs, style);
    case Object(es) => EntriesDenoted(es, style);
  }

  lemma StringOfPoints(ps: seq<nat>, style: Style)
    requires PrintablePoints(ps)
    ensures WfUnits(UnitsOf(ps, style)) && Points(UnitsOf(ps, style)) == ps
  {
    StringPrinted(ps, style, "");
    StringDenoted(ps, style);
  }

  lemma {:induction false} ListDenoted(vs: seq<Json>, style: Style)
    requires (forall x :: x in vs ==> Printable(x)) && AllBlank(style.blank)
    ensures WfItems(ItemsOf(vs, style)) && EraseItems(ItemsOf(vs, style)) == vs
    decreases vs
  {
    hide Erase, Wf, CstOf;
    if vs != [] {
      assert vs[0] in vs;
      ValueDenoted(vs[0], style);
      ListDenoted(vs[1..], style);
      assert ItemsOf(vs, style)[1..] == ItemsOf(vs[1..], style);
    }
  }

  lemma {:induction false} EntriesDenoted(es: seq<Entry>, style: Style)
    requires (forall e :: e in es ==> PrintablePoints(e.key) && Printable(e.value)) && AllBlank(style.blank)
    ensures WfMembers(MembersOf(es, style)) && EraseMembers(MembersOf(es, style)) == es
    decreases es
  {
    hide Erase, Wf, CstOf, Points, UnitsOf, WfUnits, PrintablePoints;
    if es != [] {
      assert es[0] in es;
      ValueDenoted(es[0].value, style);
      StringOfPoints(es[0].key, style);
      EntriesDenoted(es[1..], style);
      assert MembersOf(es, style)[1..] == MembersOf(es[1..], style);
    }
  }

  // ---------------------------------------------------------------- characters, escapes and numbers

  lemma CharacterClasses(c: char)
    ensures IsBlank(c) <==> c in " \t\n\r"
    ensures IsDigit(c) <==> c in "0123456789"
    ensures IsHexDigit(c) <==> c in "0123456789abcdefABCDEF"
    ensures WfUnit(Short(c)) <==> c in "\"\\/bfnrt"
    ensures WfUnit(Raw(c)) <==> c !in "\"\\" && c as int >= 32
  {
    DigitsListed(c);
  }

  lemma DigitsListed(c: char)
    ensures '0' <= c <= '9' <==> c in "0123456789"
    ensures '0' <= c <= '9' || 'a' <= c <= 'f' || 'A' <= c <= 'F' <==> c in "0123456789abcdefABCDEF"
  {
    if '0' <= c <= '9' {
      assert c == "0123456789"[(c - '0') as int] && c == "0123456789abcdefABCDEF"[(c - '0') as int];
    }
    if 'a' <= c <= 'f' { assert c == "0123456789abcdefABCDEF"[10 + (c - 'a') as int]; }
    if 'A' <= c <= 'F' { assert c == "0123456789abcdefABCDEF"[16 + (c - 'A') as int]; }
  }

  // What each escape denotes.
  lemma EscapesDenote(c: char)
    ensures Points([Raw(c)]) == [c as nat]
    ensures c in "\"\\/" ==> Points([Short(c)]) == [c as nat]
    ensures Points([Short('b')]) == [8] && Points([Short('t')]) == [9] && Points([Short('n')]) == [10]
    ensures Points([Short('f')]) == [12] && Points([Short('r')]) == [13]
  {
    assert forall u: StrUnit :: [u][1..] == [];
  }

  ghost predicate Inside(x: Json, v: Json)
    decreases v
  {
    || x == v
    || (v.List? && exists y | y in v.elements :: Inside(x, y))
    || (v.Object? && exists e | e in v.entries :: Inside(x, e.value))
  }

  // A value is convertible when no number inside it is an integer with more digits than the limit, where
  // a limit of zero allows any number of digits.
  lemma {:induction false} ConvertibleExactly(v: Json, digits: nat)
    ensures Convertible(v, digits) <==> forall x :: Inside(x, v) && x.Number? ==> IntegerFits(x.lexeme, digits)
    decreases v
  {
    match v
    case List(vs) =>
      forall y | y in vs { ConvertibleExactly(y, digits); }
      assert forall y, x :: y in vs && Inside(x, y) ==> Inside(x, v);
    case Object(es) =>
      forall e | e in es { ConvertibleExactly(e.value, digits); }
      assert forall e, x :: e in es && Inside(x, e.value) ==> Inside(x, v);
    case _ =>
  }

  predicate IntegerFits(lexeme: string, digits: nat)
  {
    || digits == 0
    || (exists c :: c in lexeme && c in ".eE")
    || |lexeme| <= (if lexeme != "" && lexeme[0] == '-' then digits + 1 else digits)
  }

  // For a number in its parts: the minus sign does not count as a digit.
  lemma IntegerFitsParts(n: bool, w: string, f: string, e: Exponent, digits: nat)
    requires WfWhole(w) && AllDigits(f) && WfExponent(e)
    ensures IntegerFits(SpellNumber(n, w, f, e, ""), digits) <==>
      digits == 0 || f != "" || e.Exponent? || |w| <= digits
  {
    var lexeme := SpellNumber(n, w, f, e, "");
    var unsigned := w + SpellFraction(f, SpellExponent(e, ""));
    assert unsigned[0] == w[0] && IsDigit(w[0]);
    if f != "" {
      assert unsigned[|w|] == '.';
      assert '.' in unsigned && '.' in lexeme && '.' in ".eE";
    } else if e.Exponent? {
      assert unsigned[|w|] == e.mark;
      assert e.mark in unsigned && e.mark in lexeme && e.mark in ".eE";
    } else {
      assert unsigned == w;
      DigitsOnly(w);
      assert forall c :: c in lexeme ==> c == '-' || IsDigit(c);
    }
  }

  lemma {:induction false} DigitsOnly(w: string)
    requires AllDigits(w)
    ensures forall c :: c in w ==> IsDigit(c)
  {
    if w != "" { DigitsOnly(w[1..]); }
  }

  // No list and no dict inside has more than limit elements.
  lemma {:induction false} WithinExactly(v: Json, limit: int)
    ensures Within(v, limit) <==>
      forall x :: Inside(x, v) ==>
        (x.List? ==> |x.elements| <= limit) && (x.Object? ==> |x.entries| <= limit)
    decreases v
  {
    assert Inside(v, v);
    match v
    case List(vs) =>
      forall y | y in vs { WithinExactly(y, limit); }
      assert forall y, x :: y in vs && Inside(x, y) ==> Inside(x, v);
    case Object(es) =>
      forall e | e in es { WithinExactly(e.value, limit); }
      assert forall e, x :: e in es && Inside(x, e.value) ==> Inside(x, v);
    case _ =>
  }

  // The bounds a caller gets without asking.
  method LoadsByDefault(source: Source) returns (r: LoadResult)
    ensures r == Verdict(source, 32, 10_000, 4300)
  {
    r := BoundedJsonLoads(source);
  }

  // ---------------------------------------------------------------- the gate on printed values

  // What the gate makes of a printed value, in any style: the value itself, its objects turned into dicts,
  // or the first of the three complaints that applies to it.
  lemma PrintedVerdict(v: Json, style: Style, maxDepth: int, maxCollectionLength: int, digits: nat)
    requires Printable(v) && AllBlank(style.blank)
    ensures Verdict(
      Characters(style.blank + Print(v, style, style.blank)), maxDepth, maxCollectionLength, digits) ==
      if Depth(v) > maxDepth then TooDeep(Depth(v))
      else if !Convertible(v, digits) then Malformed
      else if maxCollectionLength > 0 && !Within(Collapse(v), maxCollectionLength) then TooLong
      else Loaded(Collapse(v))
  {
    hide Verdict, Wf, Erase, Print, CstOf, Depth, Convertible, Within, Collapse;
    ValueDenoted(v, style);
    ValuePrinted(v, style, style.blank);
    VerdictOnDocuments(Doc(style.blank, CstOf(v, style), style.blank), maxDepth, maxCollectionLength, digits);
  }

  // Printing and loading again gives the value back.
  lemma PrintedValuesLoad(v: Json, style: Style, maxDepth: int, maxCollectionLength: int, digits: nat)
    requires Printable(v) && AllBlank(style.blank) && DuplicateFree(v) && Convertible(v, digits)
    requires Depth(v) <= maxDepth && (maxCollectionLength > 0 ==> Within(v, maxCollectionLength))
    ensures Verdict(
      Characters(style.blank + Print(v, style, style.blank)), maxDepth, maxCollectionLength, digits) == Loaded(v)
  {
    hide Verdict, Print;
    PrintedVerdict(v, style, maxDepth, maxCollectionLength, digits);
    CollapseKeeps(v);
  }

  // ---------------------------------------------------------------- repeated keys

  ghost predicate HasKey(es: seq<Entry>, k: seq<nat>) { exists i :: 0 <= i < |es| && es[i].key == k }

  // The first and the last entry of es under k.
  ghost function FirstUnder(es: seq<Entry>, k: seq<nat>): (i: nat)
    requires HasKey(es, k)
    ensures i < |es| && es[i].key == k && forall j :: 0 <= j < i ==> es[j].key != k
  {
    if es[0].key == k then 0
    else
      var j :| 0 <= j < |es| && es[j].key == k;
      assert es[1..][j - 1].key == k;
      FirstUnder(es[1..], k) + 1
  }

  ghost function LastUnder(es: seq<Entry>, k: seq<nat>): (i: nat)
    requires HasKey(es, k)
    ensures i < |es| && es[i].key == k && forall j :: i < j < |es| ==> es[j].key != k
  {
    var n := |es| - 1;
    if es[n].key == k then n
    else
      var j :| 0 <= j < |es| && es[j].key == k;
      assert es[..n][j].key == k;
      LastUnder(es[..n], k)
  }

  // The entry under a key holds the value given last and stands where the key first appeared; every key is there.
  ghost predicate IsDictOf(d: seq<Entry>, es: seq<Entry>)
  {
    && (forall k :: HasKey(d, k) <==> HasKey(es, k))
    && (forall p :: 0 <= p < |d| ==>
          HasKey(es, d[p].key) && d[p].value == Collapse(es[LastUnder(es, d[p].key)].value))
    && forall p, q :: 0 <= p < q < |d| ==> FirstUnder(es, d[p].key) < FirstUnder(es, d[q].key)
  }

  lemma {:induction false} PutPlaces(d: seq<Entry>, k: seq<nat>, v: Json) returns (at: nat)
    ensures HasKey(d, k) ==> at < |d| && d[at].key == k && Put(d, k, v) == d[at := Entry(k, v)]
    ensures !HasKey(d, k) ==> Put(d, k, v) == d + [Entry(k, v)]
  {
    hide HasKey;
    HasKeyCons(d, k);
    if d == [] || d[0].key == k {
      at := 0;
    } else {
      at := PutPlaces(d[1..], k, v);
      PutCons(d, k, v, at);
      at := at + 1;
    }
  }

  lemma HasKeyCons(d: seq<Entry>, k: seq<nat>)
    ensures HasKey(d, k) <==> d != [] && (d[0].key == k || HasKey(d[1..], k))
  {
    if HasKey(d, k) {
      var j :| 0 <= j < |d| && d[j].key == k;
      assert j > 0 ==> d[1..][j - 1].key == k;
    }
    if d != [] && HasKey(d[1..], k) {
      var j :| 0 <= j < |d[1..]| && d[1..][j].key == k;
      assert d[j + 1].key == k;
    }
  }

  lemma PutCons(d: seq<Entry>, k: seq<nat>, v: Json, at: nat)
    requires d != [] && d[0].key != k
    ensures at < |d| - 1 && Put(d[1..], k, v) == d[1..][at := Entry(k, v)] ==>
      Put(d, k, v) == d[at + 1 := Entry(k, v)]
    ensures Put(d[1..], k, v) == d[1..] + [Entry(k, v)] ==> Put(d, k, v) == d + [Entry(k, v)]
  {
    assert Put(d, k, v) == [d[0]] + Put(d[1..], k, v);
    assert d == [d[0]] + d[1..];
  }

  lemma KeysOneMore(es: seq<Entry>, e: Entry)
    ensures forall k :: HasKey(es + [e], k) <==> HasKey(es, k) || k == e.key
  {
    var all := es + [e];
    assert all[|es|] == e;
    forall k | HasKey(es, k) ensures HasKey(all, k) {
      var i :| 0 <= i < |es| && es[i].key == k;
      assert all[i].key == k;
    }
  }

  lemma FirstOneMore(es: seq<Entry>, e: Entry, k: seq<nat>)
    requires HasKey(es + [e], k)
    ensures FirstUnder(es + [e], k) == if HasKey(es, k) then FirstUnder(es, k) else |es|
  {
    var all := es + [e];
    var i := FirstUnder(all, k);
    assert i < |es| ==> es[i].key == k;
    if HasKey(es, k) {
      var j := FirstUnder(es, k);
      assert all[j].key == k;
    }
  }

  lemma LastOneMore(es: seq<Entry>, e: Entry, k: seq<nat>)
    requires HasKey(es + [e], k)
    ensures LastUnder(es + [e], k) == if k == e.key then |es| else LastUnder(es, k)
  {
    var all := es + [e];
    KeysOneMore(es, e);
    assert all[|es|] == e;
    if k != e.key {
      var j := LastUnder(es, k);
      assert all[j].key == k;
    }
  }

  // A dict keeps, for each key, the value given last at the place of the first.
  lemma {:induction false} DictKeepsLastAtFirst(es: seq<Entry>)
    ensures IsDictOf(DictOf(es), es)
    decreases es
  {
    if es != [] {
      var front, last := es[..|es| - 1], es[|es| - 1];
      assert es == front + [last];
      DictKeepsLastAtFirst(front);
      DictOneMore(DictOf(front), front, last);
    }
  }

  lemma DictOneMore(d: seq<Entry>, es: seq<Entry>, e: Entry)
    requires IsDictOf(d, es)
    ensures IsDictOf(Put(d, e.key, Collapse(e.value)), es + [e])
  {
    hide HasKey, FirstUnder, LastUnder, IsDictOf;
    var at := PutPlaces(d, e.key, Collapse(e.value));
    PlacesOneMore(es, e);
    if HasKey(d, e.key) {
      KeysAfterPut(d, e.key, Collapse(e.value));
      DictReplaced(d, es, e, at);
    } else {
      KeysOneMore(d, Entry(e.key, Collapse(e.value)));
      DictAppended(d, es, e);
    }
  }

  lemma PlacesOneMore(es: seq<Entry>, e: Entry)
    ensures forall k :: HasKey(es + [e], k) <==> HasKey(es, k) || k == e.key
    ensures forall k :: HasKey(es + [e], k) ==>
      FirstUnder(es + [e], k) == if HasKey(es, k) then FirstUnder(es, k) else |es|
    ensures forall k :: HasKey(es + [e], k) ==>
      LastUnder(es + [e], k) == if k == e.key then |es| else LastUnder(es, k)
  {
    hide HasKey, FirstUnder, LastUnder;
    KeysOneMore(es, e);
    forall k | HasKey(es + [e], k) {
      FirstOneMore(es, e, k);
    }
    forall k | HasKey(es + [e], k) {
      LastOneMore(es, e, k);
    }
  }

  lemma DictReplaced(d: seq<Entry>, es: seq<Entry>, e: Entry, at: nat)
    requires IsDictOf(d, es) && at < |d| && d[at].key == e.key
    requires forall x :: HasKey(d[at := Entry(e.key, Collapse(e.value))], x) <==> HasKey(d, x) || x == e.key
    requires forall k :: HasKey(es + [e], k) <==> HasKey(es, k) || k == e.key
    requires forall k :: HasKey(es + [e], k) ==>
      FirstUnder(es + [e], k) == if HasKey(es, k) then FirstUnder(es, k) else |es|
    requires forall k :: HasKey(es + [e], k) ==>
      LastUnder(es + [e], k) == if k == e.key then |es| else LastUnder(es, k)
    ensures IsDictOf(d[at := Entry(e.key, Collapse(e.value))], es + [e])
  {
    hide HasKey, FirstUnder, LastUnder;
    var d', all := d[at := Entry(e.key, Collapse(e.value))], es + [e];
    ReplacedValues(d, es, e, at);
    KeysOfDict(d, es);
    hide IsDictOf, Collapse;
    forall p, q | 0 <= p < q < |d'| ensures FirstUnder(all, d'[p].key) < FirstUnder(all, d'[q].key) {
      assert d'[p].key == d[p].key && d'[q].key == d[q].key;
      DictOrder(d, es, p, q);
    }
    DictFormed(d', all);
  }

  lemma DictFormed(d: seq<Entry>, es: seq<Entry>)
    requires forall k :: HasKey(d, k) <==> HasKey(es, k)
    requires forall p :: 0 <= p < |d| ==>
      HasKey(es, d[p].key) && d[p].value == Collapse(es[LastUnder(es, d[p].key)].value)
    requires forall p, q :: 0 <= p < q < |d| ==> FirstUnder(es, d[p].key) < FirstUnder(es, d[q].key)
    ensures IsDictOf(d, es)
  {
  }

  lemma KeysOfDict(d: seq<Entry>, es: seq<Entry>)
    requires IsDictOf(d, es)
    ensures forall k :: HasKey(d, k) <==> HasKey(es, k)
  {
  }

  lemma DictOrder(d: seq<Entry>, es: seq<Entry>, p: nat, q: nat)
    requires IsDictOf(d, es) && p < q < |d|
    ensures HasKey(es, d[p].key) && HasKey(es, d[q].key) && FirstUnder(es, d[p].key) < FirstUnder(es, d[q].key)
  {
  }

  lemma ReplacedValues(d: seq<Entry>, es: seq<Entry>, e: Entry, at: nat)
    requires IsDictOf(d, es) && at < |d| && d[at].key == e.key
    requires forall k :: HasKey(es + [e], k) <==> HasKey(es, k) || k == e.key
    requires forall k :: HasKey(es + [e], k) ==>
      LastUnder(es + [e], k) == if k == e.key then |es| else LastUnder(es, k)
    ensures var d', all := d[at := Entry(e.key, Collapse(e.value))], es + [e];
      forall p :: 0 <= p < |d'| ==>
        HasKey(all, d'[p].key) && d'[p].value == Collapse(all[LastUnder(all, d'[p].key)].value)
  {
    hide HasKey, FirstUnder, LastUnder;
    var d', all := d[at := Entry(e.key, Collapse(e.value))], es + [e];
    UniquePlace(d, es, at);
    hide IsDictOf;
    assert all[|es|] == e;
    forall p | 0 <= p < |d'|
      ensures HasKey(all, d'[p].key) && d'[p].value == Collapse(all[LastUnder(all, d'[p].key)].value)
    {
      assert d'[p].key == d[p].key;
      if p != at { DictEntry(d, es, p); }
    }
  }

  lemma DictEntry(d: seq<Entry>, es: seq<Entry>, p: nat)
    requires IsDictOf(d, es) && p < |d|
    ensures HasKey(es, d[p].key) && d[p].value == Collapse(es[LastUnder(es, d[p].key)].value)
  {
  }

  lemma DictAppended(d: seq<Entry>, es: seq<Entry>, e: Entry)
    requires IsDictOf(d, es) && !HasKey(d, e.key)
    requires forall x :: HasKey(d + [Entry(e.key, Collapse(e.value))], x) <==> HasKey(d, x) || x == e.key
    requires forall k :: HasKey(es + [e], k) <==> HasKey(es, k) || k == e.key
    requires forall k :: HasKey(es + [e], k) ==>
      FirstUnder(es + [e], k) == if HasKey(es, k) then FirstUnder(es, k) else |es|
    requires forall k :: HasKey(es + [e], k) ==>
      LastUnder(es + [e], k) == if k == e.key then |es| else LastUnder(es, k)
    ensures IsDictOf(d + [Entry(e.key, Collapse(e.value))], es + [e])
  {
    hide HasKey, FirstUnder, LastUnder, IsDictOf, Collapse;
    var d', all := d + [Entry(e.key, Collapse(e.value))], es + [e];
    assert all[|es|] == e;
    KeysOfDict(d, es);
    forall p | 0 <= p < |d|
      ensures d'[p] == d[p] && d[p].key != e.key && HasKey(es, d[p].key)
      ensures d[p].value == Collapse(es[LastUnder(es, d[p].key)].value)
    {
      AtIsKey(d, p);
      DictEntry(d, es, p);
    }
    forall p, q | 0 <= p < q < |d'| ensures FirstUnder(all, d'[p].key) < FirstUnder(all, d'[q].key) {
      assert HasKey(es, d[p].key);
      if q < |d| { DictOrder(d, es, p, q); }
    }
    DictFormed(d', all);
  }

  lemma AtIsKey(d: seq<Entry>, p: nat)
    requires p < |d|
    ensures HasKey(d, d[p].key)
  {
  }

  lemma KeysAfterPut(d: seq<Entry>, k: seq<nat>, v: Json)
    ensures forall x :: HasKey(Put(d, k, v), x) <==> HasKey(d, x) || x == k
  {
    var at := PutPlaces(d, k, v);
    var d' := Put(d, k, v);
    if HasKey(d, k) {
      forall x ensures HasKey(d', x) <==> HasKey(d, x) {
        assert forall i :: 0 <= i < |d| ==> d'[i].key == d[i].key;
      }
    } else {
      KeysOneMore(d, Entry(k, v));
    }
  }

  lemma UniquePlace(d: seq<Entry>, es: seq<Entry>, at: nat)
    requires IsDictOf(d, es) && at < |d|
    ensures forall p :: 0 <= p < |d| && p != at ==> d[p].key != d[at].key
  {
  }
}
