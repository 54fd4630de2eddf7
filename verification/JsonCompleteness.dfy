// Completeness of the decoder: every spelling of a well-formed document, whatever blanks and escapes
// it uses, is decoded back to exactly that document.
module JsonCompleteness {
  import opened JsonSyntax
  import opened JsonDecoder
  import opened JsonSoundness

  // ---------------------------------------------------------------- lexers

  lemma {:induction false} BlanksBack(b: string, t: string)
    requires AllBlank(b) && (t == "" || !IsBlank(t[0]))
    ensures Blanks(b + t) == Cut(b, t)
  {
    if b == "" {
      assert b + t == t;
    } else {
      BlanksBack(b[1..], t);
      assert (b + t)[1..] == b[1..] + t && (b + t)[0] == b[0];
      assert [b[0]] + b[1..] == b;
    }
  }

  lemma {:induction false} DigitsBack(b: string, t: string)
    requires AllDigits(b) && (t == "" || !IsDigit(t[0]))
    ensures Digits(b + t) == Cut(b, t)
  {
    if b == "" {
      assert b + t == t;
    } else {
      DigitsBack(b[1..], t);
      assert (b + t)[1..] == b[1..] + t && (b + t)[0] == b[0];
      assert [b[0]] + b[1..] == b;
    }
  }

  lemma UnitBack(u: StrUnit, t: string)
    requires WfUnit(u)
    ensures UnitAt(SpellUnit(u, t)) == OneUnit(u, t) && !StartsWith(SpellUnit(u, t), '"')
  {
    var s := SpellUnit(u, t);
    match u
    case Raw(c) => assert s[1..] == t;
    case Short(c) => assert s[2..] == t;
    case Hex(_, _, _, _) => assert s[6..] == t;
  }

  lemma {:induction false} StringBack(us: seq<StrUnit>, t: string)
    requires WfUnits(us)
    ensures LexString(SpellUnits(us, ['"'] + t)) == Closed(us, t)
  {
    if us == [] {
      assert (['"'] + t)[1..] == t;
    } else {
      UnitBack(us[0], SpellUnits(us[1..], ['"'] + t));
      StringBack(us[1..], t);
      assert [us[0]] + us[1..] == us;
    }
  }

  lemma WordBack(w: Keyword, t: string)
    ensures WordAt(SpellWord(w, t)) == OneWord(w, t)
    ensures var s := SpellWord(w, t);
      && s != "" && !IsBlank(s[0])
      && s[0] != '"' && s[0] != '[' && s[0] != '{' && s[0] != ']' && s[0] != '}'
  {
    var s := SpellWord(w, t);
    assert s[WordLength(w)..] == t;
    assert Has(s, w);
  }

  // What may follow a value inside a document.
  predicate Follows(t: string)
  {
    t == "" || IsBlank(t[0]) || t[0] == ',' || t[0] == ']' || t[0] == '}'
  }

  predicate EndsNumber(t: string) { t == "" || (!IsDigit(t[0]) && t[0] != '.' && t[0] != 'e' && t[0] != 'E') }

  lemma ExponentBack(e: Exponent, t: string)
    requires WfExponent(e) && EndsNumber(t)
    ensures ExponentAt(SpellExponent(e, t)) == ExponentLex(e, t)
    ensures var x := SpellExponent(e, t); x == "" || (!IsDigit(x[0]) && x[0] != '.')
  {
    hide SpellFraction, Digits;
    if e.Exponent? {
      var y := e.digits + t;
      var s := SpellExponent(e, t);
      assert s[1..] == e.sign + y && s[0] == e.mark;
      DigitsBack(e.digits, t);
      assert y[0] == e.digits[0];
      if e.sign == "" {
        assert e.sign + y == y;
      } else {
        assert (e.sign + y)[0] == e.sign[0] && (e.sign + y)[1..] == y;
      }
      assert SignAt(s[1..]) == Cut(e.sign, y);
    }
  }

  lemma FractionBack(f: string, x: string)
    requires AllDigits(f) && (x == "" || (!IsDigit(x[0]) && x[0] != '.'))
    ensures FractionAt(SpellFraction(f, x)) == Cut(f, x)
    ensures var y := SpellFraction(f, x); y == "" || !IsDigit(y[0])
  {
    if f != "" {
      DigitsBack(f, x);
      assert (['.'] + (f + x))[1..] == f + x;
    }
  }

  lemma WholeBack(w: string, y: string)
    requires WfWhole(w) && (y == "" || !IsDigit(y[0]))
    ensures WholeAt(w + y) == Cut(w, y) && w + y != "" && IsDigit((w + y)[0])
  {
    assert (w + y)[0] == w[0];
    if w[0] == '0' {
      assert w == "0" && (w + y)[1..] == y;
    } else {
      DigitsBack(w, y);
    }
  }

  lemma NumberBack(n: bool, w: string, f: string, e: Exponent, t: string)
    requires WfWhole(w) && AllDigits(f) && WfExponent(e) && EndsNumber(t)
    ensures var s := SpellNumber(n, w, f, e, t);
      && NumberAt(s) == IsNumber(n, w, f, e, t)
      && s != "" && (IsDigit(s[0]) || s[0] == '-') && WordAt(s).NoWord?
  {
    hide Digits, WholeAt, FractionAt, ExponentAt, SpellFraction, SpellExponent;
    ExponentBack(e, t);
    FractionBack(f, SpellExponent(e, t));
    var u := w + SpellFraction(f, SpellExponent(e, t));
    WholeBack(w, SpellFraction(f, SpellExponent(e, t)));
    var s := SpellNumber(n, w, f, e, t);
    if n {
      assert s[1..] == u && s[0] == '-' && s[1] == u[0];
    } else {
      assert s == u;
    }
  }

  // ---------------------------------------------------------------- values

  ghost predicate Back<T>(r: Parsed<T>, x: T, t: string) { r.Ok? && r.value == x && r.rest == t }

  lemma HeadOfValue(c: Cst, t: string)
    requires Wf(c) && Follows(t)
    ensures var s := Spell(c, t); s != "" && !IsBlank(s[0]) && s[0] != ']' && s[0] != '}'
  {
    match c
    case Word(w) => WordBack(w, t);
    case Num(n, w, f, e) => NumberBack(n, w, f, e, t);
    case Str(_) =>
    case Arr(_, _) =>
    case Obj(_, _) =>
  }

  lemma {:induction false} ValueBack(c: Cst, t: string, d: nat)
    requires Wf(c) && Follows(t)
    ensures Back(ParseValue(Spell(c, t), d), c, t)
    decreases c, 0
  {
    hide SpellUnits, SpellWord, SpellNumber, SpellItems, SpellMembers;
    hide ParseArray, ParseObject, LexString, WordAt, NumberAt;
    var s := Spell(c, t);
    match c
    case Word(w) =>
      WordBack(w, t);
    case Num(n, w, f, e) =>
      NumberBack(n, w, f, e, t);
    case Str(us) =>
      StringBack(us, t);
      assert s[1..] == SpellUnits(us, ['"'] + t);
    case Arr(pad, items) =>
      ArrayBack(pad, items, t, d + 1);
    case Obj(pad, ms) =>
      ObjectBack(pad, ms, t, d + 1);
  }

  function ArrayTail(pad: string, items: seq<Item>, t: string): string
  {
    if items == [] then pad + ([']'] + t) else SpellItems(items, t)
  }

  lemma {:induction false} ArrayBack(pad: string, items: seq<Item>, t: string, d: nat)
    requires AllBlank(pad) && (items == [] || pad == "") && WfItems(items)
    ensures Back(ParseArray(ArrayTail(pad, items, t), d), Arr(pad, items), t)
    ensures (['['] + ArrayTail(pad, items, t))[1..] == ArrayTail(pad, items, t)
    decreases items, 1
  {
    hide Spell, Blanks, ParseItems;
    if items == [] {
      BlanksBack(pad, [']'] + t);
      assert ([']'] + t)[1..] == t;
    } else {
      ItemsBack(items, t, d);
    }
  }

  lemma {:induction false} ItemsBack(items: seq<Item>, t: string, d: nat)
    requires items != [] && WfItems(items)
    ensures Back(ParseItems(SpellItems(items, t), d), items, t)
    ensures !StartsWith(Blanks(SpellItems(items, t)).rest, ']')
    decreases items, 0
  {
    hide Spell, Blanks, ParseValue, AllBlank, Wf;
    var i := items[0];
    var rest := items[1..];
    var tail := if |items| == 1 then [']'] + t else [','] + SpellItems(rest, t);
    FollowsBlank(i.post, tail);
    HeadOfValue(i.value, i.post + tail);
    BlanksBack(i.pre, Spell(i.value, i.post + tail));
    ValueBack(i.value, i.post + tail, d);
    BlanksBack(i.post, tail);
    assert i == Item(i.pre, i.value, i.post);
    if |items| == 1 {
      assert tail[1..] == t && items == [i];
    } else {
      assert tail[1..] == SpellItems(rest, t) && items == [i] + rest;
      ItemsBack(rest, t, d);
    }
  }

  lemma FollowsBlank(post: string, tail: string)
    requires AllBlank(post) && Follows(tail)
    ensures Follows(post + tail)
  {
    if post == "" {
      assert post + tail == tail;
    } else {
      assert (post + tail)[0] == post[0];
    }
  }

  function ObjectTail(pad: string, ms: seq<Member>, t: string): string
  {
    if ms == [] then pad + (['}'] + t) else SpellMembers(ms, t)
  }

  lemma {:induction false} ObjectBack(pad: string, ms: seq<Member>, t: string, d: nat)
    requires AllBlank(pad) && (ms == [] || pad == "") && WfMembers(ms)
    ensures Back(ParseObject(ObjectTail(pad, ms, t), d), Obj(pad, ms), t)
    ensures (['{'] + ObjectTail(pad, ms, t))[1..] == ObjectTail(pad, ms, t)
    decreases ms, 1
  {
    hide Spell, Blanks, ParseMembers;
    if ms == [] {
      BlanksBack(pad, ['}'] + t);
      assert (['}'] + t)[1..] == t;
    } else {
      MembersBack(ms, t, d);
    }
  }

  lemma HeadBack(h: Head, t: string, d: nat)
    requires AllBlank(h.pre) && WfUnits(h.key) && AllBlank(h.mid) && AllBlank(h.gap)
    requires t != "" && !IsBlank(t[0])
    ensures Back(ParseHead(SpellHead(h.pre, h.key, h.mid, h.gap, t), d), h, t)
    ensures !StartsWith(Blanks(SpellHead(h.pre, h.key, h.mid, h.gap, t)).rest, '}')
  {
    hide Blanks, LexString, SpellUnits, AllBlank, WfUnits;
    var x := [':'] + (h.gap + t);
    var y := SpellUnits(h.key, ['"'] + (h.mid + x));
    BlanksBack(h.pre, ['"'] + y);
    assert (['"'] + y)[1..] == y;
    StringBack(h.key, h.mid + x);
    BlanksBack(h.mid, x);
    assert x[1..] == h.gap + t;
    BlanksBack(h.gap, t);
  }

  lemma {:induction false} MembersBack(ms: seq<Member>, t: string, d: nat)
    requires ms != [] && WfMembers(ms)
    ensures Back(ParseMembers(SpellMembers(ms, t), d), ms, t)
    ensures !StartsWith(Blanks(SpellMembers(ms, t)).rest, '}')
    decreases ms, 0
  {
    hide Spell, Blanks, ParseValue, ParseHead, SpellHead, AllBlank, Wf, WfUnits;
    var m := ms[0];
    var rest := ms[1..];
    var tail := if |ms| == 1 then ['}'] + t else [','] + SpellMembers(rest, t);
    FollowsBlank(m.post, tail);
    HeadOfValue(m.value, m.post + tail);
    HeadBack(Head(m.pre, m.key, m.mid, m.gap), Spell(m.value, m.post + tail), d);
    ValueBack(m.value, m.post + tail, d);
    BlanksBack(m.post, tail);
    assert m == Member(m.pre, m.key, m.mid, m.gap, m.value, m.post);
    if |ms| == 1 {
      assert tail[1..] == t && ms == [m];
    } else {
      assert tail[1..] == SpellMembers(rest, t) && ms == [m] + rest;
      MembersBack(rest, t, d);
    }
  }

  // ---------------------------------------------------------------- documents

  // Decoding undoes spelling.
  lemma DecodeSpelled(doc: Doc)
    requires WfDoc(doc)
    ensures Decode(DocText(doc)) == Ok(doc, "", Depth(Erase(doc.value)))
  {
    hide Spell, Blanks, ParseValue, Wf, AllBlank, Erase, Depth;
    assert Follows(doc.after) by { FollowsBlank(doc.after, ""); assert doc.after + "" == doc.after; }
    HeadOfValue(doc.value, doc.after);
    BlanksBack(doc.before, Spell(doc.value, doc.after));
    ValueBack(doc.value, doc.after, 0);
    BlanksBack(doc.after, "");
    assert doc.after + "" == doc.after;
    DecodeIsSound(DocText(doc));
  }

  // The decoder accepts exactly the spellings of well-formed documents, and each text spells at most one.
  lemma AcceptsExactlyDocuments(text: string)
    ensures Decode(text).Ok? <==> exists doc :: WfDoc(doc) && DocText(doc) == text
    ensures forall doc :: WfDoc(doc) && DocText(doc) == text ==> Decode(text) == Ok(doc, "", Depth(Erase(doc.value)))
  {
    DecodeIsSound(text);
    forall doc | WfDoc(doc) && DocText(doc) == text
      ensures Decode(text) == Ok(doc, "", Depth(Erase(doc.value)))
    {
      DecodeSpelled(doc);
    }
    if Decode(text).Ok? {
      assert WfDoc(Decode(text).value);
    }
  }
}
