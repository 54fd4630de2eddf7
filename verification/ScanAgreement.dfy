// The bracket scanner against the decoder: on everything the decoder accepts, well-formed text or not,
// the two agree on string mode and on the number of open brackets, so the scanner's
// figure is never below the nesting the decoder reaches, and equals it on documents.
module ScanAgreement {
  import opened JsonSyntax
  import opened JsonDecoder
  import opened JsonSoundness
  import opened BracketScan

  // ---------------------------------------------------------------- well-formed pieces

  lemma {:induction false} ScanUnits(us: seq<StrUnit>, t: string, q: Conf)
    requires WfUnits(us) && q.inString
    ensures Scan(SpellUnits(us, t), q) == Scan(t, q)
  {
    hide Points;
    if us != [] {
      var t' := SpellUnits(us[1..], t);
      var s := SpellUnit(us[0], t');
      ScanUnits(us[1..], t, q);
      assert Drop(s, Stride(s, true)) == t' by {
        match us[0]
        case Raw(c) => assert s[1..] == t';
        case Short(c) => assert s[2..] == t';
        case Hex(_, _, _, _) => assert s[6..] == t';
      }
      assert Step(s, q) == q;
    }
  }

  lemma ScanString(us: seq<StrUnit>, t: string, q: Conf)
    requires WfUnits(us) && !q.inString
    ensures Scan(SpellString(us, t), q) == Scan(t, q)
  {
    var q' := q.(inString := true);
    ScanOne('"', SpellUnits(us, ['"'] + t), q);
    ScanUnits(us, ['"'] + t, q');
    assert Drop(['"'] + t, 1) == t;
  }

  // A literal cut off by an error leaves the scanner in string mode.
  lemma ScanOpenString(us: seq<StrUnit>, t: string, q: Conf)
    requires WfUnits(us) && !q.inString
    ensures Scan((['"'] + SpellUnits(us, "")) + t, q) == Scan(t, q.(inString := true))
  {
    UnitsAppend(us, "", t);
    assert "" + t == t;
    Assoc(['"'], SpellUnits(us, ""), t);
    ScanOne('"', SpellUnits(us, t), q);
    ScanUnits(us, t, q.(inString := true));
  }

  lemma ScanNumber(n: bool, w: string, f: string, e: Exponent, t: string, q: Conf)
    requires WfWhole(w) && AllDigits(f) && WfExponent(e) && !q.inString
    ensures Scan(SpellNumber(n, w, f, e, t), q) == Scan(t, q)
  {
    hide Scan;
    DigitsAreQuiet(w);
    DigitsAreQuiet(f);
    if e.Exponent? {
      DigitsAreQuiet(e.digits);
      ScanQuiet(e.digits, t, q);
      ScanQuiet(e.sign, e.digits + t, q);
      ScanOne(e.mark, e.sign + (e.digits + t), q);
    }
    var x := SpellExponent(e, t);
    ScanQuiet(f, x, q);
    ScanOne('.', f + x, q);
    var y := SpellFraction(f, x);
    ScanQuiet(w, y, q);
    ScanOne('-', w + y, q);
  }

  lemma ScanLetters(s: string, t: string, q: Conf)
    requires !q.inString && forall i :: 0 <= i < |s| ==> IsQuiet(s[i])
    ensures Scan(s + t, q) == Scan(t, q)
  {
    QuietEverywhere(s);
    ScanQuiet(s, t, q);
  }

  lemma {:induction false} QuietEverywhere(s: string)
    requires forall i :: 0 <= i < |s| ==> IsQuiet(s[i])
    ensures Quiet(s)
  {
    if s != "" { QuietEverywhere(s[1..]); }
  }

  lemma ScanWord(w: Keyword, t: string, q: Conf)
    requires !q.inString
    ensures Scan(SpellWord(w, t), q) == Scan(t, q)
  {
    match w
    case NullWord => ScanLetters(['n', 'u', 'l', 'l'], t, q);
    case TrueWord => ScanLetters(['t', 'r', 'u', 'e'], t, q);
    case FalseWord => ScanLetters(['f', 'a', 'l', 's', 'e'], t, q);
    case NaN => ScanLetters(['N', 'a', 'N'], t, q);
    case Infinity => ScanLetters(['I', 'n', 'f', 'i', 'n', 'i', 't', 'y'], t, q);
    case MinusInfinity => ScanLetters(['-', 'I', 'n', 'f', 'i', 'n', 'i', 't', 'y'], t, q);
  }

  // Scanning a value from d open brackets comes back to d, having seen d plus the value's depth.
  lemma {:induction false} ScanValue(c: Cst, t: string, d: nat, m: nat)
    requires Wf(c) && m >= d
    ensures Scan(Spell(c, t), Conf(false, d, m)) == Scan(t, Conf(false, d, Max(m, d + Depth(Erase(c)))))
    decreases c, 0
  {
    hide Scan, SpellItems, SpellMembers, SpellWord, SpellNumber, SpellString, AllBlank;
    var q := Conf(false, d, m);
    var q' := Conf(false, d + 1, Max(m, d + 1));
    match c
    case Word(w) => ScanWord(w, t, q);
    case Num(n, w, f, e) => ScanNumber(n, w, f, e, t, q);
    case Str(us) => ScanString(us, t, q);
    case Arr(pad, items) =>
      if items == [] {
        ScanOne('[', pad + ([']'] + t), q);
        ScanBlank(pad, [']'] + t, q');
        ScanOne(']', t, q');
      } else {
        ScanOne('[', SpellItems(items, t), q);
        ScanItems(items, t, d + 1, Max(m, d + 1));
      }
    case Obj(pad, ms) =>
      if ms == [] {
        ScanOne('{', pad + (['}'] + t), q);
        ScanBlank(pad, ['}'] + t, q');
        ScanOne('}', t, q');
      } else {
        ScanOne('{', SpellMembers(ms, t), q);
        ScanMembers(ms, t, d + 1, Max(m, d + 1));
      }
  }

  lemma ScanItem(i: Item, t: string, d: nat, m: nat)
    requires AllBlank(i.pre) && Wf(i.value) && AllBlank(i.post) && m >= d
    ensures Scan(SpellItem(i, t), Conf(false, d, m)) == Scan(t, Conf(false, d, Max(m, d + Depth(Erase(i.value)))))
    decreases i
  {
    hide Scan, Spell, Wf, Erase, Depth, AllBlank;
    ScanBlank(i.pre, Spell(i.value, i.post + t), Conf(false, d, m));
    ScanValue(i.value, i.post + t, d, m);
    ScanBlank(i.post, t, Conf(false, d, Max(m, d + Depth(Erase(i.value)))));
  }

  lemma {:induction false} ScanItems(items: seq<Item>, t: string, d: nat, m: nat)
    requires items != [] && WfItems(items) && m >= d > 0
    ensures Scan(SpellItems(items, t), Conf(false, d, m)) ==
            Scan(t, Conf(false, d - 1, Max(m, d + DepthAll(EraseItems(items)))))
    decreases items
  {
    hide Scan, SpellItem, SpellItems, Wf, Erase, Depth, AllBlank;
    var m' := Max(m, d + Depth(Erase(items[0].value)));
    var rest := items[1..];
    ItemsCons(items[0], rest, t);
    assert [items[0]] + rest == items;
    ScanItem(items[0], if rest == [] then [']'] + t else [','] + SpellItems(rest, t), d, m);
    if rest == [] {
      ScanOne(']', t, Conf(false, d, m'));
    } else {
      ScanOne(',', SpellItems(rest, t), Conf(false, d, m'));
      ScanItems(rest, t, d, m');
    }
  }

  lemma ScanHead(pre: string, key: seq<StrUnit>, mid: string, gap: string, t: string, q: Conf)
    requires AllBlank(pre) && WfUnits(key) && AllBlank(mid) && AllBlank(gap) && !q.inString
    ensures Scan(SpellHead(pre, key, mid, gap, t), q) == Scan(t, q)
  {
    ScanBlank(pre, SpellString(key, mid + ([':'] + (gap + t))), q);
    ScanString(key, mid + ([':'] + (gap + t)), q);
    ScanBlank(mid, [':'] + (gap + t), q);
    ScanOne(':', gap + t, q);
    ScanBlank(gap, t, q);
  }

  lemma ScanMember(x: Member, t: string, d: nat, m: nat)
    requires AllBlank(x.pre) && WfUnits(x.key) && AllBlank(x.mid) && AllBlank(x.gap) && Wf(x.value) && AllBlank(x.post)
    requires m >= d
    ensures Scan(SpellMember(x, t), Conf(false, d, m)) == Scan(t, Conf(false, d, Max(m, d + Depth(Erase(x.value)))))
    decreases x
  {
    hide Scan, Spell, SpellHead, Wf, Erase, Depth, AllBlank, WfUnits;
    ScanHead(x.pre, x.key, x.mid, x.gap, Spell(x.value, x.post + t), Conf(false, d, m));
    ScanValue(x.value, x.post + t, d, m);
    ScanBlank(x.post, t, Conf(false, d, Max(m, d + Depth(Erase(x.value)))));
  }

  lemma {:induction false} ScanMembers(ms: seq<Member>, t: string, d: nat, m: nat)
    requires ms != [] && WfMembers(ms) && m >= d > 0
    ensures Scan(SpellMembers(ms, t), Conf(false, d, m)) ==
            Scan(t, Conf(false, d - 1, Max(m, d + DepthEntries(EraseMembers(ms)))))
    decreases ms
  {
    hide Scan, SpellMember, SpellMembers, Wf, Erase, Depth, AllBlank, WfUnits;
    var m' := Max(m, d + Depth(Erase(ms[0].value)));
    var rest := ms[1..];
    MembersCons(ms[0], rest, t);
    assert [ms[0]] + rest == ms;
    ScanMember(ms[0], if rest == [] then ['}'] + t else [','] + SpellMembers(rest, t), d, m);
    if rest == [] {
      ScanOne('}', t, Conf(false, d, m'));
    } else {
      ScanOne(',', SpellMembers(rest, t), Conf(false, d, m'));
      ScanMembers(rest, t, d, m');
    }
  }

  // ---------------------------------------------------------------- failures

  // After the accepted part of a failed parse, whatever follows, the scanner is in the decoder's
  // string mode, at the decoder's nesting, and has seen exactly the decoder's deepest level.
  ghost predicate Agrees<T>(r: Parsed<T>, t: string, d: nat, m: nat)
  {
    r.Fail? ==>
      Scan(r.consumed + t, Conf(false, d, m)) == Scan(t, Conf(r.inString, r.nesting, Max(m, r.deepest)))
  }

  lemma {:induction false} FailedValueAgrees(s: string, t: string, d: nat, m: nat)
    requires m >= d
    ensures Agrees(ParseValue(s, d), t, d, m)
    decreases |s|, 0
  {
    hide Scan, ParseArray, ParseObject, LexString, SpellUnits;
    assert "" + t == t;
    if s != "" {
      if s[0] == '"' {
        var lex := LexString(s[1..]);
        ScanOpenString(lex.units, t, Conf(false, d, m));
      } else if s[0] == '[' {
        FailedArrayAgrees(s[1..], t, d + 1, Max(m, d + 1));
        ArrayIsSound(s[1..], d + 1);
        FailedBodyAgrees('[', ParseArray(s[1..], d + 1), t, d, m);
      } else if s[0] == '{' {
        FailedObjectAgrees(s[1..], t, d + 1, Max(m, d + 1));
        ObjectIsSound(s[1..], d + 1);
        FailedBodyAgrees('{', ParseObject(s[1..], d + 1), t, d, m);
      }
    }
  }

  lemma FailedBodyAgrees(open: char, r: Parsed<Cst>, t: string, d: nat, m: nat)
    requires m >= d && (open == '[' || open == '{')
    requires r.Fail? ==> r.deepest >= d + 1
    requires Agrees(r, t, d + 1, Max(m, d + 1))
    ensures Agrees(After(open, r), t, d, m)
  {
    hide Scan;
    if r.Fail? {
      Assoc([open], r.consumed, t);
      ScanOne(open, r.consumed + t, Conf(false, d, m));
    }
  }

  lemma {:induction false} FailedArrayAgrees(s: string, t: string, d: nat, m: nat)
    requires m >= d > 0
    ensures Agrees(ParseArray(s, d), t, d, m)
    decreases |s|, 2
  {
    if !StartsWith(Blanks(s).rest, ']') {
      FailedItemsAgree(s, t, d, m);
    }
  }

  lemma {:induction false} FailedItemsAgree(s: string, t: string, d: nat, m: nat)
    requires m >= d > 0
    ensures Agrees(ParseItems(s, d), t, d, m)
    decreases |s|, 1
  {
    hide Scan, ParseValue, Blanks, Spell, SpellItem, Wf, Erase, Depth, AllBlank;
    var pre := Blanks(s);
    FailedValueAgrees(pre.rest, t, d, m);
    ValueIsSound(pre.rest, d);
    var r := ParseValue(pre.rest, d);
    if r.Fail? {
      Assoc(pre.front, r.consumed, t);
      ScanBlank(pre.front, r.consumed + t, Conf(false, d, m));
    } else {
      var post := Blanks(r.rest);
      var item := Item(pre.front, r.value, post.front);
      var m' := Max(m, r.deepest);
      if StartsWith(post.rest, ',') {
        var r' := ParseItems(post.rest[1..], d);
        if r'.Fail? {
          FailedItemsAgree(post.rest[1..], t, d, m');
          Assoc([','], r'.consumed, t);
          ItemAppend(item, [','] + r'.consumed, t);
          ScanItem(item, [','] + (r'.consumed + t), d, m);
          ScanOne(',', r'.consumed + t, Conf(false, d, m'));
        }
      } else if !StartsWith(post.rest, ']') {
        ItemAppend(item, "", t);
        ScanItem(item, t, d, m);
      }
    }
  }

  lemma {:induction false} FailedObjectAgrees(s: string, t: string, d: nat, m: nat)
    requires m >= d > 0
    ensures Agrees(ParseObject(s, d), t, d, m)
    decreases |s|, 2
  {
    if !StartsWith(Blanks(s).rest, '}') {
      FailedMembersAgree(s, t, d, m);
    }
  }

  lemma FailedHeadAgrees(s: string, t: string, d: nat, m: nat)
    requires m >= d
    ensures Agrees(ParseHead(s, d), t, d, m)
  {
    hide Scan, Blanks, LexString, SpellUnits, SpellString, AllBlank, WfUnits;
    var pre := Blanks(s);
    var q := Conf(false, d, m);
    if !StartsWith(pre.rest, '"') {
      ScanBlank(pre.front, t, q);
    } else {
      var lex := LexString(pre.rest[1..]);
      if lex.Broken? {
        Assoc(pre.front, ['"'] + SpellUnits(lex.units, ""), t);
        ScanBlank(pre.front, (['"'] + SpellUnits(lex.units, "")) + t, q);
        ScanOpenString(lex.units, t, q);
      } else {
        var mid := Blanks(lex.rest);
        StringAppend(lex.units, mid.front, t);
        Assoc(pre.front, SpellString(lex.units, mid.front), t);
        ScanBlank(pre.front, SpellString(lex.units, mid.front + t), q);
        ScanString(lex.units, mid.front + t, q);
        ScanBlank(mid.front, t, q);
      }
    }
  }

  lemma {:induction false} FailedMembersAgree(s: string, t: string, d: nat, m: nat)
    requires m >= d > 0
    ensures Agrees(ParseMembers(s, d), t, d, m)
    decreases |s|, 1
  {
    hide Scan, ParseValue, ParseHead, Blanks, Spell, SpellHead, SpellMember, Wf, Erase, Depth, AllBlank, WfUnits;
    FailedHeadAgrees(s, t, d, m);
    HeadIsSound(s, d);
    var h := ParseHead(s, d);
    if h.Ok? {
      FailedValueAgrees(h.rest, t, d, m);
      ValueIsSound(h.rest, d);
      var r := ParseValue(h.rest, d);
      if r.Fail? {
        HeadAppend(h.value.pre, h.value.key, h.value.mid, h.value.gap, r.consumed, t);
        ScanHead(h.value.pre, h.value.key, h.value.mid, h.value.gap, r.consumed + t, Conf(false, d, m));
      } else {
        var post := Blanks(r.rest);
        var x := Member(h.value.pre, h.value.key, h.value.mid, h.value.gap, r.value, post.front);
        if StartsWith(post.rest, ',') {
          FailedMembersAgree(post.rest[1..], t, d, Max(m, r.deepest));
        }
        FailedAfterMemberAgrees(x, r.deepest, post.rest, t, d, m);
        assert ParseMembers(s, d) == AfterMember(x, r.deepest, post.rest, d);
      }
    }
  }

  lemma FailedAfterMemberAgrees(x: Member, deepest: nat, rest: string, t: string, d: nat, m: nat)
    requires AllBlank(x.pre) && WfUnits(x.key) && AllBlank(x.mid) && AllBlank(x.gap) && Wf(x.value) && AllBlank(x.post)
    requires m >= d > 0 && deepest == d + Depth(Erase(x.value))
    requires StartsWith(rest, ',') ==> Agrees(ParseMembers(rest[1..], d), t, d, Max(m, deepest))
    ensures Agrees(AfterMember(x, deepest, rest, d), t, d, m)
  {
    hide Scan, ParseMembers, SpellMember, Wf, Erase, Depth, AllBlank, WfUnits;
    if StartsWith(rest, ',') {
      var r := ParseMembers(rest[1..], d);
      if r.Fail? {
        Assoc([','], r.consumed, t);
        MemberAppend(x, [','] + r.consumed, t);
        ScanMember(x, [','] + (r.consumed + t), d, m);
        ScanOne(',', r.consumed + t, Conf(false, d, Max(m, deepest)));
      }
    } else if !StartsWith(rest, '}') {
      MemberAppend(x, "", t);
      ScanMember(x, t, d, m);
    }
  }

  // ---------------------------------------------------------------- main results

  // On a document, the scanner ends outside strings with every bracket closed,
  // and its figure is the nesting depth of the value.
  lemma DocumentDepth(doc: Doc)
    requires WfDoc(doc)
    ensures Scan(DocText(doc), START) == Conf(false, 0, Depth(Erase(doc.value)))
  {
    ScanBlank(doc.before, Spell(doc.value, doc.after), START);
    ScanValue(doc.value, doc.after, 0, 0);
    assert doc.after + "" == doc.after;
    ScanBlank(doc.after, "", Conf(false, 0, Depth(Erase(doc.value))));
  }

  // For every text: if the decoder fails, then at its error point scanner and decoder agree on string
  // mode, nesting and deepest level, so any later drift can only add to the scanner's figure.
  lemma ScannerFollowsDecoder(text: string)
    ensures
      match Decode(text)
      case Ok(doc, _, deepest) => Scan(text, START) == Conf(false, 0, deepest)
      case Fail(consumed, rest, nesting, inString, deepest) =>
        && text == consumed + rest
        && Scan(consumed, START) == Conf(inString, nesting, deepest)
        && Scan(text, START) == Scan(rest, Conf(inString, nesting, deepest))
  {
    hide Decode, DocText, WfDoc, Erase, Depth;
    DecodeIsSound(text);
    var r := Decode(text);
    if r.Ok? {
      DocumentDepth(r.value);
    } else {
      FailedDecodeAgrees(text, r.rest);
      FailedDecodeAgrees(text, "");
      assert r.consumed + "" == r.consumed;
    }
  }

  lemma FailedDecodeAgrees(text: string, t: string)
    ensures Agrees(Decode(text), t, 0, 0)
  {
    hide Scan, Blanks, ParseValue, Spell, Wf, Erase, Depth, AllBlank;
    var before := Blanks(text);
    FailedValueAgrees(before.rest, t, 0, 0);
    ValueIsSound(before.rest, 0);
    var r := ParseValue(before.rest, 0);
    if r.Fail? {
      Assoc(before.front, r.consumed, t);
      ScanBlank(before.front, r.consumed + t, START);
    } else {
      var after := Blanks(r.rest);
      SpellAppend(r.value, after.front, t);
      Assoc(before.front, Spell(r.value, after.front), t);
      ScanBlank(before.front, Spell(r.value, after.front + t), START);
      ScanValue(r.value, after.front + t, 0, 0);
      ScanBlank(after.front, t, Conf(false, 0, r.deepest));
    }
  }

  // The pre-scan is safe: a decoder run on any text never nests deeper than the scanner's figure.
  lemma DecoderNeverDeeper(text: string)
    ensures Decode(text).deepest <= Scan(text, START).max
    ensures Decode(text).Ok? ==> Decode(text).deepest == Scan(text, START).max
  {
    ScannerFollowsDecoder(text);
    var r := Decode(text);
    if r.Fail? {
      ScanGrows(r.rest, Conf(r.inString, r.nesting, r.deepest));
    }
  }
}
