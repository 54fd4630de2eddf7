// What the decoder accepts: soundness (an accepted tree is well formed and spells the text read)
// and, on failure, that the accepted part and the rest make up the input.
module JsonSoundness {
  import opened JsonSyntax
  import opened JsonDecoder

  // ---------------------------------------------------------------- spelling before a suffix

  lemma {:induction false} UnitsAppend(us: seq<StrUnit>, a: string, b: string)
    ensures SpellUnits(us, a) + b == SpellUnits(us, a + b)
  {
    if us != [] {
      UnitsAppend(us[1..], a, b);
      UnitAppend(us[0], SpellUnits(us[1..], a), b);
    }
  }

  lemma UnitAppend(u: StrUnit, a: string, b: string)
    ensures SpellUnit(u, a) + b == SpellUnit(u, a + b)
  {
    match u
    case Raw(c) => Assoc([c], a, b);
    case Short(c) => Assoc(['\\', c], a, b);
    case Hex(x, y, z, w) => Assoc(['\\', 'u', x, y, z, w], a, b);
  }

  lemma Assoc(x: string, a: string, b: string)
    ensures (x + a) + b == x + (a + b)
  {
  }

  lemma StringAppend(us: seq<StrUnit>, a: string, b: string)
    ensures SpellString(us, a) + b == SpellString(us, a + b)
  {
    UnitsAppend(us, ['"'] + a, b);
    Assoc(['"'], a, b);
    Assoc(['"'], SpellUnits(us, ['"'] + a), b);
  }

  lemma NumberAppend(n: bool, w: string, f: string, e: Exponent, a: string, b: string)
    ensures SpellNumber(n, w, f, e, a) + b == SpellNumber(n, w, f, e, a + b)
  {
    var x := SpellExponent(e, a);
    if e.Exponent? {
      Assoc(e.digits, a, b);
      Assoc(e.sign, e.digits + a, b);
      Assoc([e.mark], e.sign + (e.digits + a), b);
    }
    assert x + b == SpellExponent(e, a + b);
    var y := SpellFraction(f, x);
    Assoc(f, x, b);
    Assoc(['.'], f + x, b);
    assert y + b == SpellFraction(f, x + b);
    Assoc(w, y, b);
    Assoc(['-'], w + y, b);
  }

  lemma WordAppend(w: Keyword, a: string, b: string)
    ensures SpellWord(w, a) + b == SpellWord(w, a + b)
  {
    match w
    case NullWord => Assoc(['n', 'u', 'l', 'l'], a, b);
    case TrueWord => Assoc(['t', 'r', 'u', 'e'], a, b);
    case FalseWord => Assoc(['f', 'a', 'l', 's', 'e'], a, b);
    case NaN => Assoc(['N', 'a', 'N'], a, b);
    case Infinity => Assoc(['I', 'n', 'f', 'i', 'n', 'i', 't', 'y'], a, b);
    case MinusInfinity => Assoc(['-', 'I', 'n', 'f', 'i', 'n', 'i', 't', 'y'], a, b);
  }

  lemma {:induction false} SpellAppend(c: Cst, a: string, b: string)
    ensures Spell(c, a) + b == Spell(c, a + b)
    decreases c, 0
  {
    match c
    case Word(w) => WordAppend(w, a, b);
    case Num(n, w, f, e) => NumberAppend(n, w, f, e, a, b);
    case Str(us) => StringAppend(us, a, b);
    case Arr(pad, items) =>
      if items == [] {
        Assoc([']'], a, b);
        Assoc(pad, [']'] + a, b);
        Assoc(['['], pad + ([']'] + a), b);
      } else {
        ItemsAppend(items, a, b);
        Assoc(['['], SpellItems(items, a), b);
      }
    case Obj(pad, ms) =>
      if ms == [] {
        Assoc(['}'], a, b);
        Assoc(pad, ['}'] + a, b);
        Assoc(['{'], pad + (['}'] + a), b);
      } else {
        MembersAppend(ms, a, b);
        Assoc(['{'], SpellMembers(ms, a), b);
      }
  }

  lemma {:induction false} ItemsAppend(items: seq<Item>, a: string, b: string)
    requires items != []
    ensures SpellItems(items, a) + b == SpellItems(items, a + b)
    decreases items
  {
    var i := items[0];
    var tail := if |items| == 1 then [']'] + a else [','] + SpellItems(items[1..], a);
    if |items| == 1 {
      Assoc([']'], a, b);
    } else {
      ItemsAppend(items[1..], a, b);
      Assoc([','], SpellItems(items[1..], a), b);
    }
    SpellAppend(i.value, i.post + tail, b);
    Assoc(i.post, tail, b);
    Assoc(i.pre, Spell(i.value, i.post + tail), b);
  }

  lemma HeadAppend(pre: string, key: seq<StrUnit>, mid: string, gap: string, a: string, b: string)
    ensures SpellHead(pre, key, mid, gap, a) + b == SpellHead(pre, key, mid, gap, a + b)
  {
    Assoc(gap, a, b);
    Assoc([':'], gap + a, b);
    Assoc(mid, [':'] + (gap + a), b);
    StringAppend(key, mid + ([':'] + (gap + a)), b);
    Assoc(pre, SpellString(key, mid + ([':'] + (gap + a))), b);
  }

  lemma {:induction false} MembersAppend(ms: seq<Member>, a: string, b: string)
    requires ms != []
    ensures SpellMembers(ms, a) + b == SpellMembers(ms, a + b)
    decreases ms
  {
    var m := ms[0];
    var tail := if |ms| == 1 then ['}'] + a else [','] + SpellMembers(ms[1..], a);
    if |ms| == 1 {
      Assoc(['}'], a, b);
    } else {
      MembersAppend(ms[1..], a, b);
      Assoc([','], SpellMembers(ms[1..], a), b);
    }
    SpellAppend(m.value, m.post + tail, b);
    Assoc(m.post, tail, b);
    HeadAppend(m.pre, m.key, m.mid, m.gap, Spell(m.value, m.post + tail), b);
  }

  // ---------------------------------------------------------------- soundness

  // An accepted value is a well-formed tree that spells exactly the text read, and the deepest
  // level seen is its own depth below d. A failure splits the input at the point of error.
  ghost predicate SoundValue(s: string, d: nat, r: Parsed<Cst>)
  {
    match r
    case Ok(c, rest, deepest) => Wf(c) && s == Spell(c, rest) && deepest == d + Depth(Erase(c))
    case Fail(consumed, rest, nesting, _, deepest) => s == consumed + rest && d <= nesting <= deepest
  }

  ghost predicate SoundItems(s: string, d: nat, r: Parsed<seq<Item>>)
  {
    match r
    case Ok(items, rest, deepest) =>
      items != [] && WfItems(items) && s == SpellItems(items, rest) && deepest == d + DepthAll(EraseItems(items))
    case Fail(consumed, rest, nesting, _, deepest) => s == consumed + rest && d <= nesting <= deepest
  }

  ghost predicate SoundMembers(s: string, d: nat, r: Parsed<seq<Member>>)
  {
    match r
    case Ok(ms, rest, deepest) =>
      ms != [] && WfMembers(ms) && s == SpellMembers(ms, rest) && deepest == d + DepthEntries(EraseMembers(ms))
    case Fail(consumed, rest, nesting, _, deepest) => s == consumed + rest && d <= nesting <= deepest
  }

  ghost predicate SoundBody(s: string, open: char, d: nat, r: Parsed<Cst>)
  {
    match r
    case Ok(c, rest, deepest) => Wf(c) && [open] + s == Spell(c, rest) && deepest + 1 == d + Depth(Erase(c))
    case Fail(consumed, rest, nesting, _, deepest) => s == consumed + rest && d <= nesting <= deepest
  }

  lemma {:induction false} ValueIsSound(s: string, d: nat)
    ensures SoundValue(s, d, ParseValue(s, d))
    decreases |s|, 0
  {
    if s == "" {
    } else if s[0] == '"' {
      assert s == ['"'] + s[1..];
      var lex := LexString(s[1..]);
      if lex.Broken? {
        assert "" + lex.rest == lex.rest;
        UnitsAppend(lex.units, "", lex.rest);
        Assoc(['"'], SpellUnits(lex.units, ""), lex.rest);
      }
    } else if s[0] == '[' {
      ArrayIsSound(s[1..], d + 1);
      BodyToValue(s, d, '[', ParseArray(s[1..], d + 1));
    } else if s[0] == '{' {
      ObjectIsSound(s[1..], d + 1);
      BodyToValue(s, d, '{', ParseObject(s[1..], d + 1));
    } else if WordAt(s).NoWord? {
      NumberShrinks(s);
    }
  }

  lemma BodyToValue(s: string, d: nat, open: char, r: Parsed<Cst>)
    requires s != "" && s[0] == open && SoundBody(s[1..], open, d + 1, r)
    ensures SoundValue(s, d, After(open, r))
  {
    assert s == [open] + s[1..];
    if r.Fail? {
      Assoc([open], r.consumed, r.rest);
    }
  }

  lemma {:induction false} ArrayIsSound(s: string, d: nat)
    requires d > 0
    ensures SoundBody(s, '[', d, ParseArray(s, d))
    decreases |s|, 2
  {
    hide Blanks, ParseItems, SpellItems;
    var pad := Blanks(s);
    if StartsWith(pad.rest, ']') {
      assert pad.rest == [']'] + pad.rest[1..];
      assert Depth(Erase(Arr(pad.front, []))) == 1;
      assert Wf(Arr(pad.front, []));
      assert Spell(Arr(pad.front, []), pad.rest[1..]) == ['['] + (pad.front + ([']'] + pad.rest[1..]));
    } else {
      ItemsAreSound(s, d);
    }
  }

  lemma ItemsCons(item: Item, items: seq<Item>, t: string)
    ensures WfItems([item] + items) <==> AllBlank(item.pre) && Wf(item.value) && AllBlank(item.post) && WfItems(items)
    ensures SpellItems([item] + items, t) ==
      SpellItem(item, if items == [] then [']'] + t else [','] + SpellItems(items, t))
    ensures DepthAll(EraseItems([item] + items)) == Max(Depth(Erase(item.value)), DepthAll(EraseItems(items)))
  {
    var all := [item] + items;
    assert all[0] == item && all[1..] == items && all != [];
    assert EraseItems(all)[1..] == EraseItems(items);
  }

  lemma {:induction false} ItemsAreSound(s: string, d: nat)
    ensures SoundItems(s, d, ParseItems(s, d))
    decreases |s|, 1
  {
    hide Blanks, ParseValue, Spell, Wf, Erase, Depth, SpellItems, AllBlank;
    var pre := Blanks(s);
    ValueIsSound(pre.rest, d);
    var r := ParseValue(pre.rest, d);
    if r.Fail? {
      Assoc(pre.front, r.consumed, r.rest);
    } else {
      var post := Blanks(r.rest);
      var item := Item(pre.front, r.value, post.front);
      if StartsWith(post.rest, ']') {
        assert post.rest == [']'] + post.rest[1..];
        ItemsCons(item, [], post.rest[1..]);
        assert [item] + [] == [item];
      } else if StartsWith(post.rest, ',') {
        assert post.rest == [','] + post.rest[1..];
        ItemsAreSound(post.rest[1..], d);
        var r' := ParseItems(post.rest[1..], d);
        if r'.Ok? {
          ItemsCons(item, r'.value, r'.rest);
        } else {
          Assoc([','], r'.consumed, r'.rest);
          ItemAppend(item, [','] + r'.consumed, r'.rest);
        }
      } else {
        ItemAppend(item, "", post.rest);
      }
    }
  }

  lemma ItemAppend(i: Item, a: string, b: string)
    ensures SpellItem(i, a) + b == SpellItem(i, a + b)
    ensures SpellItem(i, "" + b) == SpellItem(i, b)
  {
    Assoc(i.post, a, b);
    SpellAppend(i.value, i.post + a, b);
    Assoc(i.pre, Spell(i.value, i.post + a), b);
    assert "" + b == b;
  }

  lemma MemberAppend(m: Member, a: string, b: string)
    ensures SpellMember(m, a) + b == SpellMember(m, a + b)
    ensures SpellMember(m, "" + b) == SpellMember(m, b)
  {
    Assoc(m.post, a, b);
    SpellAppend(m.value, m.post + a, b);
    HeadAppend(m.pre, m.key, m.mid, m.gap, Spell(m.value, m.post + a), b);
    assert "" + b == b;
  }

  lemma {:induction false} ObjectIsSound(s: string, d: nat)
    requires d > 0
    ensures SoundBody(s, '{', d, ParseObject(s, d))
    decreases |s|, 2
  {
    hide Blanks, ParseMembers, SpellMembers;
    var pad := Blanks(s);
    if StartsWith(pad.rest, '}') {
      assert pad.rest == ['}'] + pad.rest[1..];
      assert Depth(Erase(Obj(pad.front, []))) == 1;
      assert Wf(Obj(pad.front, []));
      assert Spell(Obj(pad.front, []), pad.rest[1..]) == ['{'] + (pad.front + (['}'] + pad.rest[1..]));
    } else {
      MembersAreSound(s, d);
    }
  }

  lemma HeadIsSound(s: string, d: nat)
    ensures
      match ParseHead(s, d)
      case Ok(h, rest, _) =>
        && AllBlank(h.pre) && WfUnits(h.key) && AllBlank(h.mid) && AllBlank(h.gap)
        && s == SpellHead(h.pre, h.key, h.mid, h.gap, rest)
      case Fail(consumed, rest, nesting, _, deepest) => s == consumed + rest && nesting == d == deepest
  {
    hide Blanks, LexString, SpellUnits, AllBlank, WfUnits;
    var pre := Blanks(s);
    if StartsWith(pre.rest, '"') {
      assert pre.rest == ['"'] + pre.rest[1..];
      var lex := LexString(pre.rest[1..]);
      if lex.Broken? {
        assert "" + lex.rest == lex.rest;
        UnitsAppend(lex.units, "", lex.rest);
        Assoc(['"'], SpellUnits(lex.units, ""), lex.rest);
        Assoc(pre.front, ['"'] + SpellUnits(lex.units, ""), lex.rest);
      } else {
        var mid := Blanks(lex.rest);
        if StartsWith(mid.rest, ':') {
          assert mid.rest == [':'] + mid.rest[1..];
        } else {
          StringAppend(lex.units, mid.front, mid.rest);
          Assoc(pre.front, SpellString(lex.units, mid.front), mid.rest);
        }
      }
    }
  }

  lemma MembersCons(m: Member, ms: seq<Member>, t: string)
    ensures WfMembers([m] + ms) <==>
      && AllBlank(m.pre) && WfUnits(m.key) && AllBlank(m.mid) && AllBlank(m.gap) && Wf(m.value) && AllBlank(m.post)
      && WfMembers(ms)
    ensures SpellMembers([m] + ms, t) ==
      SpellMember(m, if ms == [] then ['}'] + t else [','] + SpellMembers(ms, t))
    ensures DepthEntries(EraseMembers([m] + ms)) == Max(Depth(Erase(m.value)), DepthEntries(EraseMembers(ms)))
  {
    var all := [m] + ms;
    assert all[0] == m && all[1..] == ms && all != [];
    assert EraseMembers(all)[1..] == EraseMembers(ms);
  }

  // Head, value and trailing blanks read one after the other make up a member.
  lemma MemberSpelled(s: string, h: Head, s1: string, v: Cst, post: Cut) returns (m: Member)
    requires AllBlank(h.pre) && WfUnits(h.key) && AllBlank(h.mid) && AllBlank(h.gap) && Wf(v) && AllBlank(post.front)
    requires s == SpellHead(h.pre, h.key, h.mid, h.gap, s1)
    requires s1 == Spell(v, post.front + post.rest)
    ensures m == Member(h.pre, h.key, h.mid, h.gap, v, post.front) && s == SpellMember(m, post.rest)
    ensures AllBlank(m.pre) && WfUnits(m.key) && AllBlank(m.mid) && AllBlank(m.gap) && Wf(m.value) && AllBlank(m.post)
  {
    m := Member(h.pre, h.key, h.mid, h.gap, v, post.front);
  }

  // What ParseMembers makes of the rest once a member has been read.
  function AfterMember(m: Member, deepest: nat, rest: string, d: nat): Parsed<seq<Member>>
  {
    if StartsWith(rest, '}') then Ok([m], rest[1..], deepest)
    else if StartsWith(rest, ',') then
      match ParseMembers(rest[1..], d)
      case Ok(ms, rest', deepest') => Ok([m] + ms, rest', Max(deepest, deepest'))
      case Fail(c, r, n, q, deepest') => Fail(SpellMember(m, [','] + c), r, n, q, Max(deepest, deepest'))
    else Fail(SpellMember(m, ""), rest, d, false, deepest)
  }

  lemma AfterMemberIsSound(s: string, m: Member, deepest: nat, rest: string, d: nat)
    requires AllBlank(m.pre) && WfUnits(m.key) && AllBlank(m.mid) && AllBlank(m.gap) && Wf(m.value) && AllBlank(m.post)
    requires s == SpellMember(m, rest) && deepest == d + Depth(Erase(m.value))
    requires StartsWith(rest, ',') ==> SoundMembers(rest[1..], d, ParseMembers(rest[1..], d))
    ensures SoundMembers(s, d, AfterMember(m, deepest, rest, d))
  {
    hide ParseMembers, SpellMember, Wf, Erase, Depth, SpellMembers, AllBlank, WfUnits;
    if StartsWith(rest, '}') {
      assert rest == ['}'] + rest[1..];
      MembersCons(m, [], rest[1..]);
      assert [m] + [] == [m];
    } else if StartsWith(rest, ',') {
      assert rest == [','] + rest[1..];
      var r := ParseMembers(rest[1..], d);
      if r.Ok? {
        MembersCons(m, r.value, r.rest);
      } else {
        Assoc([','], r.consumed, r.rest);
        MemberAppend(m, [','] + r.consumed, r.rest);
      }
    } else {
      MemberAppend(m, "", rest);
    }
  }

  lemma {:induction false} MembersAreSound(s: string, d: nat)
    ensures SoundMembers(s, d, ParseMembers(s, d))
    decreases |s|, 1
  {
    hide Blanks, ParseValue, ParseHead, Spell, SpellHead, SpellMember, SpellMembers;
    hide Wf, Erase, Depth, EraseMembers, DepthEntries, WfMembers, AllBlank, WfUnits;
    HeadIsSound(s, d);
    var h := ParseHead(s, d);
    if h.Ok? {
      ValueIsSound(h.rest, d);
      var r := ParseValue(h.rest, d);
      if r.Fail? {
        HeadAppend(h.value.pre, h.value.key, h.value.mid, h.value.gap, r.consumed, r.rest);
      } else {
        var post := Blanks(r.rest);
        var m := MemberSpelled(s, h.value, h.rest, r.value, post);
        if StartsWith(post.rest, ',') {
          MembersAreSound(post.rest[1..], d);
        }
        AfterMemberIsSound(s, m, r.deepest, post.rest, d);
        assert ParseMembers(s, d) == AfterMember(m, r.deepest, post.rest, d);
      }
    }
  }

  // Whatever the decoder accepts is a well-formed document that spells the text.
  lemma DecodeIsSound(text: string)
    ensures
      match Decode(text)
      case Ok(doc, rest, deepest) => WfDoc(doc) && DocText(doc) == text && deepest == Depth(Erase(doc.value))
      case Fail(consumed, rest, nesting, _, deepest) => text == consumed + rest && nesting <= deepest
  {
    var before := Blanks(text);
    ValueIsSound(before.rest, 0);
    var r := ParseValue(before.rest, 0);
    if r.Fail? {
      Assoc(before.front, r.consumed, r.rest);
    } else {
      var after := Blanks(r.rest);
      if after.rest == "" {
        assert after.front + "" == after.front;
      } else {
        SpellAppend(r.value, after.front, after.rest);
        Assoc(before.front, Spell(r.value, after.front), after.rest);
      }
    }
  }
}
