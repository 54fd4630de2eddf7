// The gate: scan, decode, bound the collections; and what its verdict means for documents.
module BoundedJson {
  import opened JsonSyntax
  import opened JsonDecoder
  import opened JsonSoundness
  import opened JsonCompleteness
  import opened BracketScan
  import opened ScanAgreement
  import opened ValueWalkers

  const MAX_JSON_DEPTH := 32
  const MAX_COLLECTION_LENGTH := 10_000

  // How many digits int() converts unless the interpreter is told otherwise; zero means any number.
  const INT_DIGITS := 4300

  // The raw argument: bytes that are not UTF-8, or the characters of a str or of decodable bytes.
  datatype Source = UndecodableBytes | Characters(text: string)

  // Malformed is a ValueError out of json.loads: the text is no document, or an integer in it has too many
  // digits, whichever comes first in it.
  datatype LoadResult =
    | Loaded(value: Json)
    | NotUtf8
    | TooDeep(depth: nat)
    | Malformed
    | TooLong

  // A number without fraction and exponent is converted by int().
  predicate IsInteger(lexeme: string) { '.' !in lexeme && 'e' !in lexeme && 'E' !in lexeme }

  function DigitCount(lexeme: string): nat { if lexeme != "" && lexeme[0] == '-' then |lexeme| - 1 else |lexeme| }

  // No integer anywhere in the document is too long to convert.
  predicate Convertible(v: Json, digits: nat)
    decreases v
  {
    match v
    case Number(lexeme) => digits == 0 || !IsInteger(lexeme) || DigitCount(lexeme) <= digits
    case List(vs) => forall x | x in vs :: Convertible(x, digits)
    case Object(es) => forall e | e in es :: Convertible(e.value, digits)
    case _ => true
  }

  // The verdict in the order in which the checks are made.
  function Verdict(source: Source, maxDepth: int, maxCollectionLength: int, digits: nat): LoadResult
  {
    if source.UndecodableBytes? then NotUtf8
    else if Scan(source.text, START).max > maxDepth then TooDeep(Scan(source.text, START).max)
    else
      match Decode(source.text)
      case Fail(_, _, _, _, _) => Malformed
      case Ok(doc, _, _) =>
        if !Convertible(Erase(doc.value), digits) then Malformed
        else
          var value := Collapse(Erase(doc.value));
          if maxCollectionLength > 0 && !Within(value, maxCollectionLength) then TooLong else Loaded(value)
  }

  method BoundedJsonLoads(
    source: Source, maxDepth: int := MAX_JSON_DEPTH, maxCollectionLength: int := MAX_COLLECTION_LENGTH,
    digits: nat := INT_DIGITS)
    returns (r: LoadResult)
    ensures r == Verdict(source, maxDepth, maxCollectionLength, digits)
  {
    if source.UndecodableBytes? {
      return NotUtf8;
    }
    var depth := BracketDepth(source.text);
    if depth > maxDepth {
      return TooDeep(depth);
    }
    var parsed := Decode(source.text);
    if parsed.Fail? || !Convertible(Erase(parsed.value.value), digits) {
      return Malformed;
    }
    var value := Collapse(Erase(parsed.value.value));
    if maxCollectionLength > 0 {
      var ok := BoundCollectionLengths(value, maxCollectionLength);
      if !ok {
        return TooLong;
      }
    }
    return Loaded(value);
  }

  // ---------------------------------------------------------------- what the verdict means

  // On a document the verdict is a matter of the tree alone: nested too deep, an integer or a collection too
  // long, or the decoded value. Blanks, escapes and brackets inside strings play no part.
  lemma VerdictOnDocuments(doc: Doc, maxDepth: int, maxCollectionLength: int, digits: nat)
    requires WfDoc(doc)
    ensures Verdict(Characters(DocText(doc)), maxDepth, maxCollectionLength, digits) ==
      var tree := Erase(doc.value);
      if Depth(tree) > maxDepth then TooDeep(Depth(tree))
      else if !Convertible(tree, digits) then Malformed
      else if maxCollectionLength > 0 && !Within(Collapse(tree), maxCollectionLength) then TooLong
      else Loaded(Collapse(tree))
  {
    DocumentDepth(doc);
    DecodeSpelled(doc);
  }

  // On any other text the verdict is an error; and if decoding is tried, it never nests deeper than the bound.
  lemma VerdictOnOtherTexts(text: string, maxDepth: int, maxCollectionLength: int, digits: nat)
    requires !exists doc :: WfDoc(doc) && DocText(doc) == text
    ensures var r := Verdict(Characters(text), maxDepth, maxCollectionLength, digits);
      && (r.TooDeep? || r.Malformed?)
      && (r.Malformed? ==> Decode(text).deepest <= maxDepth)
      && (Decode(text).deepest > maxDepth ==> r.TooDeep?)
  {
    AcceptsExactlyDocuments(text);
    DecoderNeverDeeper(text);
  }

  // Soundness and completeness of the bounds in one statement.
  lemma LoadedExactly(text: string, maxDepth: int, maxCollectionLength: int, digits: nat, v: Json)
    ensures Verdict(Characters(text), maxDepth, maxCollectionLength, digits) == Loaded(v) <==>
      exists doc ::
        && WfDoc(doc) && DocText(doc) == text && v == Collapse(Erase(doc.value))
        && Depth(Erase(doc.value)) <= maxDepth && Convertible(Erase(doc.value), digits)
        && (maxCollectionLength > 0 ==> Within(v, maxCollectionLength))
  {
    if doc :| WfDoc(doc) && DocText(doc) == text {
      VerdictOnDocuments(doc, maxDepth, maxCollectionLength, digits);
      forall other | WfDoc(other) && DocText(other) == text
        ensures other == doc
      {
        DecodeSpelled(doc);
        DecodeSpelled(other);
      }
    } else {
      VerdictOnOtherTexts(text, maxDepth, maxCollectionLength, digits);
    }
  }

  // A value that came through the gate passes a later structure check with the same limit: its depth is
  // within the bound, so the walker's result (see BoundedStructureDepth) is the depth itself.
  lemma LoadedValueIsShallow(source: Source, maxDepth: int, maxCollectionLength: int, digits: nat)
    requires Verdict(source, maxDepth, maxCollectionLength, digits).Loaded?
    ensures var v := Verdict(source, maxDepth, maxCollectionLength, digits).value;
      && Depth(v) <= maxDepth
      && Min(Depth(v), Max(maxDepth, 0) + 1) == Depth(v)
      && (maxCollectionLength > 0 ==> Within(v, maxCollectionLength))
  {
    hide Scan, Decode, Erase, Collapse, Depth, Within, WfDoc, DocText;
    var doc := Decode(source.text).value;
    DecoderNeverDeeper(source.text);
    DecodeIsSound(source.text);
    CollapseDepth(Erase(doc.value));
  }

  // A duplicate-free document inside both bounds is returned unchanged exactly when its integers can be
  // converted; there is no other way to be rejected.
  lemma CleanDocumentsPass(doc: Doc, maxDepth: int, maxCollectionLength: int, digits: nat)
    requires WfDoc(doc) && DuplicateFree(Erase(doc.value))
    requires Depth(Erase(doc.value)) <= maxDepth
    requires maxCollectionLength > 0 ==> Within(Erase(doc.value), maxCollectionLength)
    ensures Verdict(Characters(DocText(doc)), maxDepth, maxCollectionLength, digits) ==
      if Convertible(Erase(doc.value), digits) then Loaded(Erase(doc.value)) else Malformed
  {
    VerdictOnDocuments(doc, maxDepth, maxCollectionLength, digits);
    CollapseKeeps(Erase(doc.value));
  }

  // With duplicate keys the bound is stricter than the value requires: {"":[],"":null} decodes to a dict
  // of depth 1, yet a limit of 1 refuses it.
  const TWICE: Doc :=
    Doc("", Obj("", [Member("", [], "", "", Arr("", []), ""), Member("", [], "", "", Word(NullWord), "")]), "")

  lemma DuplicatesCountTowardsDepth(digits: nat)
    ensures WfDoc(TWICE) && Depth(Collapse(Erase(TWICE.value))) == 1
    ensures Verdict(Characters(DocText(TWICE)), 1, 0, digits) == TooDeep(2)
  {
    hide Verdict, WfDoc, DocText;
    TwiceIsADocument();
    TwiceErased();
    TwoEntries(List([]), Null);
    assert Depth(List([])) == 1 && Depth(Null) == 0;
    VerdictOnDocuments(TWICE, 1, 0, digits);
  }

  lemma TwiceIsADocument()
    ensures WfDoc(TWICE)
  {
    var m0, m1 := TWICE.value.members[0], TWICE.value.members[1];
    assert TWICE.value.members == [m0] + [m1];
    MembersCons(m1, [], "");
    assert [m1] + [] == [m1];
    MembersCons(m0, [m1], "");
    assert AllBlank("") && WfItems([]) && Wf(m0.value) && Wf(m1.value);
    assert WfMembers([m1]) && WfMembers(TWICE.value.members);
  }

  lemma TwiceErased()
    ensures Erase(TWICE.value) == Object([Entry([], List([])), Entry([], Null)])
  {
    var m0, m1 := TWICE.value.members[0], TWICE.value.members[1];
    assert TWICE.value.members[1..] == [m1] && [m1][1..] == [];
    assert Erase(m0.value) == List([]) && Erase(m1.value) == Null;
    assert EraseMembers([m1]) == [Entry([], Null)];
    assert EraseMembers(TWICE.value.members) == [Entry([], List([])), Entry([], Null)];
  }

  lemma TwoEntries(x: Json, y: Json)
    requires Collapse(x) == x && Collapse(y) == y
    ensures var es := [Entry([], x), Entry([], y)];
      DictOf(es) == [Entry([], y)] && DepthEntries(es) == Max(Depth(x), Depth(y))
        && DepthEntries(DictOf(es)) == Depth(y)
  {
    var e0, e1 := Entry([], x), Entry([], y);
    var es := [e0, e1];
    assert es[..1] == [e0] && [e0][..0] == [] && es[1..] == [e1];
    assert DictOf([e0]) == [e0];
    DepthEntriesSplit([e0], e1);
    assert [e0] + [e1] == es;
  }
}
