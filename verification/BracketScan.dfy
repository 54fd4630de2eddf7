// The linear bracket scanner that runs before the decoder: it knows only string mode and escapes,
// skips two characters after a backslash and six after "\u" without looking at them,
// and counts brackets outside strings.
module BracketScan {
  import opened JsonSyntax

  // What one step of the text iterator yields: the character read, or nothing for an escape,
  // and whether it was read in string mode.
  datatype TextUnit = TextUnit(isEscape: bool, c: char, inString: bool)

  function Drop(s: string, n: nat): string { if |s| < n then "" else s[n..] }

  predicate EscapeAt(s: string, inString: bool) { inString && s != "" && s[0] == '\\' }

  // How far the iterator moves from the head of s.
  function Stride(s: string, inString: bool): (n: nat)
    ensures n > 0
  {
    if !EscapeAt(s, inString) then 1 else if |s| > 1 && s[1] == 'u' then 6 else 2
  }

  function ModeAfter(s: string, inString: bool): bool
    requires s != ""
  {
    if EscapeAt(s, inString) then true else if s[0] == '"' then !inString else inString
  }

  function UnitAtHead(s: string, inString: bool): TextUnit
    requires s != ""
  {
    if EscapeAt(s, inString) then TextUnit(true, ' ', true) else TextUnit(false, s[0], inString)
  }

  // Everything the iterator yields from s on.
  function Units(s: string, inString: bool): seq<TextUnit>
    decreases |s|
  {
    if s == "" then []
    else [UnitAtHead(s, inString)] + Units(Drop(s, Stride(s, inString)), ModeAfter(s, inString))
  }

  // Scanner configuration: string mode, open brackets, deepest so far.
  datatype Conf = Conf(inString: bool, depth: nat, max: nat)

  const START := Conf(false, 0, 0)

  // The counting loop's reaction to one yielded unit.
  function Count(u: TextUnit, depth: nat, max: nat): (nat, nat)
  {
    if u.isEscape || u.inString then (depth, max)
    else if u.c == '[' || u.c == '{' then (depth + 1, Max(max, depth + 1))
    else if u.c == ']' || u.c == '}' then (if depth > 0 then depth - 1 else 0, max)
    else (depth, max)
  }

  function Step(s: string, q: Conf): Conf
    requires s != ""
  {
    var (depth, max) := Count(UnitAtHead(s, q.inString), q.depth, q.max);
    Conf(ModeAfter(s, q.inString), depth, max)
  }

  // The configuration at the end of s, started in q.
  function Scan(s: string, q: Conf): Conf
    decreases |s|
  {
    if s == "" then q else Scan(Drop(s, Stride(s, q.inString)), Step(s, q))
  }

  // ---------------------------------------------------------------- the two loops

  lemma DropDrop(s: string, i: nat, n: nat)
    ensures Drop(Drop(s, i), n) == Drop(s, i + n)
  {
  }

  // One turn of the iterator, as seen by the loop that has yielded done and stands at index.
  lemma YieldOne(text: string, index: nat, inString: bool, done: seq<TextUnit>)
    requires index < |text|
    ensures var rest := text[index..];
      && Drop(text, index) == rest && rest != ""
      && done + Units(rest, inString) ==
         (done + [UnitAtHead(rest, inString)])
           + Units(Drop(text, index + Stride(rest, inString)), ModeAfter(rest, inString))
  {
    DropDrop(text, index, Stride(text[index..], inString));
  }

  method IterTextUnits(text: string) returns (units: seq<TextUnit>)
    ensures units == Units(text, false)
  {
    units := [];
    var inString := false;
    var index := 0;
    while index < |text|
      invariant 0 <= index
      invariant units + Units(Drop(text, index), inString) == Units(text, false)
    {
      YieldOne(text, index, inString, units);
      var ch := text[index];
      assert text[index..][0] == ch;
      if inString && ch == '\\' {
        var isU := index + 1 < |text| && text[index + 1] == 'u';
        units := units + [TextUnit(true, ' ', true)];
        index := index + if isU then 6 else 2;
      } else {
        units := units + [TextUnit(false, ch, inString)];
        if ch == '"' {
          inString := !inString;
        }
        index := index + 1;
      }
    }
  }

  function CountAll(units: seq<TextUnit>, depth: nat, max: nat): (nat, nat)
  {
    if units == [] then (depth, max)
    else
      var (depth', max') := Count(units[0], depth, max);
      CountAll(units[1..], depth', max')
  }

  // Counting over the yielded units is scanning the text.
  lemma {:induction false} CountIsScan(s: string, q: Conf)
    ensures CountAll(Units(s, q.inString), q.depth, q.max) == (Scan(s, q).depth, Scan(s, q).max)
    decreases |s|
  {
    if s != "" {
      CountIsScan(Drop(s, Stride(s, q.inString)), Step(s, q));
    }
  }

  method BracketDepth(text: string) returns (maxDepth: nat)
    ensures maxDepth == Scan(text, START).max
  {
    var units := IterTextUnits(text);
    var depth := 0;
    maxDepth := 0;
    var k := 0;
    while k < |units|
      invariant 0 <= k <= |units| && depth >= 0
      invariant CountAll(units[k..], depth, maxDepth) == CountAll(units, 0, 0)
    {
      var unit := units[k];
      assert units[k..][1..] == units[k + 1..];
      if unit.isEscape || unit.inString {
      } else if unit.c == '[' || unit.c == '{' {
        depth := depth + 1;
        if depth > maxDepth {
          maxDepth := depth;
        }
      } else if unit.c == ']' || unit.c == '}' {
        if depth > 0 {
          depth := depth - 1;
        }
      }
      k := k + 1;
    }
    CountIsScan(text, START);
  }

  // ---------------------------------------------------------------- general laws

  // The running maximum never goes down.
  lemma {:induction false} ScanGrows(s: string, q: Conf)
    ensures Scan(s, q).max >= q.max
    decreases |s|
  {
    if s != "" {
      ScanGrows(Drop(s, Stride(s, q.inString)), Step(s, q));
    }
  }

  // A character that is neither a quote nor a bracket.
  predicate IsQuiet(c: char) { c != '"' && c != '[' && c != ']' && c != '{' && c != '}' }

  predicate Quiet(s: string) { s != "" ==> IsQuiet(s[0]) && Quiet(s[1..]) }

  lemma {:induction false} BlankIsQuiet(s: string)
    requires AllBlank(s)
    ensures Quiet(s)
  {
    if s != "" { BlankIsQuiet(s[1..]); }
  }

  lemma {:induction false} DigitsAreQuiet(s: string)
    requires AllDigits(s)
    ensures Quiet(s)
  {
    if s != "" { DigitsAreQuiet(s[1..]); }
  }

  lemma ScanOne(c: char, t: string, q: Conf)
    requires !q.inString
    ensures IsQuiet(c) ==> Scan([c] + t, q) == Scan(t, q)
    ensures c == '"' ==> Scan([c] + t, q) == Scan(t, q.(inString := true))
    ensures c == '[' || c == '{' ==> Scan([c] + t, q) == Scan(t, Conf(false, q.depth + 1, Max(q.max, q.depth + 1)))
    ensures (c == ']' || c == '}') && q.depth > 0 ==> Scan([c] + t, q) == Scan(t, q.(depth := q.depth - 1))
  {
    assert Drop([c] + t, 1) == t;
  }

  lemma {:induction false} ScanQuiet(s: string, t: string, q: Conf)
    requires Quiet(s) && !q.inString
    ensures Scan(s + t, q) == Scan(t, q)
  {
    if s == "" {
      assert s + t == t;
    } else {
      assert s + t == [s[0]] + (s[1..] + t);
      ScanOne(s[0], s[1..] + t, q);
      ScanQuiet(s[1..], t, q);
    }
  }

  lemma ScanBlank(s: string, t: string, q: Conf)
    requires AllBlank(s) && !q.inString
    ensures Scan(s + t, q) == Scan(t, q)
  {
    BlankIsQuiet(s);
    ScanQuiet(s, t, q);
  }
}
