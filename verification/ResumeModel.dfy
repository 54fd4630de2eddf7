// The durable files of a benchmark run directory and the steps of a sequential run over them:
// start or resume, execute, append, refresh, merge and rewrite, final state write, crash.
module ResumeModel {
  import opened Options
  import opened Ordering

  datatype Combo = Combo(contestant: string, caseId: string, repeatIndex: int)

  // What converting a JSON value raises.
  datatype Failure = TypeError | ValueError | OverflowError

  // The value under "repeatIndex": absent, convertible by int(), or what int() raises on it.
  datatype RepeatIndex = NoRepeat | Index(n: int) | NotAnInteger(error: Failure)

  // The value under "executionOrder". Numbers compare with numbers and texts with texts; comparing
  // anything else raises.
  datatype ExecutionOrder = NoOrder | Number(value: real) | Infinite(positive: bool) | Text(text: string) | Unorderable

  // What building a combo from an object gives.
  datatype KeyResult = MissingKey | Fails(error: Failure) | Built(combo: Combo)

  // A non-blank line of results.jsonl. Undecodable makes reading or decoding raise something else than the
  // decoding error the readers expect. The ids pass through str(), which takes any value. skipped: the
  // status is SKIPPED_CREDENTIAL_MISSING. hashable: the attempt id is falsy or can be looked up in a dict.
  // padded: the line is surrounded by blanks that strip() removes and JSON does not know, such as U+00A0; a
  // reader that does not strip takes it for Garbage. Anything else that is padded is Garbage to all.
  datatype Line =
    | Garbage
    | Undecodable(padded: bool)
    | NotAnObject
    | Object(
        contestant: Option<string>, caseId: Option<string>, repeat: RepeatIndex,
        skipped: bool, order: ExecutionOrder, hashable: bool, padded: bool)
  {
    // The keys are converted in this order; a missing one raises before later ones are looked at.
    function BuildKey(): KeyResult
      requires Object?
    {
      if contestant.None? || caseId.None? || repeat.NoRepeat? then MissingKey
      else if repeat.NotAnInteger? then Fails(repeat.error)
      else Built(Combo(contestant.value, caseId.value, repeat.n))
    }

    predicate IsRecord() { Object? && BuildKey().Built? }

    // A record that the merge sees, too.
    predicate Merges() { IsRecord() && !padded }

    function Key(): Combo
      requires IsRecord()
    {
      BuildKey().combo
    }
  }

  // A record of the n-th item a run executes.
  function NewRecord(c: Combo, skipped: bool, n: nat): (l: Line)
    ensures l.Merges() && l.Key() == c && l.skipped == skipped
  {
    Object(Some(c.contestant), Some(c.caseId), Index(c.repeatIndex), skipped, Number(n as real), true, false)
  }

  // How results.jsonl ends: with a newline or blanks JSON skips; with a line that lacks its newline, because
  // an append was cut short, so that the next append lands on the same line; or with a line of nothing but
  // blanks that JSON does not know, which will pad the next append.
  datatype FileEnd = Newline | Torn | Blanks

  // state.json is replaced atomically; results.jsonl is appended to.
  datatype Disk = Disk(state: Option<set<Combo>>, results: seq<Line>, end: FileEnd)

  // ---------------------------------------------------------------- what a resume recovers

  function StateSet(d: Disk): set<Combo>
  {
    if d.state.Some? then d.state.value else {}
  }

  // What a loop over the lines makes of one of them.
  datatype Reading = Ignored | Raised | Read(combo: Combo)

  // load_completed_from_results, line by line, stripped: KeyError, TypeError and ValueError are caught.
  function ReadOnResume(l: Line): Reading
  {
    match l
    case Garbage => Ignored
    case Undecodable(_) => Raised
    case NotAnObject => Ignored
    case Object(_, _, _, _, _, _, _) =>
      if l.skipped then Ignored
      else
        match l.BuildKey()
        case MissingKey => Ignored
        case Fails(error) => if error == OverflowError then Raised else Ignored
        case Built(combo) => Read(combo)
  }

  predicate ResumeRaises(lines: seq<Line>) { exists l :: l in lines && ReadOnResume(l).Raised? }

  predicate IsExecuted(l: Line) { l.IsRecord() && !l.skipped }

  // The combos of the executed records: what load_completed_from_results returns.
  function Executed(lines: seq<Line>): set<Combo>
  {
    set l | l in lines && IsExecuted(l) :: l.Key()
  }

  function Recovered(d: Disk): set<Combo> { StateSet(d) + Executed(d.results) }

  // What a start takes for completed: an OSError while results.jsonl is read leaves state.json alone.
  function Known(d: Disk, read: bool): set<Combo> { if read then Recovered(d) else StateSet(d) }

  // ---------------------------------------------------------------- merge

  // The first record of each combo that the merge sees, in order; everything else is dropped.
  function FirstPerCombo(lines: seq<Line>, seen: set<Combo>): seq<Line>
  {
    if lines == [] then []
    else if lines[0].Merges() && lines[0].Key() !in seen then
      [lines[0]] + FirstPerCombo(lines[1..], seen + {lines[0].Key()})
    else FirstPerCombo(lines[1..], seen)
  }

  // The merge loop: lines are not stripped, indexing something that is no object is a TypeError, and only
  // KeyError is caught.
  function ReadOnMerge(l: Line): Reading
  {
    match l
    case Garbage => Ignored
    case Undecodable(padded) => if padded then Ignored else Raised
    case NotAnObject => Raised
    case Object(_, _, _, _, _, _, _) =>
      if l.padded then Ignored
      else
        match l.BuildKey()
        case MissingKey => Ignored
        case Fails(_) => Raised
        case Built(combo) => Read(combo)
  }

  predicate MergeRaises(lines: seq<Line>) { exists l :: l in lines && ReadOnMerge(l).Raised? }

  // Enrichment looks every record's attempt id up.
  predicate EnrichmentRaises(records: seq<Line>) { exists r :: r in records && r.Object? && !r.hashable }

  function OrderOf(l: Line): ExecutionOrder { if l.Object? then l.order else NoOrder }

  predicate Numeric(o: ExecutionOrder) { o.Number? || o.Infinite? }

  predicate Comparable(a: ExecutionOrder, b: ExecutionOrder) { (Numeric(a) && Numeric(b)) || (a.Text? && b.Text?) }

  // sorted() needs every key and, since it has to compare the neighbours of its result, raises as soon as
  // two of them cannot be compared: comparability is an equivalence between all keys but Unorderable.
  predicate SortRaises(records: seq<Line>)
  {
    || (exists r :: r in records && OrderOf(r).NoOrder?)
    || (exists i, j :: 0 <= i < j < |records| && !Comparable(OrderOf(records[i]), OrderOf(records[j])))
  }

  function Rank(o: ExecutionOrder): nat
  {
    match o
    case Infinite(positive) => if positive then 2 else 0
    case Number(_) => 1
    case Text(_) => 3
    case Unorderable => 4
    case NoOrder => 5
  }

  // The order of comparable keys; other keys are never compared.
  predicate OrderLess(a: ExecutionOrder, b: ExecutionOrder)
  {
    if a.Number? && b.Number? then a.value < b.value
    else if a.Text? && b.Text? then StringLess(a.text, b.text)
    else Rank(a) < Rank(b)
  }

  predicate ByOrder(a: Line, b: Line) { OrderLess(OrderOf(a), OrderOf(b)) }

  lemma {:induction false} FirstsAreRecords(lines: seq<Line>, seen: set<Combo>)
    ensures forall x :: x in FirstPerCombo(lines, seen) ==> x.Merges() && x in lines && x.Key() !in seen
  {
    if lines != [] {
      FirstsAreRecords(lines[1..], if lines[0].Merges() then seen + {lines[0].Key()} else seen);
      FirstsAreRecords(lines[1..], seen);
    }
  }

  // The records a finishing run writes back.
  function Merged(existing: seq<Line>, raw: seq<Line>): (r: seq<Line>)
    ensures forall i :: 0 <= i < |r| ==> r[i].Merges()
    ensures forall x :: x in r ==> x.Merges()
    ensures forall x :: x in r <==> x in FirstPerCombo(existing + raw, {})
  {
    FirstsAreRecords(existing + raw, {});
    SortByCounts(ByOrder, FirstPerCombo(existing + raw, {}));
    SortBy(ByOrder, FirstPerCombo(existing + raw, {}))
  }

  // Whether a finishing run raises before it has rewritten the file: in the merge, the enrichment or the sort.
  predicate RewriteRaises(existing: seq<Line>, raw: seq<Line>)
  {
    || MergeRaises(existing + raw)
    || var records := FirstPerCombo(existing + raw, {});
       EnrichmentRaises(records) || SortRaises(records)
  }

  // ---------------------------------------------------------------- runs

  datatype Phase =
    | Loop                             // between two items, or with none left
    | Holding(record: Line)            // an item has been executed, nothing written yet
    | Appended(record: Line)           // its line is in results.jsonl
    | Rewritten(records: seq<Line>)    // results.jsonl has been rewritten, state.json not yet

  datatype Run =
    | Idle
    | Active(
        phase: Phase,
        completed: set<Combo>,
        pending: seq<Combo>,
        raw: seq<Line>,
        credentials: set<string>,
        plan: seq<Combo>,
        read: bool)                    // whether results.jsonl could be read at the start

  // paid lists the driver calls made so far, planned the combos of every plan started so far.
  datatype World = World(disk: Disk, run: Run, paid: seq<Combo>, crashes: nat, planned: set<Combo>)

  datatype Event =
    | Start(plan: seq<Combo>, credentials: set<string>, read: bool)
    | Execute
    | Append
    | TearAppend(whole: bool)          // the process dies while the line is being written
    | Refresh
    | Rewrite
    | WriteFinal
    | Crash

  // The plan items that are not completed, in plan order.
  function Pending(plan: seq<Combo>, completed: set<Combo>): seq<Combo>
  {
    if plan == [] then []
    else if plan[0] in completed then Pending(plan[1..], completed)
    else [plan[0]] + Pending(plan[1..], completed)
  }

  // What is left of a line that has text appended to it: no JSON, and no better decodable than before.
  function Spoiled(l: Line): Line { if l.Undecodable? then l else Garbage }

  function Padded(l: Line): Line { if l.Object? then l.(padded := true) else l }

  // What a record appended to d becomes.
  function AsAppended(d: Disk, l: Line): Line { if d.end.Blanks? then Padded(l) else l }

  // An append after a torn line completes that line, which then is no longer JSON.
  function AppendLine(d: Disk, l: Line): Disk
  {
    if d.end.Torn? && d.results != [] then
      d.(results := d.results[..|d.results| - 1] + [Spoiled(d.results[|d.results| - 1])], end := Newline)
    else d.(results := d.results + [AsAppended(d, l)], end := Newline)
  }

  // An append cut short: part of the record, or all of it but its newline.
  function TornAppend(d: Disk, l: Line, whole: bool): Disk
  {
    if d.end.Torn? && d.results != [] then
      d.(results := d.results[..|d.results| - 1] + [Spoiled(d.results[|d.results| - 1])])
    else d.(results := d.results + [if whole then AsAppended(d, l) else Garbage], end := Torn)
  }

  // Executing an item: the driver is called when the contestant has a credential, and whatever it
  // returns or raises becomes an executed record; without a credential a skipped record is made.
  function RecordFor(c: Combo, credentials: set<string>, raw: seq<Line>): Line
  {
    NewRecord(c, c.contestant !in credentials, |raw| + 1)
  }

  ghost predicate Enabled(w: World, e: Event)
  {
    match e
    case Start(plan, _, read) => w.run.Idle? && Distinct(plan) && (read ==> !ResumeRaises(w.disk.results))
    case Execute => w.run.Active? && w.run.phase.Loop? && w.run.pending != []
    case Append => w.run.Active? && w.run.phase.Holding?
    case TearAppend(_) => w.run.Active? && w.run.phase.Holding?
    case Refresh => w.run.Active? && w.run.phase.Appended?
    case Rewrite => w.run.Active? && w.run.phase.Loop? && w.run.pending == []
      && !RewriteRaises(w.disk.results, w.run.raw)
    case WriteFinal => w.run.Active? && w.run.phase.Rewritten?
    case Crash => w.run.Active?
  }

  function Apply(w: World, e: Event): World
    requires Enabled(w, e)
  {
    match e
    case Start(plan, credentials, read) =>
      var completed := Known(w.disk, read);
      w.(run := Active(Loop, completed, Pending(plan, completed), [], credentials, plan, read),
         planned := w.planned + set c | c in plan)
    case Execute =>
      var c := w.run.pending[0];
      var record := RecordFor(c, w.run.credentials, w.run.raw);
      w.(run := w.run.(phase := Holding(record), pending := w.run.pending[1..]),
         paid := if record.skipped then w.paid else w.paid + [c])
    case Append =>
      w.(disk := AppendLine(w.disk, w.run.phase.record), run := w.run.(phase := Appended(w.run.phase.record)))
    case TearAppend(whole) =>
      w.(disk := TornAppend(w.disk, w.run.phase.record, whole), run := Idle, crashes := w.crashes + 1)
    case Refresh =>
      var l := w.run.phase.record;
      var isNew := IsExecuted(l) && l.Key() !in w.run.completed;
      var completed := if isNew then w.run.completed + {l.Key()} else w.run.completed;
      w.(disk := if isNew then w.disk.(state := Some(completed)) else w.disk,
         run := w.run.(phase := Loop, completed := completed, raw := w.run.raw + [l]))
    case Rewrite =>
      var records := Merged(w.disk.results, w.run.raw);
      w.(disk := if records == [] then w.disk else w.disk.(results := records, end := Newline),
         run := w.run.(phase := Rewritten(records)))
    case WriteFinal =>
      w.(disk := w.disk.(state := Some(w.run.completed + Executed(w.run.phase.records))), run := Idle)
    case Crash =>
      w.(run := Idle, crashes := w.crashes + 1)
  }

  // A history is a sequence of events, each enabled where it happens.
  ghost predicate Legal(w: World, es: seq<Event>)
    decreases |es|
  {
    es != [] ==> Enabled(w, es[0]) && Legal(Apply(w, es[0]), es[1..])
  }

  function After(w: World, es: seq<Event>): World
    requires Legal(w, es)
    decreases |es|
  {
    if es == [] then w else After(Apply(w, es[0]), es[1..])
  }

  function Boot(d: Disk): World { World(d, Idle, [], 0, {}) }

  const EMPTY_DIRECTORY := Disk(None, [], Newline)
}
