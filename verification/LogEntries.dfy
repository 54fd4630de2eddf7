// One access-log entry: categories, status classes, and the plausibility checks on a decoded object.
module LogEntries {
  import opened Options

  datatype Category = Page | Api | Static | Health | Other

  predicate IsHealthPath(p: string) { p == "/api/v1/health" || p == "/api/v1/readiness" }

  predicate IsPagePath(p: string)
  {
    p == "/" || p == "/new" || p == "/generating" || p == "/scene" || p == "/accuse" || p == "/reveal"
  }

  function Categorize(path: string): Category
  {
    if IsHealthPath(path) then Health
    else if IsPagePath(path) then Page
    else if "/api/v1/" <= path then Api
    else if "/assets/" <= path || "/static/" <= path then Static
    else Other
  }

  function StatusClass(status: int): string
  {
    if 100 <= status < 200 then "1xx"
    else if 200 <= status < 300 then "2xx"
    else if 300 <= status < 400 then "3xx"
    else if 400 <= status < 500 then "4xx"
    else if 500 <= status < 600 then "5xx"
    else "other"
  }

  datatype Entry = Entry(ts: real, verb: string, uri: string, path: string, status: int, size: Option<int>)

  // ---------------------------------------------------------------- from a decoded object

  // What a conversion of a JSON field gives: the field may be absent or null, or not convertible.
  datatype Field<+T> = Absent | Unconvertible | Converted(value: T)

  datatype Instant = NotFinite | Seconds(s: real)

  // size: absent, not a number (or a boolean), a number too large to convert, or its integer part.
  datatype SizeField = NoSize | NotANumber | Overflow | SizeOf(n: int)

  datatype LogObject = LogObject(
    hasRequest: bool,
    uri: Option<string>,
    verb: Option<string>,
    status: Field<int>,
    ts: Field<Instant>,
    size: SizeField)

  const MAX_TS := 1_000_000_000_000.0
  const MAX_REQUEST_BYTES := 1024 * 1024 * 1024
  const MAX_PATH_ECHO := 200

  // The part of a URI before the first '?'.
  function BeforeQuery(uri: string): (p: string)
    ensures p <= uri
    ensures |p| < |uri| ==> uri[|p|] == '?'
    ensures forall i :: 0 <= i < |p| ==> p[i] != '?'
  {
    if uri == "" || uri[0] == '?' then "" else [uri[0]] + BeforeQuery(uri[1..])
  }

  function EchoPath(uri: string): string
  {
    var p := BeforeQuery(uri);
    if |p| > MAX_PATH_ECHO then p[..MAX_PATH_ECHO] + "..." else p
  }

  predicate PlausibleInstant(t: Instant) { t.Seconds? && -MAX_TS <= t.s <= MAX_TS }

  function EntryFromObject(o: LogObject): Option<Entry>
  {
    if !o.hasRequest then None
    else if o.uri.None? || o.verb.None? then None
    else if o.status.Absent? || o.ts.Absent? then None
    else if o.status.Unconvertible? || o.ts.Unconvertible? then None
    else if !PlausibleInstant(o.ts.value) then None
    else if !(100 <= o.status.value <= 599) then None
    else
      var size := if o.size.SizeOf? && 0 <= o.size.n <= MAX_REQUEST_BYTES then Some(o.size.n) else None;
      Some(Entry(o.ts.value.s, o.verb.value, o.uri.value, EchoPath(o.uri.value), o.status.value, size))
  }

  ghost predicate Plausible(e: Entry)
  {
    && -1_000_000_000_000.0 <= e.ts <= 1_000_000_000_000.0
    && 100 <= e.status <= 599
    && (e.size.Some? ==> 0 <= e.size.value <= 1_073_741_824)
    && |e.path| <= 203
    && forall i :: 0 <= i < |e.path| ==> e.path[i] != '?'
  }

  // p is what stands before the first question mark of uri.
  ghost predicate IsPathOf(p: string, uri: string)
  {
    p <= uri && (|p| < |uri| ==> uri[|p|] == '?') && forall i :: 0 <= i < |p| ==> p[i] != '?'
  }

  // An entry is built exactly when the request line is there and status and timestamp convert to
  // plausible values; it carries them unchanged, with the URI, the path cut after 200 characters, and the size,
  // of which an implausible one is dropped.
  lemma EntriesArePlausible(o: LogObject)
    ensures EntryFromObject(o).Some? <==>
      && o.hasRequest && o.uri.Some? && o.verb.Some?
      && o.status.Converted? && 100 <= o.status.value <= 599
      && o.ts.Converted? && o.ts.value.Seconds? && -1_000_000_000_000.0 <= o.ts.value.s <= 1_000_000_000_000.0
    ensures EntryFromObject(o).Some? ==>
      var e := EntryFromObject(o).value;
      && Plausible(e) && e.ts == o.ts.value.s && e.status == o.status.value && e.verb == o.verb.value
      && e.uri == o.uri.value
      && e.size == (if o.size.SizeOf? && 0 <= o.size.n <= 1_073_741_824 then Some(o.size.n) else None)
      && exists p :: IsPathOf(p, o.uri.value) && e.path == if |p| <= 200 then p else p[..200] + "..."
  {
    if EntryFromObject(o).Some? {
      var p := BeforeQuery(o.uri.value);
      var e := EntryFromObject(o).value;
      assert IsPathOf(p, o.uri.value) && e.path == if |p| <= 200 then p else p[..200] + "...";
      if |p| > 200 {
        assert |e.path| == 203;
        forall i | 0 <= i < |e.path| ensures e.path[i] != '?' {
          if i < 200 { assert e.path[i] == p[i]; } else { assert e.path[i] == "..."[i - 200]; }
        }
      }
    }
  }
}
