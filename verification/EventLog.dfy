/** The peripheral event logger: per-category and per-event statistics kept in ordered
    tables, a capped detail log, and a summary appended when the log is closed. */
module EventLog {
  import opened LogText

  /** A C string that may be null. */
  datatype CStr = Null | Str(s: string)

  datatype Context = Context(cycle: nat, committed: nat, pc: nat)

  datatype Snapshot = NoSnapshot | Snapshot(ctx: Context, addr: nat, value: nat, event: string, detail: string)

  datatype Stats = Stats(count: nat, first: Snapshot, last: Snapshot)

  const NO_STATS := Stats(0, NoSnapshot, NoSnapshot)

  datatype Entry = Entry(key: string, stats: Stats)

  // ---------------------------------------------------------------- ordered tables

  /** Lexicographic order, a prefix first. */
  predicate Less(a: string, b: string)
    decreases |a|
  {
    |b| > 0 && (|a| == 0 || a[0] < b[0] || (a[0] == b[0] && Less(a[1..], b[1..])))
  }

  lemma {:induction false} LessIrreflexive(a: string)
    ensures !Less(a, a)
    decreases |a|
  {
    if |a| > 0 {
      LessIrreflexive(a[1..]);
    }
  }

  lemma {:induction false} LessTransitive(a: string, b: string, c: string)
    requires Less(a, b) && Less(b, c)
    ensures Less(a, c)
    decreases |a|
  {
    if |a| > 0 && a[0] == b[0] && b[0] == c[0] {
      LessTransitive(a[1..], b[1..], c[1..]);
    }
  }

  lemma {:induction false} LessTotal(a: string, b: string)
    ensures Less(a, b) || Less(b, a) || a == b
    decreases |a|
  {
    if |a| > 0 && |b| > 0 && a[0] == b[0] {
      LessTotal(a[1..], b[1..]);
      assert a[1..] == b[1..] ==> a == [a[0]] + a[1..] && b == [b[0]] + b[1..];
    }
  }

  /** The texts agree up to k, where the first ends or has the smaller character. */
  predicate Precedes(a: string, b: string, k: int) {
    0 <= k <= |a| && k < |b| && a[..k] == b[..k] && (k == |a| || a[k] < b[k])
  }

  lemma {:induction false} LessIff(a: string, b: string)
    ensures Less(a, b) <==> exists k :: 0 <= k <= |a| && Precedes(a, b, k)
    decreases |a|
  {
    if |b| > 0 && |a| > 0 && a[0] == b[0] {
      LessIff(a[1..], b[1..]);
      if Less(a, b) {
        var k :| 0 <= k <= |a[1..]| && Precedes(a[1..], b[1..], k);
        assert a[..k + 1] == [a[0]] + a[1..][..k] && b[..k + 1] == [b[0]] + b[1..][..k];
        assert Precedes(a, b, k + 1);
      }
      if k :| 0 <= k <= |a| && Precedes(a, b, k) {
        assert k > 0;
        assert a[1..][..k - 1] == a[..k][1..] && b[1..][..k - 1] == b[..k][1..];
        assert Precedes(a[1..], b[1..], k - 1);
      }
    } else if |b| > 0 && (|a| == 0 || a[0] < b[0]) {
      assert Precedes(a, b, 0);
    }
  }

  /** Entries before the place of a key. */
  function Place(t: seq<Entry>, key: string): (n: nat)
    ensures n <= |t|
    ensures forall k :: 0 <= k < n ==> Less(t[k].key, key)
    ensures n < |t| ==> !Less(t[n].key, key)
  {
    if |t| == 0 || !Less(t[0].key, key) then 0 else 1 + Place(t[1..], key)
  }

  function Get(t: seq<Entry>, key: string): Stats {
    var n := Place(t, key);
    if n < |t| && t[n].key == key then t[n].stats else NO_STATS
  }

  function Put(t: seq<Entry>, key: string, s: Stats): seq<Entry> {
    var n := Place(t, key);
    if n < |t| && t[n].key == key then t[n := Entry(key, s)] else t[..n] + [Entry(key, s)] + t[n..]
  }

  /** A name added to an ordered list of names, once. */
  function Inserted(names: seq<string>, name: string): (r: seq<string>)
    ensures forall n :: n in r <==> n in names || n == name
  {
    if |names| == 0 then [name]
    else if names[0] == name then names
    else if Less(name, names[0]) then [name] + names
    else [names[0]] + Inserted(names[1..], name)
  }

  predicate Ascending(names: seq<string>) {
    forall i, j :: 0 <= i < j < |names| ==> Less(names[i], names[j])
  }

  lemma {:induction false} InsertedAscends(names: seq<string>, name: string)
    requires Ascending(names)
    ensures Ascending(Inserted(names, name))
    decreases |names|
  {
    if |names| > 0 && names[0] != name {
      LessTotal(name, names[0]);
      if Less(name, names[0]) {
        forall j | 0 < j < |names|
          ensures Less(name, names[j])
        {
          LessTransitive(name, names[0], names[j]);
        }
      } else {
        InsertedAscends(names[1..], name);
        forall n | n in Inserted(names[1..], name)
          ensures Less(names[0], n)
        {
          assert n == name || n in names[1..];
        }
      }
    }
  }

  predicate Sorted(t: seq<Entry>) {
    forall i, j :: 0 <= i < j < |t| ==> Less(t[i].key, t[j].key)
  }

  predicate Has(t: seq<Entry>, key: string) {
    exists k :: 0 <= k < |t| && t[k].key == key
  }

  // ---------------------------------------------------------------- text

  function HexDigit(n: nat): char
    requires n < 16
  {
    if n < 10 then '0' + n as char else 'a' + (n - 10) as char
  }

  /** `digits` low hexadecimal digits of n. */
  function Hex(n: nat, digits: nat): (s: string)
    ensures |s| == digits
  {
    if digits == 0 then "" else Hex(n / 16, digits - 1) + [HexDigit(n % 16)]
  }

  function Hex8(n: nat): string {
    "0x" + Hex(n, 8)
  }

  function Commas(names: seq<string>): string {
    if |names| == 0 then "" else if |names| == 1 then names[0] else names[0] + ("," + Commas(names[1..]))
  }

  /** Each name after a comma, in order. */
  lemma {:induction false} CommasInOrder(names: seq<string>, name: string)
    ensures Commas([name]) == name
    ensures |names| > 0 ==> Commas(names + [name]) == Commas(names) + "," + name
    decreases |names|
  {
    if |names| > 1 {
      CommasInOrder(names[1..], name);
      assert (names + [name])[1..] == names[1..] + [name];
    } else if |names| == 1 {
      assert (names + [name])[1..] == [name];
    }
  }

  /** Pieces printed one after another. */
  function Cat(parts: seq<string>): string {
    if |parts| == 0 then "" else parts[0] + Cat(parts[1..])
  }

  function DetailLine(ctx: Context, category: string, event: string, addr: nat, value: nat, detail: string): string {
    Cat(["cycle=", Decimal(ctx.cycle), " committed=", Decimal(ctx.committed), " pc=", Hex8(ctx.pc),
         " category=", category, " event=", event, " addr=", Hex8(addr), " value=", Hex8(value),
         if detail == "" then "" else " detail=" + detail])
  }

  function NoticeLine(limit: nat): string {
    Cat(["# detail limit reached at ", Decimal(limit), " events; continuing summary only"])
  }

  function SnapshotText(tag: string, s: Snapshot): string {
    match s
    case NoSnapshot => Cat([" ", tag, "=none"])
    case Snapshot(ctx, addr, value, event, detail) =>
      Cat([" ", tag, "=", event, "@cycle:", Decimal(ctx.cycle), ",committed:", Decimal(ctx.committed),
           ",pc:", Hex8(ctx.pc), ",addr:", Hex8(addr), ",value:", Hex8(value),
           if detail == "" then "" else ",detail:" + detail])
  }

  function CategoryLine(e: Entry): string {
    "  " + (CATEGORY + (e.key + (" " + (COUNT + (Decimal(e.stats.count)
    + (SnapshotText("first", e.stats.first) + SnapshotText("last", e.stats.last)))))))
  }

  function EventLine(e: Entry): string {
    "    " + (e.key + (" " + ("x" + (Decimal(e.stats.count) + ""))))
  }

  function CategoryLines(t: seq<Entry>): (r: seq<string>)
    ensures |r| == |t|
  {
    seq(|t|, k requires 0 <= k < |t| => CategoryLine(t[k]))
  }

  /** Events that never happened are left out. */
  function EventLines(t: seq<Entry>): seq<string> {
    if |t| == 0 then []
    else EventLines(t[..|t| - 1]) + if t[|t| - 1].stats.count == 0 then [] else [EventLine(t[|t| - 1])]
  }

  // ---------------------------------------------------------------- the logger

  datatype Logger = Logger(
    path: string, isOpen: bool, file: string,
    limit: nat, emitted: nat, suppressed: bool, summary: bool,
    filter: seq<string>,
    categories: seq<Entry>, events: seq<Entry>)

  const NEW_LOGGER := Logger("", false, "", 256, 0, false, false, [], [], [])

  predicate Enabled(l: Logger) {
    l.summary || l.path != ""
  }

  predicate Allowed(l: Logger, category: string) {
    l.filter == [] || category in l.filter
  }

  function Watch(l: Logger, category: CStr): Logger {
    if category.Null? || !Allowed(l, category.s) then l
    else l.(categories := Put(l.categories, category.s, Get(l.categories, category.s)))
  }

  /** A call of the logger's `record`. */
  datatype Call = Call(ctx: Context, category: CStr, event: CStr, addr: nat, value: nat, detail: string)

  predicate Accepts(l: Logger, c: Call) {
    Enabled(l) && c.category.Str? && c.event.Str? && Allowed(l, c.category.s)
  }

  function SnapshotOf(c: Call): Snapshot
    requires c.event.Str?
  {
    Snapshot(c.ctx, c.addr, c.value, c.event.s, c.detail)
  }

  function Update(s: Stats, snap: Snapshot): Stats {
    Stats(s.count + 1, if s.first.NoSnapshot? then snap else s.first, snap)
  }

  function EventKey(c: Call): string
    requires c.category.Str? && c.event.Str?
  {
    c.category.s + "." + c.event.s
  }

  function WithDetail(l: Logger, c: Call): Logger
    requires c.category.Str? && c.event.Str?
  {
    if !l.isOpen || l.limit == 0 then l
    else if l.emitted < l.limit then
      l.(file := l.file + (DetailLine(c.ctx, c.category.s, c.event.s, c.addr, c.value, c.detail) + "\n"),
         emitted := l.emitted + 1)
    else if !l.suppressed then
      l.(file := l.file + (NoticeLine(l.limit) + "\n"), suppressed := true)
    else l
  }

  function Record(l: Logger, c: Call): Logger {
    if !Accepts(l, c) then l
    else
      var snap := SnapshotOf(c);
      WithDetail(
        l.(categories := Put(l.categories, c.category.s, Update(Get(l.categories, c.category.s), snap)),
           events := Put(l.events, EventKey(c), Update(Get(l.events, EventKey(c)), snap))), c)
  }

  const FIELDS := ["# fields: cycle committed", " pc category event", " addr value detail"]
  const TITLE := ["--------", " peripheral model", " event summary ", "--------"]
  const RULE := ["----------------", "----------------", "---------------"]

  function HeaderLines(filter: seq<string>): seq<string> {
    ["# peripheral model event log", Cat(FIELDS)]
    + if filter == [] then [] else [Cat(["# category_filter=", Commas(filter)])]
  }

  function SummaryLines(l: Logger): seq<string> {
    ["", Cat(TITLE)]
    + (if l.filter == [] then [] else ["  " + ("category_filter" + ("=" + Commas(l.filter)))])
    + CategoryLines(l.categories)
    + ["  " + ("event" + " breakdown:")]
    + (if EventLines(l.events) == [] then ["    " + ("none" + "")] else EventLines(l.events))
    + (if l.path == "" then [] else
         ["  " + ("detail_log" + ("=" + Cat([l.path, " emitted=", Decimal(l.emitted), " limit=", Decimal(l.limit),
                                             if l.suppressed then " suppressed=yes" else ""])))])
    + [Cat(RULE)]
  }

  function Open(l: Logger): Logger {
    if l.path == "" then l else l.(isOpen := true, file := Unlines(HeaderLines(l.filter)))
  }

  function Close(l: Logger): Logger {
    if !l.isOpen then l else l.(isOpen := false, file := l.file + if Enabled(l) then Unlines(SummaryLines(l)) else "")
  }

  class PeriphEventLog {
    var path: string
    var isOpen: bool
    var file: string
    var limit: nat
    var emitted: nat
    var suppressed: bool
    var summary: bool
    var filter: seq<string>
    var categories: seq<Entry>
    var events: seq<Entry>

    ghost function Value(): Logger
      reads this
    {
      Logger(path, isOpen, file, limit, emitted, suppressed, summary, filter, categories, events)
    }

    constructor ()
      ensures Value() == NEW_LOGGER
    {
      path, isOpen, file, limit, emitted := "", false, "", 256, 0;
      suppressed, summary, filter, categories, events := false, false, [], [], [];
    }

    method SetLogPath(p: string)
      modifies `path
      ensures Value() == old(Value()).(path := p)
    {
      path := p;
    }

    method SetDetailLimit(n: nat)
      modifies `limit
      ensures Value() == old(Value()).(limit := n)
    {
      limit := n;
    }

    method SetSummaryEnabled(on: bool)
      modifies `summary
      ensures Value() == old(Value()).(summary := on)
    {
      summary := on;
    }

    /** Empty names are dropped; what remains is the ordered set of names allowed. */
    method SetCategoryFilter(names: seq<string>)
      modifies `filter
      ensures Value() == old(Value()).(filter := filter)
      ensures forall n :: n in filter <==> n in names && n != ""
      ensures Ascending(filter)
    {
      filter := [];
      for i := 0 to |names|
        invariant forall n :: n in filter <==> n in names[..i] && n != ""
        invariant Ascending(filter)
      {
        assert names[..i + 1] == names[..i] + [names[i]];
        if names[i] != "" {
          InsertedAscends(filter, names[i]);
          filter := Inserted(filter, names[i]);
        }
      }
      assert names[..|names|] == names;
    }

    method WatchCategory(category: CStr)
      modifies `categories
      ensures Value() == Watch(old(Value()), category)
    {
      if category.Null? {
        return;
      }
      if filter != [] && category.s !in filter {
        return;
      }
      categories := Put(categories, category.s, Get(categories, category.s));
    }

    /** The detail line, or once the notice that there will be no more. */
    method WriteDetail(c: Call)
      requires c.category.Str? && c.event.Str?
      modifies `file, `emitted, `suppressed
      ensures Value() == WithDetail(old(Value()), c)
    {
      if !isOpen || limit == 0 {
        return;
      }
      if emitted < limit {
        file := file + (DetailLine(c.ctx, c.category.s, c.event.s, c.addr, c.value, c.detail) + "\n");
        emitted := emitted + 1;
      } else if !suppressed {
        file := file + (NoticeLine(limit) + "\n");
        suppressed := true;
      }
    }

    method RecordCall(c: Call)
      modifies this
      ensures Value() == Record(old(Value()), c)
    {
      if !(summary || path != "") || c.category.Null? || c.event.Null? {
        return;
      }
      if filter != [] && c.category.s !in filter {
        return;
      }
      var snap := SnapshotOf(c);
      categories := Put(categories, c.category.s, Update(Get(categories, c.category.s), snap));
      events := Put(events, EventKey(c), Update(Get(events, EventKey(c)), snap));
      WriteDetail(c);
    }

    method OpenLog()
      modifies `isOpen, `file
      ensures Value() == Open(old(Value()))
    {
      if path != "" {
        isOpen, file := true, Unlines(HeaderLines(filter));
      }
    }

    method CloseLog()
      modifies `isOpen, `file
      ensures Value() == Close(old(Value()))
    {
      if isOpen {
        if summary || path != "" {
          var l := Logger(path, isOpen, file, limit, emitted, suppressed, summary, filter, categories, events);
          file := file + Unlines(SummaryLines(l));
        } else {
          file := file + "";
        }
        isOpen := false;
      }
    }
  }

  // ---------------------------------------------------------------- the checker

  datatype Counts = Counts(categories: map<string, nat>, events: map<string, nat>)

  function LoadLine(u: Letters, c: Counts, line: string): Counts {
    match ScanCategory(u, line)
    case Some(f) => c.(categories := c.categories[f.name := f.count])
    case None =>
      match ScanEvent(u, line)
      case Some(f) => c.(events := c.events[f.name := f.count])
      case None => c
  }

  function LoadLines(u: Letters, lines: seq<string>): Counts
    decreases |lines|
  {
    if |lines| == 0 then Counts(map[], map[])
    else LoadLine(u, LoadLines(u, lines[..|lines| - 1]), lines[|lines| - 1])
  }

  method LoadCounts(u: Letters, text: string) returns (categories: map<string, nat>, events: map<string, nat>)
    ensures Counts(categories, events) == LoadLines(u, Lines(text))
  {
    var lines := Lines(text);
    categories, events := map[], map[];
    for i := 0 to |lines|
      invariant Counts(categories, events) == LoadLines(u, lines[..i])
    {
      assert lines[..i + 1][..i] == lines[..i];
      var c := ScanCategory(u, lines[i]);
      if c.Some? {
        categories := categories[c.value.name := c.value.count];
      } else {
        var e := ScanEvent(u, lines[i]);
        if e.Some? {
          events := events[e.value.name := e.value.count];
        }
      }
    }
    assert lines[..|lines|] == lines;
  }

  datatype Comparison = AtLeast | Equal
  datatype Expectation = Expectation(name: string, op: Comparison, want: nat)

  predicate Met(x: Expectation, counts: map<string, nat>) {
    x.name in counts && (if x.op == AtLeast then counts[x.name] >= x.want else counts[x.name] == x.want)
  }

  /** The failing expectations, in order. */
  function Failing(xs: seq<Expectation>, counts: map<string, nat>): seq<Expectation> {
    if |xs| == 0 then []
    else Failing(xs[..|xs| - 1], counts) + if Met(xs[|xs| - 1], counts) then [] else [xs[|xs| - 1]]
  }

  method CheckExpectations(xs: seq<Expectation>, counts: map<string, nat>) returns (failures: seq<Expectation>)
    ensures failures == Failing(xs, counts)
    ensures failures == [] <==> forall x :: x in xs ==>
              x.name in counts && counts[x.name] >= x.want && (x.op == Equal ==> counts[x.name] == x.want)
  {
    failures := [];
    for i := 0 to |xs|
      invariant failures == Failing(xs[..i], counts)
      invariant failures == [] <==> forall k :: 0 <= k < i ==> Met(xs[k], counts)
    {
      assert xs[..i + 1][..i] == xs[..i];
      var x := xs[i];
      if x.name !in counts {
        failures := failures + [x];
        continue;
      }
      var got := counts[x.name];
      if (x.op == AtLeast && got < x.want) || (x.op == Equal && got != x.want) {
        failures := failures + [x];
      }
    }
    assert xs[..|xs|] == xs;
    assert forall k :: 0 <= k < |xs| ==> xs[k] in xs;
  }
}
