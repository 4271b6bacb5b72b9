/** The checker reads back from a closed log exactly what the run counted. */
module EventLogChecker {
  import opened LogText
  import opened EventLog
  import opened EventLogTables
  import opened EventLogRoundTrip

  // ---------------------------------------------------------------- reading line by line

  function LoadFrom(u: Letters, c: Counts, lines: seq<string>): Counts
    decreases |lines|
  {
    if |lines| == 0 then c else LoadLine(u, LoadFrom(u, c, lines[..|lines| - 1]), lines[|lines| - 1])
  }

  lemma {:induction false} LoadIsLoadFrom(u: Letters, lines: seq<string>)
    ensures LoadLines(u, lines) == LoadFrom(u, Counts(map[], map[]), lines)
    decreases |lines|
  {
    if |lines| > 0 {
      LoadIsLoadFrom(u, lines[..|lines| - 1]);
    }
  }

  lemma {:induction false} LoadConcat(u: Letters, c: Counts, a: seq<string>, b: seq<string>)
    ensures LoadFrom(u, c, a + b) == LoadFrom(u, LoadFrom(u, c, a), b)
    decreases |b|
  {
    if |b| == 0 {
      assert a + b == a;
    } else {
      assert (a + b)[..|a + b| - 1] == a + b[..|b| - 1];
      LoadConcat(u, c, a, b[..|b| - 1]);
    }
  }

  /** Lines that are unbroken and read as nothing. */
  predicate Silent(u: Letters, lines: seq<string>) {
    forall k :: 0 <= k < |lines| ==> NoBreaks(lines[k]) && Inert(u, lines[k] + "\n")
  }

  lemma {:induction false} LoadSilent(u: Letters, c: Counts, lines: seq<string>)
    requires Silent(u, lines)
    ensures LoadFrom(u, c, Ended(lines)) == c
    decreases |lines|
  {
    if |lines| > 0 {
      var n := |lines| - 1;
      assert Ended(lines)[..n] == Ended(lines[..n]);
      LoadSilent(u, c, lines[..n]);
    }
  }

  /** Keys the checker's patterns can take. */
  ghost predicate Readable(key: string, byEvent: bool) {
    if byEvent then IsEventKey(key) else IsName(key)
  }

  /** Whether the summary's line for an entry is read: zero events have none. */
  ghost predicate Shows(e: Entry, byEvent: bool) {
    Readable(e.key, byEvent) && !(byEvent && e.stats.count == 0)
  }

  /** Table counts added to a dictionary, in table order. */
  ghost function CountsOf(t: seq<Entry>, byEvent: bool): map<string, nat>
    decreases |t|
  {
    if |t| == 0 then map[]
    else
      var e := t[|t| - 1];
      if Shows(e, byEvent) then CountsOf(t[..|t| - 1], byEvent)[e.key := e.stats.count]
      else CountsOf(t[..|t| - 1], byEvent)
  }

  lemma {:induction false} LoadCategories(u: Letters, t: seq<Entry>)
    requires forall k :: 0 <= k < |t| ==> SpaceFree(t[k].key)
    ensures LoadFrom(u, Counts(map[], map[]), Ended(CategoryLines(t))) == Counts(CountsOf(t, false), map[])
    decreases |t|
  {
    if |t| > 0 {
      var n := |t| - 1;
      assert Ended(CategoryLines(t))[..n] == Ended(CategoryLines(t[..n]));
      LoadCategories(u, t[..n]);
      CategoryRead(u, t[n]);
    }
  }

  lemma LoadOne(u: Letters, c: Counts, lines: seq<string>, line: string)
    ensures LoadFrom(u, c, Ended(lines + [line])) == LoadLine(u, LoadFrom(u, c, Ended(lines)), line + "\n")
  {
    assert Ended(lines + [line])[..|lines|] == Ended(lines);
  }

  lemma {:induction false} LoadEvents(u: Letters, m: map<string, nat>, t: seq<Entry>)
    requires forall k :: 0 <= k < |t| ==> SpaceFree(t[k].key) && t[k].key != ""
    ensures LoadFrom(u, Counts(m, map[]), Ended(EventLines(t))) == Counts(m, CountsOf(t, true))
    decreases |t|
  {
    if |t| > 0 {
      var n := |t| - 1;
      LoadEvents(u, m, t[..n]);
      if t[n].stats.count != 0 {
        EventRead(u, t[n]);
        LoadOne(u, Counts(m, map[]), EventLines(t[..n]), EventLine(t[n]));
      } else {
        assert EventLines(t) == EventLines(t[..n]);
      }
    }
  }

  lemma {:induction false} EventLinesUnbroken(t: seq<Entry>)
    requires forall k :: 0 <= k < |t| ==> NoBreaks(t[k].key)
    ensures forall k :: 0 <= k < |EventLines(t)| ==> NoBreaks(EventLines(t)[k])
    decreases |t|
  {
    if |t| > 0 {
      EventLinesUnbroken(t[..|t| - 1]);
      EventNoBreaks(t[|t| - 1]);
    }
  }

  // ---------------------------------------------------------------- the silent parts of the file

  lemma PiecesAreSilent(u: Letters, parts: seq<string>)
    requires |parts| > 0 && |parts[0]| > 1 && !IsSpace(parts[0][0]) && parts[0][0] != 'c'
    requires forall k :: 0 <= k < |parts| ==> NoBreaks(parts[k])
    ensures NoBreaks(Cat(parts)) && Inert(u, Cat(parts) + "\n")
  {
    CatNoBreaks(parts);
    assert Cat(parts)[0] == parts[0][0];
    InertPlain(u, Cat(parts) + "\n");
  }

  lemma SilentConcat(u: Letters, a: seq<string>, b: seq<string>)
    requires Silent(u, a) && Silent(u, b)
    ensures Silent(u, a + b)
  {
  }

  lemma {:induction false} HeaderIsSilent(u: Letters, filter: seq<string>)
    requires forall k :: 0 <= k < |filter| ==> NoBreaks(filter[k])
    ensures Silent(u, HeaderLines(filter))
  {
    PiecesAreSilent(u, ["# peripheral model event log"]);
    PiecesAreSilent(u, FIELDS);
    assert Cat(["# peripheral model event log"]) == "# peripheral model event log" + Cat([]);
    assert "# peripheral model event log" + "" == "# peripheral model event log";
    FilterIsSilent(u, filter);
    SilentConcat(u, ["# peripheral model event log", Cat(FIELDS)],
                 if filter == [] then [] else [Cat(["# category_filter=", Commas(filter)])]);
  }

  lemma {:induction false} FilterIsSilent(u: Letters, filter: seq<string>)
    requires forall k :: 0 <= k < |filter| ==> NoBreaks(filter[k])
    ensures Silent(u, [Cat(["# category_filter=", Commas(filter)])])
  {
    CommasNoBreaks(filter);
    PiecesAreSilent(u, ["# category_filter=", Commas(filter)]);
  }

  predicate CleanCall(c: Call) {
    c.category.Str? && c.event.Str? && SpaceFree(c.category.s) && SpaceFree(c.event.s) && NoBreaks(c.detail)
  }

  lemma DetailIsSilent(u: Letters, c: Call)
    requires CleanCall(c)
    ensures NoBreaks(LineOf(c)) && Inert(u, LineOf(c) + "\n")
  {
    DetailNoBreaks(c);
    var line := LineOf(c);
    assert line[0] == "cycle="[0] && line[1] == "cycle="[1];
    InertPlain(u, line + "\n");
  }

  lemma NoticeIsSilent(u: Letters, limit: nat)
    ensures NoBreaks(NoticeLine(limit)) && Inert(u, NoticeLine(limit) + "\n")
  {
    DecimalNoBreaks(limit);
    PiecesAreSilent(u, ["# detail limit reached at ", Decimal(limit), " events; continuing summary only"]);
  }

  lemma {:induction false} BodyIsSilent(u: Letters, limit: nat, calls: seq<Call>, base: nat)
    requires forall k :: 0 <= k < |calls| ==> CleanCall(calls[k])
    ensures Silent(u, Body(limit, calls, base))
    decreases |calls|
  {
    if |calls| > base {
      var n := |calls| - 1;
      BodyIsSilent(u, limit, calls[..n], base);
      DetailIsSilent(u, calls[n]);
      NoticeIsSilent(u, limit);
      SilentConcat(u, Body(limit, calls[..n], base), LinesFor(limit, n, calls[n]));
    }
  }

  lemma WordIsSilent(u: Letters, lead: string, word: string, rest: string)
    requires AllSpace(lead) && NoBreaks(lead) && IsName(word) && |word| != 8 && NoBreaks(rest)
    requires |rest| > 0 ==> !IsWord(rest[0]) && rest[0] != '.'
    ensures Silent(u, [lead + (word + rest)])
  {
    InertWord(u, lead, word, rest + "\n");
    assert lead + (word + rest) + "\n" == lead + (word + (rest + "\n"));
    Joined(word, rest);
    Joined(lead, word + rest);
  }

  lemma TitlePieces()
    ensures |TITLE| > 0 && |TITLE[0]| > 1 && TITLE[0][0] == '-' && |RULE| > 0 && |RULE[0]| > 1 && RULE[0][0] == '-'
    ensures forall k :: 0 <= k < |TITLE| ==> NoBreaks(TITLE[k])
    ensures forall k :: 0 <= k < |RULE| ==> NoBreaks(RULE[k])
  {
    assert NoBreaks("--------") && NoBreaks(" peripheral model") && NoBreaks(" event summary ");
    assert NoBreaks("----------------") && NoBreaks("---------------");
  }

  lemma TitleIsSilent(u: Letters)
    ensures Silent(u, ["", Cat(TITLE)]) && Silent(u, [Cat(RULE)])
  {
    InertBlank(u);
    assert "" + "\n" == "\n";
    TitlePieces();
    PiecesAreSilent(u, TITLE);
    PiecesAreSilent(u, RULE);
  }

  lemma LogPathIsSilent(u: Letters, l: Logger)
    requires NoBreaks(l.path)
    ensures Silent(u, ["  " + ("detail_log" + ("=" + Cat([
              l.path, " emitted=", Decimal(l.emitted), " limit=", Decimal(l.limit),
              if l.suppressed then " suppressed=yes" else ""])))])
  {
    var parts := [l.path, " emitted=", Decimal(l.emitted), " limit=", Decimal(l.limit),
                  if l.suppressed then " suppressed=yes" else ""];
    DecimalNoBreaks(l.emitted);
    DecimalNoBreaks(l.limit);
    CatNoBreaks(parts);
    Joined("=", Cat(parts));
    WordIsSilent(u, "  ", "detail_log", "=" + Cat(parts));
  }

  // ---------------------------------------------------------------- the whole file

  predicate CleanTables(l: Logger) {
    forall k :: 0 <= k < |l.categories| ==> SpaceFree(l.categories[k].key) && CleanEntry(l.categories[k])
  }

  predicate EventTable(l: Logger) {
    forall k :: 0 <= k < |l.events| ==> SpaceFree(l.events[k].key) && l.events[k].key != ""
  }

  predicate Unbroken(lines: seq<string>) {
    forall k :: 0 <= k < |lines| ==> NoBreaks(lines[k])
  }

  /** Lines before the categories, between them and the events, and after the events. */
  function Before(l: Logger): seq<string> {
    ["", Cat(TITLE)] + (if l.filter == [] then [] else ["  " + ("category_filter" + ("=" + Commas(l.filter)))])
  }

  function Between(l: Logger): seq<string> {
    ["  " + ("event" + " breakdown:")]
  }

  function Behind(l: Logger): seq<string> {
    (if l.path == "" then [] else
       ["  " + ("detail_log" + ("=" + Cat([l.path, " emitted=", Decimal(l.emitted), " limit=", Decimal(l.limit),
                                           if l.suppressed then " suppressed=yes" else ""])))])
    + [Cat(RULE)]
  }

  function EventPart(l: Logger): seq<string> {
    if EventLines(l.events) == [] then ["    " + ("none" + "")] else EventLines(l.events)
  }

  lemma SummaryParts(l: Logger)
    ensures SummaryLines(l) == Before(l) + (CategoryLines(l.categories) + (Between(l) + (EventPart(l) + Behind(l))))
  {
  }

  lemma BeforeIsSilent(u: Letters, l: Logger)
    requires forall k :: 0 <= k < |l.filter| ==> NoBreaks(l.filter[k])
    ensures Silent(u, Before(l))
  {
    TitleIsSilent(u);
    CommasNoBreaks(l.filter);
    Joined("=", Commas(l.filter));
    WordIsSilent(u, "  ", "category_filter", "=" + Commas(l.filter));
  }

  lemma BetweenIsSilent(u: Letters, l: Logger)
    ensures Silent(u, Between(l))
  {
    WordIsSilent(u, "  ", "event", " breakdown:");
  }

  lemma BehindIsSilent(u: Letters, l: Logger)
    requires NoBreaks(l.path)
    ensures Silent(u, Behind(l))
  {
    TitleIsSilent(u);
    LogPathIsSilent(u, l);
  }

  lemma {:induction false} NoEventsNoCounts(t: seq<Entry>)
    requires EventLines(t) == []
    ensures CountsOf(t, true) == map[]
    decreases |t|
  {
    if |t| > 0 {
      NoEventsNoCounts(t[..|t| - 1]);
    }
  }

  lemma LoadEventPart(u: Letters, m: map<string, nat>, l: Logger)
    requires EventTable(l)
    ensures LoadFrom(u, Counts(m, map[]), Ended(EventPart(l))) == Counts(m, CountsOf(l.events, true))
    ensures Unbroken(EventPart(l))
  {
    if EventLines(l.events) == [] {
      NoEventsNoCounts(l.events);
      WordIsSilent(u, "    ", "none", "");
      LoadSilent(u, Counts(m, map[]), EventPart(l));
    } else {
      LoadEvents(u, m, l.events);
      EventLinesUnbroken(l.events);
    }
  }

  lemma EndedConcat(a: seq<string>, b: seq<string>)
    ensures Ended(a + b) == Ended(a) + Ended(b)
  {
  }

  /** Reading silent lines in front of others changes nothing. */
  lemma SkipSilent(u: Letters, c: Counts, a: seq<string>, b: seq<string>)
    requires Silent(u, a)
    ensures LoadFrom(u, c, Ended(a + b)) == LoadFrom(u, c, Ended(b))
  {
    EndedConcat(a, b);
    LoadConcat(u, c, Ended(a), Ended(b));
    LoadSilent(u, c, a);
  }

  lemma LoadSummary(u: Letters, l: Logger)
    requires CleanTables(l) && EventTable(l) && NoBreaks(l.path)
    requires forall k :: 0 <= k < |l.filter| ==> NoBreaks(l.filter[k])
    ensures LoadFrom(u, Counts(map[], map[]), Ended(SummaryLines(l)))
         == Counts(CountsOf(l.categories, false), CountsOf(l.events, true))
  {
    var none := Counts(map[], map[]);
    var cats := Counts(CountsOf(l.categories, false), map[]);
    var d := EventPart(l) + Behind(l);
    var c := CategoryLines(l.categories) + (Between(l) + d);
    SummaryParts(l);
    BeforeIsSilent(u, l);
    SkipSilent(u, none, Before(l), c);
    LoadCategories(u, l.categories);
    EndedConcat(CategoryLines(l.categories), Between(l) + d);
    LoadConcat(u, none, Ended(CategoryLines(l.categories)), Ended(Between(l) + d));
    BetweenIsSilent(u, l);
    SkipSilent(u, cats, Between(l), d);
    LoadEventPart(u, CountsOf(l.categories, false), l);
    EndedConcat(EventPart(l), Behind(l));
    LoadConcat(u, cats, Ended(EventPart(l)), Ended(Behind(l)));
    BehindIsSilent(u, l);
    LoadSilent(u, Counts(CountsOf(l.categories, false), CountsOf(l.events, true)), Behind(l));
  }

  lemma SummaryUnbroken(u: Letters, l: Logger)
    requires CleanTables(l) && EventTable(l) && NoBreaks(l.path)
    requires forall k :: 0 <= k < |l.filter| ==> NoBreaks(l.filter[k])
    ensures Unbroken(SummaryLines(l))
  {
    SummaryParts(l);
    BeforeIsSilent(u, l);
    BetweenIsSilent(u, l);
    BehindIsSilent(u, l);
    LoadEventPart(u, map[], l);
    forall k | 0 <= k < |l.categories|
      ensures NoBreaks(CategoryLines(l.categories)[k])
    {
      CategoryNoBreaks(l.categories[k]);
    }
  }

  // ---------------------------------------------------------------- clean runs

  /** No name carries space and no text a line break; operations the logger does not accept
      are free. */
  predicate CleanOp(l: Logger, op: Op) {
    match op
    case WatchOp(c) => c.Str? && Allowed(l, c.s) ==> SpaceFree(c.s)
    case RecordOp(c) => Accepts(l, c) ==> CleanCall(c)
    case OpenOp => true
    case CloseOp => true
  }

  predicate CleanRun(l: Logger, ops: seq<Op>) {
    NoBreaks(l.path) && (forall k :: 0 <= k < |l.filter| ==> NoBreaks(l.filter[k]))
    && (forall k :: 0 <= k < |ops| ==> CleanOp(l, ops[k]))
  }

  lemma SpaceFreeUnbroken(s: string)
    requires SpaceFree(s)
    ensures NoBreaks(s)
  {
  }

  lemma PutEntries(t: seq<Entry>, key: string, s: Stats, k: nat)
    requires k < |Put(t, key, s)|
    ensures Put(t, key, s)[k] == Entry(key, s) || exists j :: 0 <= j < |t| && Put(t, key, s)[k] == t[j]
  {
    var n := Place(t, key);
    if !(n < |t| && t[n].key == key) && k > n {
      assert Put(t, key, s)[k] == t[k - 1];
    }
  }

  lemma GetIsEntry(t: seq<Entry>, key: string)
    ensures Get(t, key) == NO_STATS || exists j :: 0 <= j < |t| && t[j] == Entry(key, Get(t, key))
  {
    var n := Place(t, key);
    if n < |t| && t[n].key == key {
      assert t[n] == Entry(key, Get(t, key));
    }
  }

  lemma PutKeepsClean(t: seq<Entry>, key: string, s: Stats)
    requires forall k :: 0 <= k < |t| ==> SpaceFree(t[k].key) && CleanEntry(t[k])
    requires SpaceFree(key) && CleanEntry(Entry(key, s))
    ensures forall k :: 0 <= k < |Put(t, key, s)| ==> SpaceFree(Put(t, key, s)[k].key) && CleanEntry(Put(t, key, s)[k])
  {
    forall k | 0 <= k < |Put(t, key, s)|
      ensures SpaceFree(Put(t, key, s)[k].key) && CleanEntry(Put(t, key, s)[k])
    {
      PutEntries(t, key, s, k);
    }
  }

  lemma GetIsClean(t: seq<Entry>, key: string)
    requires forall k :: 0 <= k < |t| ==> SpaceFree(t[k].key) && CleanEntry(t[k])
    ensures CleanEntry(Entry(key, Get(t, key)))
  {
    GetIsEntry(t, key);
  }

  lemma ApplyClean(l: Logger, op: Op)
    requires CleanTables(l) && CleanOp(l, op)
    ensures CleanTables(Apply(l, op))
  {
    match op
    case WatchOp(c) =>
      if c.Str? && Allowed(l, c.s) {
        GetIsClean(l.categories, c.s);
        PutKeepsClean(l.categories, c.s, Get(l.categories, c.s));
      }
    case RecordOp(c) =>
      if Accepts(l, c) {
        GetIsClean(l.categories, c.category.s);
        SpaceFreeUnbroken(c.event.s);
        PutKeepsClean(l.categories, c.category.s, Update(Get(l.categories, c.category.s), SnapshotOf(c)));
      }
    case OpenOp =>
    case CloseOp =>
  }

  lemma ApplyEventTable(l: Logger, op: Op)
    requires EventTable(l) && CleanOp(l, op)
    ensures EventTable(Apply(l, op))
  {
    if op.RecordOp? && Accepts(l, op.call) {
      var c := op.call;
      var s := Update(Get(l.events, EventKey(c)), SnapshotOf(c));
      assert SpaceFree(EventKey(c)) && EventKey(c) != "";
      forall k | 0 <= k < |Put(l.events, EventKey(c), s)|
        ensures SpaceFree(Put(l.events, EventKey(c), s)[k].key) && Put(l.events, EventKey(c), s)[k].key != ""
      {
        PutEntries(l.events, EventKey(c), s, k);
      }
    }
  }

  lemma CleanOpFrame(l: Logger, m: Logger, op: Op)
    requires SameSettings(l, m)
    ensures CleanOp(l, op) <==> CleanOp(m, op)
  {
  }

  lemma {:induction false} RunClean(l: Logger, ops: seq<Op>)
    requires l.categories == [] && l.events == [] && CleanRun(l, ops)
    ensures CleanTables(Run(l, ops)) && EventTable(Run(l, ops))
    decreases |ops|
  {
    if |ops| > 0 {
      var front, op := ops[..|ops| - 1], ops[|ops| - 1];
      RunClean(l, front);
      RunSettings(l, front);
      CleanOpFrame(l, Run(l, front), op);
      ApplyClean(Run(l, front), op);
      ApplyEventTable(Run(l, front), op);
    }
  }

  lemma {:induction false} OpenCallsAreClean(l: Logger, ops: seq<Op>)
    requires forall k :: 0 <= k < |ops| ==> CleanOp(l, ops[k])
    ensures forall k :: 0 <= k < |OpenCalls(l, ops)| ==> CleanCall(OpenCalls(l, ops)[k])
    decreases |ops|
  {
    if |ops| > 0 {
      OpenCallsAreClean(l, ops[..|ops| - 1]);
    }
  }

  // ---------------------------------------------------------------- the round trip

  /** The lines of the log before its summary. */
  function FrontLines(l: Logger, ops: seq<Op>): seq<string> {
    HeaderLines(l.filter) + Body(l.limit, OpenCalls(l, ops), Earlier(l, ops))
  }

  lemma FileLines(l: Logger, ops: seq<Op>)
    requires Fresh(l) && l.path != "" && Opened(ops)
    ensures Close(Run(l, ops)).file == Unlines(FrontLines(l, ops) + SummaryLines(Run(l, ops)))
  {
    OpenIff(l, ops);
    RunWrites(l, ops);
    UnlinesAppend(FrontLines(l, ops), SummaryLines(Run(l, ops)));
  }

  /** A fresh logger, watched, opened and fed in any order, its log open at the end: the
      closed log reads back as the tables. */
  lemma {:induction false} ReadBack(u: Letters, l: Logger, ops: seq<Op>)
    requires Fresh(l) && l.path != "" && Opened(ops) && CleanRun(l, ops)
    ensures var m := Run(l, ops);
            LoadLines(u, Lines(Close(m).file)) == Counts(CountsOf(m.categories, false), CountsOf(m.events, true))
  {
    var m := Run(l, ops);
    FileLines(l, ops);
    RunSettings(l, ops);
    RunClean(l, ops);
    FrontIsSilent(u, l, ops);
    SummaryUnbroken(u, m);
    LoadSummary(u, m);
    LoadParts(u, FrontLines(l, ops), SummaryLines(m));
  }

  lemma FrontIsSilent(u: Letters, l: Logger, ops: seq<Op>)
    requires CleanRun(l, ops)
    ensures Silent(u, FrontLines(l, ops))
  {
    OpenCallsAreClean(l, ops);
    HeaderIsSilent(u, l.filter);
    BodyIsSilent(u, l.limit, OpenCalls(l, ops), Earlier(l, ops));
  }

  lemma LoadParts(u: Letters, front: seq<string>, back: seq<string>)
    requires Silent(u, front) && Unbroken(back)
    ensures LoadLines(u, Lines(Unlines(front + back))) == LoadFrom(u, Counts(map[], map[]), Ended(back))
  {
    LinesOfUnlines(front + back);
    LoadIsLoadFrom(u, Ended(front + back));
    SkipSilent(u, Counts(map[], map[]), front, back);
  }

  lemma {:induction false} CountsOfTable(t: seq<Entry>, byEvent: bool, key: string)
    requires Sorted(t)
    ensures key in CountsOf(t, byEvent) <==> exists k :: 0 <= k < |t| && t[k].key == key && Shows(t[k], byEvent)
    ensures key in CountsOf(t, byEvent) ==> CountsOf(t, byEvent)[key] == Get(t, key).count
    decreases |t|
  {
    if |t| > 0 {
      var n := |t| - 1;
      var e := t[n];
      CountsOfTable(t[..n], byEvent, key);
      if key in CountsOf(t[..n], byEvent) {
        var k :| 0 <= k < n && t[..n][k].key == key && Shows(t[..n][k], byEvent);
        assert t[k].key == key;
        GetAt(t, k);
        GetAt(t[..n], k);
        LessIrreflexive(key);
        assert e.key != key;
      }
      GetAt(t, n);
      if key == e.key && Shows(e, byEvent) {
        assert t[n].key == key;
      }
    }
  }

  /** For every such run with space-free names and unbroken texts: the checker's category
      counts hold exactly the categories watched or recorded whose names are word
      characters, with the number of accepted records of each, watched zeros included. */
  lemma {:induction false} CategoriesReadBack(u: Letters, l: Logger, ops: seq<Op>, key: string)
    requires Fresh(l) && l.path != "" && Opened(ops) && CleanRun(l, ops)
    ensures var c := LoadLines(u, Lines(Close(Run(l, ops)).file)).categories;
            (key in c <==> Touched(l, ops, key) && IsName(key))
            && (key in c ==> c[key] == |Matching(l, ops, key, false)|)
  {
    var m := Run(l, ops);
    ReadBack(u, l, ops);
    RunSorted(l, ops);
    CountsOfTable(m.categories, false, key);
    TableHoldsTouched(l, ops, key);
    CategoriesAreTallies(l, ops, key);
    if Has(m.categories, key) && IsName(key) {
      var k :| 0 <= k < |m.categories| && m.categories[k].key == key;
      assert Shows(m.categories[k], false);
    }
  }

  /** And its event counts hold exactly the events recorded whose keys are two names. */
  lemma {:induction false} EventsReadBack(u: Letters, l: Logger, ops: seq<Op>, key: string)
    requires Fresh(l) && l.path != "" && Opened(ops) && CleanRun(l, ops)
    ensures var e := LoadLines(u, Lines(Close(Run(l, ops)).file)).events;
            (key in e <==> |Matching(l, ops, key, true)| > 0 && IsEventKey(key))
            && (key in e ==> e[key] == |Matching(l, ops, key, true)|)
  {
    var m := Run(l, ops);
    ReadBack(u, l, ops);
    RunSorted(l, ops);
    CountsOfTable(m.events, true, key);
    EventsAreTallies(l, ops, key);
    EventPresent(m.events, key);
  }

  lemma EventPresent(t: seq<Entry>, key: string)
    requires Sorted(t)
    ensures Get(t, key).count > 0 && IsEventKey(key)
            <==> exists k :: 0 <= k < |t| && t[k].key == key && Shows(t[k], true)
  {
    GetIsEntry(t, key);
    if Get(t, key).count > 0 && IsEventKey(key) {
      var k :| 0 <= k < |t| && t[k] == Entry(key, Get(t, key));
      assert t[k].key == key && Shows(t[k], true);
    }
    if k :| 0 <= k < |t| && t[k].key == key && Shows(t[k], true) {
      GetAt(t, k);
    }
  }
}
