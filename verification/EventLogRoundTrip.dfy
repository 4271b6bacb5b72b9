/** What the logger writes, and that the checker reads back exactly what was counted. */
module EventLogRoundTrip {
  import opened LogText
  import opened EventLog
  import opened EventLogTables

  // ---------------------------------------------------------------- the file a run leaves

  /** A logger that has been set up and not used. */
  predicate Fresh(l: Logger) {
    !l.isOpen && l.emitted == 0 && !l.suppressed && l.categories == [] && l.events == []
  }

  /** Some open is followed by no close. */
  predicate Opened(ops: seq<Op>) {
    exists k :: 0 <= k < |ops| && ops[k] == OpenOp && forall j :: k < j < |ops| ==> ops[j] != CloseOp
  }

  lemma OpenedGrows(ops: seq<Op>, op: Op)
    ensures Opened(ops + [op]) <==> op == OpenOp || (op != CloseOp && Opened(ops))
  {
    var all := ops + [op];
    assert all[|ops|] == op && forall k :: 0 <= k < |ops| ==> all[k] == ops[k];
    if op == OpenOp {
      assert all[|ops|] == OpenOp;
    } else if op != CloseOp && Opened(ops) {
      var k :| 0 <= k < |ops| && ops[k] == OpenOp && forall j :: k < j < |ops| ==> ops[j] != CloseOp;
      assert all[k] == OpenOp;
    }
  }

  lemma {:induction false} OpenIff(l: Logger, ops: seq<Op>)
    requires Fresh(l)
    ensures Run(l, ops).isOpen <==> l.path != "" && Opened(ops)
    decreases |ops|
  {
    if |ops| > 0 {
      var front, op := ops[..|ops| - 1], ops[|ops| - 1];
      OpenIff(l, front);
      RunSettings(l, front);
      assert ops == front + [op];
      OpenedGrows(front, op);
    }
  }

  /** The records accepted while the log was open. */
  function OpenCalls(l: Logger, ops: seq<Op>): seq<Call>
    decreases |ops|
  {
    if |ops| == 0 then []
    else
      var n := |ops| - 1;
      OpenCalls(l, ops[..n])
      + if ops[n].RecordOp? && Accepts(l, ops[n].call) && Run(l, ops[..n]).isOpen then [ops[n].call] else []
  }

  /** How many of them came before the log was last opened. */
  function Earlier(l: Logger, ops: seq<Op>): nat
    decreases |ops|
  {
    if |ops| == 0 then 0
    else if ops[|ops| - 1] == OpenOp then |OpenCalls(l, ops[..|ops| - 1])|
    else Earlier(l, ops[..|ops| - 1])
  }

  function LineOf(c: Call): string {
    if c.category.Str? && c.event.Str? then DetailLine(c.ctx, c.category.s, c.event.s, c.addr, c.value, c.detail)
    else ""
  }

  /** What the k-th record writes: a line below the limit, one notice at it. */
  function LinesFor(limit: nat, k: nat, c: Call): seq<string> {
    if k < limit then [LineOf(c)] else if k == limit && limit > 0 then [NoticeLine(limit)] else []
  }

  /** What all but the first `base` records write. */
  function Body(limit: nat, calls: seq<Call>, base: nat): seq<string>
    decreases |calls|
  {
    if |calls| <= base then []
    else Body(limit, calls[..|calls| - 1], base) + LinesFor(limit, |calls| - 1, calls[|calls| - 1])
  }

  /** With no record before the open the body lists the calls. */
  lemma {:induction false} BodyIs(limit: nat, calls: seq<Call>)
    ensures Lists(limit, calls, Body(limit, calls, 0))
    decreases |calls|
  {
    if |calls| > 0 {
      var n := |calls| - 1;
      BodyIs(limit, calls[..n]);
      var b, more := Body(limit, calls[..n], 0), LinesFor(limit, n, calls[n]);
      assert Body(limit, calls, 0) == b + more;
      BodyStep(limit, calls, b);
    }
  }

  /** One line for each of the first `limit` calls, and one notice if there are more. */
  predicate Lists(limit: nat, calls: seq<Call>, b: seq<string>) {
    |b| == (if limit == 0 then 0 else if |calls| <= limit then |calls| else limit + 1)
    && forall k :: 0 <= k < |b| ==> b[k] == if k < limit then LineOf(calls[k]) else NoticeLine(limit)
  }

  lemma BodyStep(limit: nat, calls: seq<Call>, b: seq<string>)
    requires |calls| > 0 && Lists(limit, calls[..|calls| - 1], b)
    ensures Lists(limit, calls, b + LinesFor(limit, |calls| - 1, calls[|calls| - 1]))
  {
  }

  predicate Written(l: Logger, m: Logger, calls: seq<Call>, base: nat) {
    SameSettings(l, m) && base <= |calls| && Kept(l, m, |calls|)
    && (m.isOpen ==> l.path != "" && m.file == Unlines(HeaderLines(l.filter) + Body(l.limit, calls, base)))
  }

  /** The two records of progress after n calls. */
  predicate Kept(l: Logger, m: Logger, n: nat) {
    m.emitted == (if n <= l.limit then n else l.limit) && (m.suppressed <==> 0 < l.limit < n)
  }

  lemma DetailWrites(m: Logger, n: nat, c: Call)
    requires m.isOpen && c.category.Str? && c.event.Str? && Kept(m, m, n)
    ensures WithDetail(m, c).file == m.file + Unlines(LinesFor(m.limit, n, c)) && Kept(m, WithDetail(m, c), n + 1)
  {
    UnlinesOne(LineOf(c));
    UnlinesOne(NoticeLine(m.limit));
  }

  lemma RecordDetail(m: Logger, n: nat, c: Call)
    requires m.isOpen && Accepts(m, c) && Kept(m, m, n)
    ensures Record(m, c).file == m.file + Unlines(LinesFor(m.limit, n, c)) && Kept(m, Record(m, c), n + 1)
    ensures Record(m, c).isOpen && SameSettings(m, Record(m, c))
  {
    DetailWrites(Tabled(m, c), n, c);
  }

  /** The logger with the call in its tables. */
  function Tabled(m: Logger, c: Call): Logger
    requires Accepts(m, c)
  {
    m.(categories := Put(m.categories, c.category.s, Update(Get(m.categories, c.category.s), SnapshotOf(c))),
       events := Put(m.events, EventKey(c), Update(Get(m.events, EventKey(c)), SnapshotOf(c))))
  }

  lemma UnlinesOne(s: string)
    ensures Unlines([s]) == s + "\n"
  {
    assert [s][1..] == [];
    assert Unlines([s]) == s + "\n" + Unlines([]);
  }

  lemma RecordWrites(l: Logger, m: Logger, calls: seq<Call>, base: nat, c: Call)
    requires Written(l, m, calls, base) && m.isOpen && Accepts(m, c)
    ensures Written(l, Record(m, c), calls + [c], base)
  {
    var h, b, more := HeaderLines(l.filter), Body(l.limit, calls, base), LinesFor(l.limit, |calls|, c);
    assert (calls + [c])[..|calls|] == calls;
    assert h + (b + more) == (h + b) + more;
    UnlinesAppend(h + b, more);
    RecordDetail(m, |calls|, c);
  }

  lemma {:induction false} NothingBefore(limit: nat, calls: seq<Call>)
    ensures Body(limit, calls, |calls|) == []
  {
  }

  /** However a fresh logger is used, as long as the log is open the file holds the header
      and what the records accepted since the open call for: a detail line for each below
      the limit, counted over all opens, and a single notice at it. */
  lemma {:induction false} RunWrites(l: Logger, ops: seq<Op>)
    requires Fresh(l)
    ensures Written(l, Run(l, ops), OpenCalls(l, ops), Earlier(l, ops))
    decreases |ops|
  {
    if |ops| > 0 {
      var front, op := ops[..|ops| - 1], ops[|ops| - 1];
      var m, calls := Run(l, front), OpenCalls(l, front);
      RunWrites(l, front);
      if op.RecordOp? && Accepts(l, op.call) && m.isOpen {
        RecordWrites(l, m, calls, Earlier(l, front), op.call);
      } else {
        assert OpenCalls(l, ops) == calls;
        if op == OpenOp {
          NothingBefore(l.limit, calls);
          assert HeaderLines(l.filter) + [] == HeaderLines(l.filter);
        }
      }
    }
  }

  // ---------------------------------------------------------------- lines the checker ignores

  predicate Inert(u: Letters, line: string) {
    ScanCategory(u, line) == None && ScanEvent(u, line) == None
  }

  lemma InertPlain(u: Letters, line: string)
    requires |line| > 1 && !IsSpace(line[0]) && !(line[0] == 'c' && line[1] == 'a')
    ensures Inert(u, line)
  {
    assert line[0..] == line;
    assert CATEGORY[0] == 'c' && CATEGORY[1] == 'a';
  }

  lemma InertWord(u: Letters, lead: string, word: string, rest: string)
    requires AllSpace(lead) && IsName(word) && |rest| > 0 && !IsWord(rest[0]) && rest[0] != '.'
    requires |word| != 8
    ensures Inert(u, lead + (word + rest))
  {
    var body := word + rest;
    SpanOf(word, rest, IsWord);
    Halves(word, rest);
    SpanOf(lead, body, IsSpace);
    Halves(lead, body);
    KeywordIs(word, rest);
  }

  /** Only the word `category` followed by an equals sign is the keyword. */
  lemma KeywordIs(word: string, rest: string)
    requires IsName(word) && |rest| > 0 && !IsWord(rest[0])
    ensures CATEGORY <= word + rest ==> |word| == 8 && rest[0] == '='
  {
    if CATEGORY <= word + rest {
      var s := word + rest;
      PrefixSplit(CATEGORY, s);
      assert CATEGORY == "category" + "=";
      assert s == "category" + ("=" + s[9..]);
      SpanOf("category", "=" + s[9..], IsWord);
      SpanOf(word, rest, IsWord);
      assert s[|word|] == rest[0];
    }
  }

  lemma InertBlank(u: Letters)
    ensures Inert(u, "\n")
  {
    assert "\n"[1..] == "";
    assert Span("", IsSpace) == 0;
    assert Span("\n", IsSpace) == 1 + Span("\n"[1..], IsSpace);
  }

  // ---------------------------------------------------------------- lines it reads

  predicate SpaceFree(s: string) {
    forall k :: 0 <= k < |s| ==> !IsSpace(s[k])
  }

  /** A name without space in it is scanned whole or not at all. */
  lemma NamedIs(u: Letters, key: string, tail: string, mark: string, before: string)
    requires SpaceFree(key) && |tail| > 0 && IsSpace(tail[0])
    ensures ScanNamed(u, key + tail, mark, before)
         == if !IsName(key) then None
            else match ScanTail(u, tail, mark) case None => None case Some(v) => Some(Found(before + key, v))
  {
    if IsName(key) {
      SpanOf(key, tail, IsWord);
      Halves(key, tail);
    } else {
      NameStops(key, tail);
    }
  }

  lemma NameStops(key: string, tail: string)
    requires SpaceFree(key) && |tail| > 0 && IsSpace(tail[0]) && !IsName(key)
    ensures var n := Span(key + tail, IsWord); n == 0 || (n < |key + tail| && Span((key + tail)[n..], IsSpace) == 0)
  {
    var s := key + tail;
    var n := Span(s, IsWord);
    assert s[|key|] == tail[0];
    assert forall k :: 0 <= k < |key| ==> s[k] == key[k];
  }

  lemma CategoryRead(u: Letters, e: Entry)
    requires SpaceFree(e.key)
    ensures ScanCategory(u, CategoryLine(e) + "\n") == if IsName(e.key) then Some(Found(e.key, e.stats.count)) else None
    ensures ScanEvent(u, CategoryLine(e) + "\n") == None
  {
    var rest := CategoryText(e);
    var digits := Decimal(e.stats.count);
    var tail := " " + (COUNT + (digits + rest));
    CategoryBody(u, e.key, tail, digits, rest);
    DecimalRoundTrip(e.stats.count);
    LineScans(u, "  ", CATEGORY + (e.key + tail));
    KeywordIsNoEvent(u, e.key + tail);
  }

  lemma CategoryText(e: Entry) returns (rest: string)
    ensures |rest| > 0 && rest[0] == ' '
    ensures CategoryLine(e) + "\n"
         == "  " + (CATEGORY + (e.key + (" " + (COUNT + (Decimal(e.stats.count) + rest)))))
  {
    rest := SnapshotText("first", e.stats.first) + SnapshotText("last", e.stats.last) + "\n";
    assert SnapshotText("first", e.stats.first)[0] == ' ';
  }

  /** Leading space is skipped by both patterns. */
  lemma LineScans(u: Letters, lead: string, body: string)
    requires |lead| > 0 && AllSpace(lead) && |body| > 0 && !IsSpace(body[0])
    ensures ScanCategory(u, lead + body) == ScanKeyword(u, body)
    ensures ScanEvent(u, lead + body) == ScanDotted(u, body)
  {
    LineBody(lead, body);
  }

  lemma CategoryBody(u: Letters, key: string, tail: string, digits: string, rest: string)
    requires SpaceFree(key) && TailMatch(u, tail, " ", COUNT, digits, rest)
    ensures ScanKeyword(u, CATEGORY + (key + tail))
         == if IsName(key) then Some(Found(key, ParseDecimal(digits))) else None
  {
    TailFound(u, tail, " ", COUNT, digits, rest);
    NamedIs(u, key, tail, COUNT, "");
    assert "" + key == key;
    Halves(CATEGORY, key + tail);
  }

  lemma LineBody(lead: string, body: string)
    requires AllSpace(lead) && |body| > 0 && !IsSpace(body[0])
    ensures Span(lead + body, IsSpace) == |lead| && (lead + body)[|lead|..] == body
  {
    SpanOf(lead, body, IsSpace);
    Halves(lead, body);
  }

  lemma KeywordIsNoEvent(u: Letters, s: string)
    ensures ScanDotted(u, CATEGORY + s) == None
  {
    assert CATEGORY + s == "category" + ("=" + s);
    SpanOf("category", "=" + s, IsWord);
    Halves("category", "=" + s);
  }

  /** A key made of two names and a dot. */
  predicate Dotted(key: string, cat: string, ev: string) {
    IsName(cat) && IsName(ev) && key == cat + "." + ev
  }

  ghost predicate IsEventKey(key: string) {
    exists cat, ev :: Dotted(key, cat, ev)
  }

  lemma EventRead(u: Letters, e: Entry)
    requires SpaceFree(e.key) && e.key != ""
    ensures ScanEvent(u, EventLine(e) + "\n")
         == if IsEventKey(e.key) then Some(Found(e.key, e.stats.count)) else None
    ensures ScanCategory(u, EventLine(e) + "\n") == None
  {
    var digits := Decimal(e.stats.count);
    var tail := " " + ("x" + (digits + "\n"));
    EventText(e);
    TailFound(u, tail, " ", "x", digits, "\n");
    DecimalRoundTrip(e.stats.count);
    EventBody(u, e.key, tail, e.stats.count);
    NoKeyword(u, e.key, tail, digits);
    assert (e.key + tail)[0] == e.key[0];
    LineScans(u, "    ", e.key + tail);
  }

  lemma EventText(e: Entry)
    ensures EventLine(e) + "\n" == "    " + (e.key + (" " + ("x" + (Decimal(e.stats.count) + "\n"))))
  {
  }

  lemma EventBody(u: Letters, key: string, tail: string, v: nat)
    requires SpaceFree(key) && |tail| > 0 && IsSpace(tail[0]) && ScanTail(u, tail, "x") == Some(v)
    ensures ScanDotted(u, key + tail) == if IsEventKey(key) then Some(Found(key, v)) else None
  {
    if IsEventKey(key) {
      var cat, ev :| Dotted(key, cat, ev);
      assert key + tail == cat + ("." + (ev + tail));
      DottedFound(u, cat, ev, tail, v);
    } else {
      NoEvent(u, key, tail);
    }
  }

  lemma NoEvent(u: Letters, key: string, tail: string)
    requires SpaceFree(key) && |tail| > 0 && IsSpace(tail[0]) && !IsEventKey(key)
    ensures ScanDotted(u, key + tail) == None
  {
    var s := key + tail;
    var n := Span(s, IsWord);
    assert s[|key|] == tail[0];
    if n > 0 && "." <= s[n..] {
      assert s[n..][0] == "."[0];
      assert forall k :: 0 <= k < n ==> key[k] == s[k];
      NoSecondName(key, n);
      assert s[n + 1..] == key[n + 1..] + tail;
      NamedIs(u, key[n + 1..], tail, "x", s[..n] + ".");
    }
  }

  lemma NoSecondName(key: string, n: nat)
    requires 0 < n < |key| && key[n] == '.' && (forall k :: 0 <= k < n ==> IsWord(key[k])) && !IsEventKey(key)
    ensures !IsName(key[n + 1..])
  {
    assert key == key[..n] + "." + key[n + 1..];
    assert !Dotted(key, key[..n], key[n + 1..]);
  }

  lemma NoKeyword(u: Letters, key: string, tail: string, digits: string)
    requires SpaceFree(key) && tail == " " + ("x" + (digits + "\n"))
    ensures ScanKeyword(u, key + tail) == None
  {
    var s := key + tail;
    if CATEGORY <= s {
      assert s[|key|] == ' ';
      assert forall k :: 0 <= k < |CATEGORY| ==> CATEGORY[k] != ' ' && s[k] == CATEGORY[k];
      var rest := key[|CATEGORY|..];
      assert s[|CATEGORY|..] == rest + tail;
      NamedIs(u, rest, tail, COUNT, "");
      LineBody(" ", "x" + (digits + "\n"));
      assert ("x" + (digits + "\n"))[0] == 'x' && COUNT[0] == 'c';
    }
  }

  // ---------------------------------------------------------------- no line is broken in two

  lemma Joined(a: string, b: string)
    requires NoBreaks(a) && NoBreaks(b)
    ensures NoBreaks(a + b)
  {
  }

  lemma {:induction false} CatNoBreaks(parts: seq<string>)
    requires forall k :: 0 <= k < |parts| ==> NoBreaks(parts[k])
    ensures NoBreaks(Cat(parts))
    decreases |parts|
  {
    if |parts| > 0 {
      CatNoBreaks(parts[1..]);
      Joined(parts[0], Cat(parts[1..]));
    }
  }

  lemma {:induction false} CatLast(parts: seq<string>, p: string)
    ensures Cat(parts + [p]) == Cat(parts) + p
    decreases |parts|
  {
    if |parts| == 0 {
      assert parts + [p] == [p] && [p][1..] == [];
      assert Cat([p]) == p + Cat([]);
    } else {
      assert (parts + [p])[1..] == parts[1..] + [p];
      CatLast(parts[1..], p);
    }
  }

  lemma {:induction false} HexNoBreaks(n: nat, digits: nat)
    ensures NoBreaks(Hex(n, digits))
    decreases digits
  {
    if digits > 0 {
      HexNoBreaks(n / 16, digits - 1);
      assert !IsBreak(HexDigit(n % 16));
    }
  }

  lemma Hex8NoBreaks(n: nat)
    ensures NoBreaks(Hex8(n))
  {
    HexNoBreaks(n, 8);
    Joined("0x", Hex(n, 8));
  }

  lemma DecimalNoBreaks(n: nat)
    ensures NoBreaks(Decimal(n))
  {
  }

  lemma DetailNoBreaks(c: Call)
    requires c.category.Str? && c.event.Str? && NoBreaks(c.category.s) && NoBreaks(c.event.s) && NoBreaks(c.detail)
    ensures NoBreaks(LineOf(c))
  {
    DecimalNoBreaks(c.ctx.cycle);
    DecimalNoBreaks(c.ctx.committed);
    Hex8NoBreaks(c.ctx.pc);
    Hex8NoBreaks(c.addr);
    Hex8NoBreaks(c.value);
    Joined(" detail=", c.detail);
    CatNoBreaks(["cycle=", Decimal(c.ctx.cycle), " committed=", Decimal(c.ctx.committed), " pc=", Hex8(c.ctx.pc),
                 " category=", c.category.s, " event=", c.event.s, " addr=", Hex8(c.addr), " value=", Hex8(c.value),
                 if c.detail == "" then "" else " detail=" + c.detail]);
  }

  predicate CleanSnapshot(s: Snapshot) {
    s.Snapshot? ==> NoBreaks(s.event) && NoBreaks(s.detail)
  }

  lemma SnapshotNoBreaks(tag: string, s: Snapshot)
    requires NoBreaks(tag) && CleanSnapshot(s)
    ensures NoBreaks(SnapshotText(tag, s))
  {
    match s
    case NoSnapshot => CatNoBreaks([" ", tag, "=none"]);
    case Snapshot(ctx, addr, value, event, detail) =>
      DecimalNoBreaks(ctx.cycle);
      DecimalNoBreaks(ctx.committed);
      Hex8NoBreaks(ctx.pc);
      Hex8NoBreaks(addr);
      Hex8NoBreaks(value);
      Joined(",detail:", detail);
      CatNoBreaks([" ", tag, "=", event, "@cycle:", Decimal(ctx.cycle), ",committed:", Decimal(ctx.committed),
                   ",pc:", Hex8(ctx.pc), ",addr:", Hex8(addr), ",value:", Hex8(value),
                   if detail == "" then "" else ",detail:" + detail]);
  }

  predicate CleanEntry(e: Entry) {
    CleanSnapshot(e.stats.first) && CleanSnapshot(e.stats.last)
  }

  lemma CategoryNoBreaks(e: Entry)
    requires NoBreaks(e.key) && CleanEntry(e)
    ensures NoBreaks(CategoryLine(e))
  {
    SnapshotNoBreaks("first", e.stats.first);
    SnapshotNoBreaks("last", e.stats.last);
    var snaps := SnapshotText("first", e.stats.first) + SnapshotText("last", e.stats.last);
    Joined(SnapshotText("first", e.stats.first), SnapshotText("last", e.stats.last));
    DecimalNoBreaks(e.stats.count);
    Joined(Decimal(e.stats.count), snaps);
    Joined(COUNT, Decimal(e.stats.count) + snaps);
    Joined(" ", COUNT + (Decimal(e.stats.count) + snaps));
    Joined(e.key, " " + (COUNT + (Decimal(e.stats.count) + snaps)));
    Joined(CATEGORY, e.key + (" " + (COUNT + (Decimal(e.stats.count) + snaps))));
    Joined("  ", CATEGORY + (e.key + (" " + (COUNT + (Decimal(e.stats.count) + snaps)))));
  }

  lemma EventNoBreaks(e: Entry)
    requires NoBreaks(e.key)
    ensures NoBreaks(EventLine(e))
  {
    DecimalNoBreaks(e.stats.count);
    Joined("x", Decimal(e.stats.count) + "");
    Joined(" ", "x" + (Decimal(e.stats.count) + ""));
    Joined(e.key, " " + ("x" + (Decimal(e.stats.count) + "")));
    Joined("    ", e.key + (" " + ("x" + (Decimal(e.stats.count) + ""))));
  }

  lemma {:induction false} CommasNoBreaks(names: seq<string>)
    requires forall k :: 0 <= k < |names| ==> NoBreaks(names[k])
    ensures NoBreaks(Commas(names))
    decreases |names|
  {
    if |names| > 1 {
      CommasNoBreaks(names[1..]);
      Joined(",", Commas(names[1..]));
      Joined(names[0], "," + Commas(names[1..]));
    }
  }
}
