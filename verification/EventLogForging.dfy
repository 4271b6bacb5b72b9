/** Why names must be free of space and texts of line breaks: otherwise the closed log reads
    back categories that were never counted. */
module EventLogForging {
  import opened LogText
  import opened EventLog
  import opened EventLogTables
  import opened EventLogRoundTrip
  import opened EventLogChecker

  // ---------------------------------------------------------------- a line inside any text

  /** Some line of the text is exactly this one. */
  predicate HasLine(text: string, line: string) {
    exists k :: 0 <= k < |Lines(text)| && Lines(text)[k] == line + "\n"
  }

  lemma HasLineCons(first: string, text: string, rest: string, line: string)
    requires Lines(text) == [first] + Lines(rest) && HasLine(rest, line)
    ensures HasLine(text, line)
  {
    var k :| 0 <= k < |Lines(rest)| && Lines(rest)[k] == line + "\n";
    assert Lines(text)[k + 1] == line + "\n";
  }

  lemma FirstLine(line: string, after: string)
    requires NoBreaks(line)
    ensures HasLine(line + "\n" + after, line)
  {
    LinesCons(line, after);
    assert Lines(line + "\n" + after)[0] == line + "\n";
  }

  lemma {:induction false} FirstBreakOf(a: string, b: string)
    requires |b| > 0 && IsBreak(b[0])
    ensures FirstBreak(a + b) == FirstBreak(a)
    decreases |a|
  {
    if |a| > 0 && !IsBreak(a[0]) {
      assert (a + b)[1..] == a[1..] + b;
      FirstBreakOf(a[1..], b);
    } else if |a| == 0 {
      assert a + b == b;
    }
  }

  /** After any text and a break, an unbroken line that ends is read as a line. */
  lemma {:induction false} LineInside(before: string, br: char, line: string, after: string)
    requires IsBreak(br) && NoBreaks(line) && |line| > 0
    ensures HasLine(before + ([br] + (line + "\n" + after)), line)
    decreases |before|
  {
    var body := line + "\n" + after;
    var text := before + ([br] + body);
    var n := FirstBreak(before);
    FirstBreakOf(before, [br] + body);
    FirstLine(line, after);
    assert body[0] == line[0];
    LinesStep(text);
    var m := Skipped(text, n);
    DropPast(before, [br] + body, m);
    if n < |before| && m <= |before| {
      LineInside(before[m..], br, line, after);
    } else {
      assert m == |before| + 1 && ([br] + body)[1..] == body;
    }
    HasLineCons(text[..n] + "\n", text, text[m..], line);
  }

  /** Where the next line starts after the break at n. */
  function Skipped(text: string, n: nat): nat
    requires n < |text|
  {
    if text[n] == '\r' && n + 1 < |text| && text[n + 1] == '\n' then n + 2 else n + 1
  }

  lemma {:induction false} LinesStep(text: string)
    requires FirstBreak(text) < |text|
    ensures var n := FirstBreak(text);
            Skipped(text, n) <= |text| && Lines(text) == [text[..n] + "\n"] + Lines(text[Skipped(text, n)..])
  {
  }

  lemma DropPast(before: string, rest: string, m: nat)
    requires m <= |before| + |rest|
    ensures m <= |before| ==> (before + rest)[m..] == before[m..] + rest
    ensures m > |before| ==> (before + rest)[m..] == rest[m - |before|..]
  {
  }

  // ---------------------------------------------------------------- what is read stays

  lemma {:induction false} ReadStays(u: Letters, lines: seq<string>, k: nat, f: Found)
    requires k < |lines| && ScanCategory(u, lines[k]) == Some(f)
    ensures f.name in LoadLines(u, lines).categories
    decreases |lines|
  {
    if k < |lines| - 1 {
      ReadStays(u, lines[..|lines| - 1], k, f);
    }
  }

  lemma {:induction false} LineIsRead(u: Letters, text: string, line: string, f: Found)
    requires HasLine(text, line) && ScanCategory(u, line + "\n") == Some(f)
    ensures f.name in LoadLines(u, Lines(text)).categories
  {
    var k :| 0 <= k < |Lines(text)| && Lines(text)[k] == line + "\n";
    ReadStays(u, Lines(text), k, f);
  }

  /** A count as the checker reads it. */
  function Forged(name: string, n: nat): string {
    CATEGORY + (name + (" " + (COUNT + Decimal(n))))
  }

  lemma ForgedIsUnbroken(name: string, n: nat)
    requires IsName(name)
    ensures NoBreaks(Forged(name, n)) && |Forged(name, n)| > 0
  {
    DecimalNoBreaks(n);
    Joined(COUNT, Decimal(n));
    Joined(" ", COUNT + Decimal(n));
    Joined(name, " " + (COUNT + Decimal(n)));
    Joined(CATEGORY, name + (" " + (COUNT + Decimal(n))));
  }

  lemma ForgedIsRead(u: Letters, lead: string, name: string, n: nat, rest: string)
    requires IsName(name) && AllSpace(lead) && |rest| > 0 && (rest[0] == ' ' || rest[0] == '\n')
    ensures ScanCategory(u, lead + (Forged(name, n) + rest)) == Some(Found(name, n))
  {
    var tail := " " + (COUNT + (Decimal(n) + rest));
    assert Forged(name, n) + rest == CATEGORY + (name + tail);
    CategoryFound(u, lead + (Forged(name, n) + rest), lead, name, tail, " ", Decimal(n), rest);
    DecimalRoundTrip(n);
  }

  // ---------------------------------------------------------------- a break in a detail

  /** A detail line ends with its detail. */
  lemma DetailAtEnd(c: Call) returns (front: string)
    requires c.category.Str? && c.event.Str? && c.detail != ""
    ensures LineOf(c) == front + c.detail
  {
    var parts := ["cycle=", Decimal(c.ctx.cycle), " committed=", Decimal(c.ctx.committed), " pc=", Hex8(c.ctx.pc),
                  " category=", c.category.s, " event=", c.event.s, " addr=", Hex8(c.addr), " value=", Hex8(c.value)];
    CatLast(parts, " detail=" + c.detail);
    front := Cat(parts) + " detail=";
    assert Cat(parts) + (" detail=" + c.detail) == front + c.detail;
    assert parts + [" detail=" + c.detail]
        == ["cycle=", Decimal(c.ctx.cycle), " committed=", Decimal(c.ctx.committed), " pc=", Hex8(c.ctx.pc),
            " category=", c.category.s, " event=", c.event.s, " addr=", Hex8(c.addr), " value=", Hex8(c.value),
            if c.detail == "" then "" else " detail=" + c.detail];
  }

  /** Whatever was logged before: one record below the limit whose detail carries a line
      break, LF or CR, and then the text of a count makes the closed log read back that
      category, counted or not. */
  lemma {:induction false} BreakForges(
    u: Letters, l: Logger, ops: seq<Op>, c: Call, d: string, br: char, name: string, n: nat)
    requires Fresh(l) && l.path != "" && Opened(ops) && Accepts(l, c) && |OpenCalls(l, ops)| < l.limit
    requires IsBreak(br) && IsName(name) && c.detail == d + ([br] + Forged(name, n))
    ensures name in LoadLines(u, Lines(Close(Run(l, ops + [RecordOp(c)])).file)).categories
  {
    var m := Run(l, ops);
    var m' := Record(m, c);
    assert (ops + [RecordOp(c)])[..|ops|] == ops;
    OpenIff(l, ops);
    RunWrites(l, ops);
    RecordDetail(m, |OpenCalls(l, ops)|, c);
    UnlinesOne(LineOf(c));
    var front := DetailAtEnd(c);
    var after := Unlines(SummaryLines(m'));
    var before := m.file + front + d;
    ForgedIsUnbroken(name, n);
    BreakApart(m.file, front, d, br, Forged(name, n), after);
    assert Close(m').file == before + ([br] + (Forged(name, n) + "\n" + after));
    LineInside(before, br, Forged(name, n), after);
    assert "" + (Forged(name, n) + "\n") == Forged(name, n) + "\n";
    ForgedIsRead(u, "", name, n, "\n");
    LineIsRead(u, Close(m').file, Forged(name, n), Found(name, n));
  }

  lemma BreakApart(file: string, front: string, d: string, br: char, line: string, after: string)
    ensures file + (front + (d + ([br] + line)) + "\n") + after
         == (file + front + d) + ([br] + (line + "\n" + after))
  {
  }

  // ---------------------------------------------------------------- space in a name

  lemma {:induction false} UnlinesAt(ls: seq<string>, k: nat) returns (before: string)
    requires 0 < k < |ls|
    ensures Unlines(ls) == before + ("\n" + (ls[k] + "\n" + Unlines(ls[k + 1..])))
  {
    var a, b := ls[..k - 1], ls[k + 1..];
    assert ls == a + ([ls[k - 1]] + ([ls[k]] + b));
    UnlinesAppend(a, [ls[k - 1]] + ([ls[k]] + b));
    UnlinesAppend([ls[k - 1]], [ls[k]] + b);
    UnlinesAppend([ls[k]], b);
    UnlinesOne(ls[k - 1]);
    UnlinesOne(ls[k]);
    before := Unlines(a) + ls[k - 1];
    assert Unlines(ls) == before + ("\n" + (ls[k] + "\n" + Unlines(b)));
  }

  /** A key that carries a count. */
  function Spaced(name: string, n: nat): string {
    name + (" " + (COUNT + Decimal(n)))
  }

  lemma SpacedUnbroken(name: string, n: nat)
    requires IsName(name)
    ensures NoBreaks(Spaced(name, n))
  {
    DecimalNoBreaks(n);
    Joined(COUNT, Decimal(n));
    Joined(" ", COUNT + Decimal(n));
    Joined(name, " " + (COUNT + Decimal(n)));
  }

  lemma SpacedText(name: string, n: nat) returns (rest: string)
    ensures |rest| > 0 && rest[0] == ' '
    ensures CategoryLine(Entry(Spaced(name, n), NO_STATS)) + "\n" == "  " + (Forged(name, n) + rest)
  {
    var more := COUNT + (Decimal(0) + (SnapshotText("first", NoSnapshot) + SnapshotText("last", NoSnapshot)));
    rest := " " + more + "\n";
    assert Forged(name, n) == CATEGORY + Spaced(name, n);
  }

  lemma SpacedLine(u: Letters, name: string, n: nat)
    requires IsName(name)
    ensures var line := CategoryLine(Entry(Spaced(name, n), NO_STATS));
            NoBreaks(line) && |line| > 0 && ScanCategory(u, line + "\n") == Some(Found(name, n))
  {
    SpacedUnbroken(name, n);
    CategoryNoBreaks(Entry(Spaced(name, n), NO_STATS));
    var rest := SpacedText(name, n);
    ForgedIsRead(u, "  ", name, n, rest);
  }

  /** A category that is only watched, and whose name is a name, a space and the text of a
      count, is read back as a count of the shorter name, counted or not. */
  lemma {:induction false} SpaceForges(u: Letters, l: Logger, ops: seq<Op>, name: string, n: nat)
    requires Fresh(l) && l.path != "" && Opened(ops) && IsName(name)
    requires Touched(l, ops, Spaced(name, n)) && Matching(l, ops, Spaced(name, n), false) == []
    ensures name in LoadLines(u, Lines(Close(Run(l, ops)).file)).categories
  {
    var key := Spaced(name, n);
    var m := Run(l, ops);
    var e := Entry(key, NO_STATS);
    TableHoldsTouched(l, ops, key);
    CategoriesAreTallies(l, ops, key);
    RunSorted(l, ops);
    var k :| 0 <= k < |m.categories| && m.categories[k].key == key;
    GetAt(m.categories, k);
    FileLines(l, ops);
    SummaryParts(m);
    var ls := FrontLines(l, ops) + SummaryLines(m);
    var at := |FrontLines(l, ops)| + |Before(m)| + k;
    assert ls[at] == CategoryLines(m.categories)[k] == CategoryLine(e);
    var before := UnlinesAt(ls, at);
    SpacedLine(u, name, n);
    LineInside(before, '\n', CategoryLine(e), Unlines(ls[at + 1..]));
    LineIsRead(u, Close(m).file, CategoryLine(e), Found(name, n));
  }
}
