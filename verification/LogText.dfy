/** The text side of the event-log checker: decimal numbers, lines as a text-mode read
    yields them, and the two line patterns. */
module LogText {

  datatype Option<T> = None | Some(value: T)

  predicate IsBreak(c: char) {
    c == '\n' || c == '\r'
  }

  predicate NoBreaks(s: string) {
    forall k :: 0 <= k < |s| ==> !IsBreak(s[k])
  }

  predicate IsDigit(c: char) {
    '0' <= c <= '9'
  }

  predicate IsWord(c: char) {
    'a' <= c <= 'z' || 'A' <= c <= 'Z' || IsDigit(c) || c == '_'
  }

  /** Every white-space character of Unicode. */
  predicate IsSpace(c: char) {
    c == ' ' || '\t' <= c <= '\r' || 28 as char <= c <= 31 as char
    || c == '\U{0085}' || c == '\U{00A0}' || c == '\U{1680}' || '\U{2000}' <= c <= '\U{200A}'
    || c == '\U{2028}' || c == '\U{2029}' || c == '\U{202F}' || c == '\U{205F}' || c == '\U{3000}'
  }

  predicate IsName(s: string) {
    |s| > 0 && forall k :: 0 <= k < |s| ==> IsWord(s[k])
  }

  // ---------------------------------------------------------------- decimal numbers

  function Digit(n: nat): char
    requires n < 10
  {
    '0' + n as char
  }

  function Decimal(n: nat): (s: string)
    ensures |s| > 0
    ensures forall k :: 0 <= k < |s| ==> IsDigit(s[k])
  {
    if n < 10 then [Digit(n)] else Decimal(n / 10) + [Digit(n % 10)]
  }

  function ParseDecimal(s: string): nat
    requires forall k :: 0 <= k < |s| ==> IsDigit(s[k])
  {
    if |s| == 0 then 0
    else
      assert IsDigit(s[|s| - 1]);
      10 * ParseDecimal(s[..|s| - 1]) + (s[|s| - 1] - '0') as nat
  }

  lemma {:induction false} DecimalRoundTrip(n: nat)
    ensures ParseDecimal(Decimal(n)) == n
  {
    if n < 10 {
      assert ParseDecimal([]) == 0;
      assert [Digit(n)][..0] == [];
    } else {
      var s := Decimal(n / 10);
      DecimalRoundTrip(n / 10);
      assert (s + [Digit(n % 10)])[..|s|] == s;
    }
  }

  // ---------------------------------------------------------------- lines

  function FirstBreak(s: string): (n: nat)
    ensures n <= |s| && NoBreaks(s[..n]) && (n < |s| ==> IsBreak(s[n]))
  {
    if |s| == 0 || IsBreak(s[0]) then 0 else
      var n := FirstBreak(s[1..]);
      assert s[..n + 1] == [s[0]] + s[1..][..n];
      n + 1
  }

  /** LF, CR and CR LF all end a line and are read as LF. */
  function Lines(s: string): seq<string>
    decreases |s|
  {
    var n := FirstBreak(s);
    if n == |s| then (if n == 0 then [] else [s])
    else if s[n] == '\r' && n + 1 < |s| && s[n + 1] == '\n' then [s[..n] + "\n"] + Lines(s[n + 2..])
    else [s[..n] + "\n"] + Lines(s[n + 1..])
  }

  lemma {:induction false} FirstBreakAt(a: string, s: string)
    requires NoBreaks(a)
    ensures FirstBreak(a + "\n" + s) == |a|
    decreases |a|
  {
    if |a| > 0 {
      assert (a + "\n" + s)[1..] == a[1..] + "\n" + s;
      FirstBreakAt(a[1..], s);
    }
  }

  lemma LinesCons(a: string, s: string)
    requires NoBreaks(a)
    ensures Lines(a + "\n" + s) == [a + "\n"] + Lines(s)
  {
    FirstBreakAt(a, s);
    assert (a + "\n" + s)[..|a|] == a && (a + "\n" + s)[|a| + 1..] == s;
  }

  /** A text written as whole lines. */
  function Unlines(ls: seq<string>): string {
    if |ls| == 0 then "" else ls[0] + "\n" + Unlines(ls[1..])
  }

  lemma {:induction false} UnlinesAppend(a: seq<string>, b: seq<string>)
    ensures Unlines(a + b) == Unlines(a) + Unlines(b)
    decreases |a|
  {
    if |a| == 0 {
      assert a + b == b;
    } else {
      assert (a + b)[1..] == a[1..] + b;
      UnlinesAppend(a[1..], b);
    }
  }

  function Ended(ls: seq<string>): seq<string> {
    seq(|ls|, k requires 0 <= k < |ls| => ls[k] + "\n")
  }

  /** Whole lines without breaks inside them are read back as written. */
  lemma {:induction false} LinesOfUnlines(ls: seq<string>)
    requires forall k :: 0 <= k < |ls| ==> NoBreaks(ls[k])
    ensures Lines(Unlines(ls)) == Ended(ls)
    decreases |ls|
  {
    if |ls| > 0 {
      LinesCons(ls[0], Unlines(ls[1..]));
      LinesOfUnlines(ls[1..]);
    }
  }

  // ---------------------------------------------------------------- patterns

  function Span(s: string, p: char -> bool): (n: nat)
    ensures n <= |s| && (forall k :: 0 <= k < n ==> p(s[k])) && (n < |s| ==> !p(s[n]))
  {
    if |s| > 0 && p(s[0]) then 1 + Span(s[1..], p) else 0
  }

  lemma {:induction false} SpanOf(a: string, b: string, p: char -> bool)
    requires (forall k :: 0 <= k < |a| ==> p(a[k])) && (|b| > 0 ==> !p(b[0]))
    ensures Span(a + b, p) == |a|
    decreases |a|
  {
    if |a| > 0 {
      assert (a + b)[1..] == a[1..] + b;
      SpanOf(a[1..], b, p);
    } else {
      assert a + b == b;
    }
  }

  lemma Halves(a: string, b: string)
    ensures (a + b)[..|a|] == a && (a + b)[|a|..] == b && a <= a + b
  {
  }

  /** The characters beyond ASCII that count as letters or digits. */
  type Letters = char -> bool

  predicate AtBoundary(u: Letters, rest: string) {
    |rest| > 0 ==> !IsWord(rest[0]) && !(rest[0] as int > 127 && u(rest[0]))
  }

  datatype Found = Found(name: string, count: nat)

  /** Digits that end at a word boundary. */
  function ScanCount(u: Letters, s: string): Option<nat> {
    var m := Span(s, IsDigit);
    if m == 0 || !AtBoundary(u, s[m..]) then None else Some(ParseDecimal(s[..m]))
  }

  function ScanMark(u: Letters, s: string, mark: string): Option<nat> {
    if mark <= s then ScanCount(u, s[|mark|..]) else None
  }

  /** Some space, the mark, a count. */
  function ScanTail(u: Letters, s: string, mark: string): Option<nat> {
    var k := Span(s, IsSpace);
    if k == 0 then None else ScanMark(u, s[k..], mark)
  }

  function ScanNamed(u: Letters, s: string, mark: string, before: string): Option<Found> {
    var n := Span(s, IsWord);
    if n == 0 then None
    else match ScanTail(u, s[n..], mark)
         case None => None
         case Some(v) => Some(Found(before + s[..n], v))
  }

  const CATEGORY := "category="
  const COUNT := "count="

  function ScanKeyword(u: Letters, s: string): Option<Found> {
    if CATEGORY <= s then ScanNamed(u, s[|CATEGORY|..], COUNT, "") else None
  }

  function ScanCategory(u: Letters, line: string): Option<Found> {
    ScanKeyword(u, line[Span(line, IsSpace)..])
  }

  function ScanDotted(u: Letters, s: string): Option<Found> {
    var n := Span(s, IsWord);
    if n == 0 || !("." <= s[n..]) then None else ScanNamed(u, s[n + 1..], "x", s[..n] + ".")
  }

  function ScanEvent(u: Letters, line: string): Option<Found> {
    var k := Span(line, IsSpace);
    if k == 0 then None else ScanDotted(u, line[k..])
  }

  // ---------------------------------------------------------------- the scanners find every match

  predicate AllSpace(s: string) {
    forall k :: 0 <= k < |s| ==> IsSpace(s[k])
  }

  predicate Digits(s: string) {
    |s| > 0 && forall k :: 0 <= k < |s| ==> IsDigit(s[k])
  }

  /** Space, the mark, digits, and then a word boundary. */
  ghost predicate TailMatch(u: Letters, s: string, gap: string, mark: string, digits: string, rest: string) {
    s == gap + (mark + (digits + rest))
    && |gap| > 0 && AllSpace(gap) && Digits(digits) && AtBoundary(u, rest)
  }

  /** The category pattern: any space, the keyword, a name, the tail. */
  ghost predicate CategoryMatch(u: Letters, line: string, lead: string, name: string, tail: string,
                                gap: string, digits: string, rest: string) {
    line == lead + (CATEGORY + (name + tail))
    && AllSpace(lead) && IsName(name) && TailMatch(u, tail, gap, COUNT, digits, rest)
  }

  /** The event pattern: some space, two names joined by a dot, the tail. */
  ghost predicate EventMatch(u: Letters, line: string, lead: string, cat: string, ev: string, tail: string,
                             gap: string, digits: string, rest: string) {
    line == lead + (cat + ("." + (ev + tail)))
    && |lead| > 0 && AllSpace(lead) && IsName(cat) && IsName(ev) && TailMatch(u, tail, gap, "x", digits, rest)
  }

  lemma CountFound(u: Letters, digits: string, rest: string)
    requires Digits(digits) && AtBoundary(u, rest)
    ensures ScanCount(u, digits + rest) == Some(ParseDecimal(digits))
  {
    SpanOf(digits, rest, IsDigit);
    Halves(digits, rest);
  }

  lemma TailFound(u: Letters, s: string, gap: string, mark: string, digits: string, rest: string)
    requires TailMatch(u, s, gap, mark, digits, rest) && |mark| > 0 && !IsSpace(mark[0])
    ensures ScanTail(u, s, mark) == Some(ParseDecimal(digits)) && |s| > 0 && IsSpace(s[0])
  {
    CountFound(u, digits, rest);
    Halves(mark, digits + rest);
    SpanOf(gap, mark + (digits + rest), IsSpace);
    Halves(gap, mark + (digits + rest));
  }

  lemma NamedFound(u: Letters, name: string, tail: string, mark: string, before: string, v: nat)
    requires IsName(name) && |tail| > 0 && IsSpace(tail[0]) && ScanTail(u, tail, mark) == Some(v)
    ensures ScanNamed(u, name + tail, mark, before) == Some(Found(before + name, v))
  {
    SpanOf(name, tail, IsWord);
    Halves(name, tail);
  }

  lemma CategoryFound(u: Letters, line: string, lead: string, name: string, tail: string,
                      gap: string, digits: string, rest: string)
    requires CategoryMatch(u, line, lead, name, tail, gap, digits, rest)
    ensures ScanCategory(u, line) == Some(Found(name, ParseDecimal(digits)))
  {
    TailFound(u, tail, gap, COUNT, digits, rest);
    NamedFound(u, name, tail, COUNT, "", ParseDecimal(digits));
    assert "" + name == name;
    Halves(CATEGORY, name + tail);
    SpanOf(lead, CATEGORY + (name + tail), IsSpace);
    Halves(lead, CATEGORY + (name + tail));
  }

  lemma DotSplit(cat: string, rest: string)
    ensures var s := cat + ("." + rest);
            s[..|cat|] == cat && s[|cat|..] == "." + rest && s[|cat| + 1..] == rest
  {
  }

  lemma DottedFound(u: Letters, cat: string, ev: string, tail: string, v: nat)
    requires IsName(cat) && IsName(ev) && |tail| > 0 && IsSpace(tail[0]) && ScanTail(u, tail, "x") == Some(v)
    ensures ScanDotted(u, cat + ("." + (ev + tail))) == Some(Found(cat + "." + ev, v))
  {
    NamedFound(u, ev, tail, "x", cat + ".", v);
    SpanOf(cat, "." + (ev + tail), IsWord);
    DotSplit(cat, ev + tail);
  }

  lemma EventFound(u: Letters, line: string, lead: string, cat: string, ev: string, tail: string,
                   gap: string, digits: string, rest: string)
    requires EventMatch(u, line, lead, cat, ev, tail, gap, digits, rest)
    ensures ScanEvent(u, line) == Some(Found(cat + "." + ev, ParseDecimal(digits)))
  {
    TailFound(u, tail, gap, "x", digits, rest);
    DottedFound(u, cat, ev, tail, ParseDecimal(digits));
    SpanOf(lead, cat + ("." + (ev + tail)), IsSpace);
    Halves(lead, cat + ("." + (ev + tail)));
  }

  // ---------------------------------------------------------------- and nothing else

  lemma Rejoined(s: string, n: nat)
    requires n <= |s|
    ensures s == s[..n] + s[n..]
  {
  }

  lemma TailSound(u: Letters, s: string, mark: string, v: nat) returns (gap: string, digits: string, rest: string)
    requires ScanTail(u, s, mark) == Some(v)
    ensures TailMatch(u, s, gap, mark, digits, rest) && ParseDecimal(digits) == v
  {
    var k := Span(s, IsSpace);
    gap := s[..k];
    var t := s[k..];
    var u := t[|mark|..];
    var m := Span(u, IsDigit);
    digits, rest := u[..m], u[m..];
    Rejoined(s, k);
    Rejoined(t, |mark|);
    Rejoined(u, m);
  }

  lemma NamedSound(u: Letters, s: string, mark: string, before: string, f: Found)
    returns (name: string, tail: string, gap: string, digits: string, rest: string)
    requires ScanNamed(u, s, mark, before) == Some(f)
    ensures s == name + tail && IsName(name) && f.name == before + name
    ensures TailMatch(u, tail, gap, mark, digits, rest) && ParseDecimal(digits) == f.count
  {
    var n := Span(s, IsWord);
    name, tail := s[..n], s[n..];
    Rejoined(s, n);
    gap, digits, rest := TailSound(u, tail, mark, f.count);
  }

  lemma PrefixSplit(p: string, s: string)
    requires p <= s
    ensures s == p + s[|p|..]
  {
  }

  lemma Leading(line: string) returns (lead: string, body: string)
    ensures line == lead + body && AllSpace(lead)
    ensures |lead| == Span(line, IsSpace) && body == line[Span(line, IsSpace)..]
  {
    var k := Span(line, IsSpace);
    lead, body := line[..k], line[k..];
    Rejoined(line, k);
  }

  lemma KeywordSound(u: Letters, s: string, f: Found)
    returns (tail: string, gap: string, digits: string, rest: string)
    requires ScanKeyword(u, s) == Some(f)
    ensures s == CATEGORY + (f.name + tail) && IsName(f.name)
    ensures TailMatch(u, tail, gap, COUNT, digits, rest) && ParseDecimal(digits) == f.count
  {
    PrefixSplit(CATEGORY, s);
    var name;
    name, tail, gap, digits, rest := NamedSound(u, s[|CATEGORY|..], COUNT, "", f);
    assert "" + name == name;
  }

  lemma CategorySound(u: Letters, line: string, f: Found)
    returns (lead: string, tail: string, gap: string, digits: string, rest: string)
    requires ScanCategory(u, line) == Some(f)
    ensures CategoryMatch(u, line, lead, f.name, tail, gap, digits, rest) && ParseDecimal(digits) == f.count
  {
    var body;
    lead, body := Leading(line);
    tail, gap, digits, rest := KeywordSound(u, body, f);
  }

  lemma FirstName(s: string) returns (cat: string, more: string)
    requires Span(s, IsWord) > 0
    ensures s == cat + more && IsName(cat) && cat == s[..Span(s, IsWord)] && more == s[Span(s, IsWord)..]
  {
    var n := Span(s, IsWord);
    cat, more := s[..n], s[n..];
    Rejoined(s, n);
  }

  lemma DottedSound(u: Letters, s: string, f: Found)
    returns (cat: string, ev: string, tail: string, gap: string, digits: string, rest: string)
    requires ScanDotted(u, s) == Some(f)
    ensures s == cat + ("." + (ev + tail)) && IsName(cat) && IsName(ev) && f.name == cat + "." + ev
    ensures TailMatch(u, tail, gap, "x", digits, rest) && ParseDecimal(digits) == f.count
  {
    var more;
    cat, more := FirstName(s);
    PrefixSplit(".", more);
    assert s[|cat| + 1..] == more[1..];
    ev, tail, gap, digits, rest := NamedSound(u, more[1..], "x", cat + ".", f);
  }

  lemma EventSound(u: Letters, line: string, f: Found)
    returns (lead: string, cat: string, ev: string, tail: string, gap: string, digits: string, rest: string)
    requires ScanEvent(u, line) == Some(f)
    ensures EventMatch(u, line, lead, cat, ev, tail, gap, digits, rest)
    ensures f == Found(cat + "." + ev, ParseDecimal(digits))
  {
    var body;
    lead, body := Leading(line);
    cat, ev, tail, gap, digits, rest := DottedSound(u, body, f);
  }
}
