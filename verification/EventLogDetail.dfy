/** The other reader of the log: it takes the detail lines apart again, field by field. */
module EventLogDetail {
  import opened LogText
  import opened EventLog
  import opened EventLogRoundTrip

  // ---------------------------------------------------------------- hexadecimal numbers

  predicate IsHex(c: char) {
    IsDigit(c) || 'a' <= c <= 'f' || 'A' <= c <= 'F'
  }

  function HexValue(c: char): nat
    requires IsHex(c)
  {
    if IsDigit(c) then (c - '0') as nat
    else if 'a' <= c then (c - 'a') as nat + 10
    else (c - 'A') as nat + 10
  }

  predicate AllHex(s: string) {
    forall k :: 0 <= k < |s| ==> IsHex(s[k])
  }

  function ParseHex(s: string): nat
    requires AllHex(s)
  {
    if |s| == 0 then 0
    else
      assert IsHex(s[|s| - 1]);
      16 * ParseHex(s[..|s| - 1]) + HexValue(s[|s| - 1])
  }

  function Pow16(n: nat): nat {
    if n == 0 then 1 else 16 * Pow16(n - 1)
  }

  lemma {:induction false} HexRoundTrip(n: nat, digits: nat)
    requires n < Pow16(digits)
    ensures AllHex(Hex(n, digits)) && ParseHex(Hex(n, digits)) == n
    decreases digits
  {
    if digits > 0 {
      HexRoundTrip(n / 16, digits - 1);
      var s, c := Hex(n / 16, digits - 1), HexDigit(n % 16);
      assert (s + [c])[..|s|] == s;
      assert IsHex(c) && HexValue(c) == n % 16;
    }
  }

  lemma Pow16Eight()
    ensures Pow16(8) == 0x1_0000_0000
  {
    assert Pow16(4) == 65536;
    assert Pow16(8) == 65536 * Pow16(4);
  }

  lemma Hex8RoundTrip(n: nat)
    requires n < 0x1_0000_0000
    ensures AllHex(Hex(n, 8)) && ParseHex(Hex(n, 8)) == n
  {
    Pow16Eight();
    HexRoundTrip(n, 8);
  }

  // ---------------------------------------------------------------- fields

  datatype Kind = Number | Hexadecimal | Name

  predicate Belongs(kind: Kind, c: char) {
    match kind
    case Number => IsDigit(c)
    case Hexadecimal => IsHex(c)
    case Name => IsWord(c)
  }

  /** The mark in front of a field, and the characters it is made of. */
  datatype Field = Field(mark: string, kind: Kind)

  const FIELDS_READ := [
    Field("cycle=", Number), Field("committed=", Number), Field("pc=0x", Hexadecimal),
    Field("category=", Name), Field("event=", Name), Field("addr=0x", Hexadecimal), Field("value=0x", Hexadecimal)]

  /** Characters of the kind at the front. */
  function Leading(kind: Kind, s: string): (n: nat)
    ensures n <= |s|
  {
    if |s| > 0 && Belongs(kind, s[0]) then 1 + Leading(kind, s[1..]) else 0
  }

  lemma {:induction false} LeadingOf(kind: Kind, a: string, b: string)
    requires (forall k :: 0 <= k < |a| ==> Belongs(kind, a[k])) && (|b| > 0 ==> !Belongs(kind, b[0]))
    ensures Leading(kind, a + b) == |a|
    decreases |a|
  {
    if |a| > 0 {
      assert (a + b)[1..] == a[1..] + b;
      LeadingOf(kind, a[1..], b);
    } else {
      assert a + b == b;
    }
  }

  /** Marks in order, each followed by one or more characters of its kind, with space
      between the fields; what follows the last is free. */
  function ScanFields(s: string, fields: seq<Field>): Option<seq<string>>
    decreases |fields|
  {
    if |fields| == 0 then Some([])
    else if !(fields[0].mark <= s) then None
    else
      var t := s[|fields[0].mark|..];
      var n := Leading(fields[0].kind, t);
      if n == 0 then None
      else if |fields| == 1 then Some([t[..n]])
      else
        var k := Span(t[n..], IsSpace);
        if k == 0 then None
        else match ScanFields(t[n..][k..], fields[1..])
             case None => None
             case Some(rest) => Some([t[..n]] + rest)
  }

  /** A text of marks and fields. */
  function Written(fields: seq<Field>, texts: seq<string>, rest: string): string
    requires |fields| == |texts| > 0
  {
    fields[0].mark
    + (texts[0] + if |fields| == 1 then rest else " " + Written(fields[1..], texts[1..], rest))
  }

  predicate TextOk(f: Field, text: string) {
    |f.mark| > 0 && !IsSpace(f.mark[0]) && |text| > 0 && forall k :: 0 <= k < |text| ==> Belongs(f.kind, text[k])
  }

  predicate AllOk(fields: seq<Field>, texts: seq<string>) {
    |fields| == |texts| && forall k :: 0 <= k < |fields| ==> TextOk(fields[k], texts[k])
  }

  lemma AllOkTail(fields: seq<Field>, texts: seq<string>)
    requires AllOk(fields, texts) && |fields| > 0
    ensures TextOk(fields[0], texts[0]) && AllOk(fields[1..], texts[1..])
  {
  }

  lemma WrittenStarts(fields: seq<Field>, texts: seq<string>, rest: string)
    requires AllOk(fields, texts) && |fields| > 0
    ensures |Written(fields, texts, rest)| > 0 && !IsSpace(Written(fields, texts, rest)[0])
  {
    assert TextOk(fields[0], texts[0]);
  }

  lemma {:induction false} FieldsNext(fields: seq<Field>, texts: seq<string>, rest: string)
    requires AllOk(fields, texts) && |fields| > 1
    requires ScanFields(Written(fields[1..], texts[1..], rest), fields[1..]) == Some(texts[1..])
    ensures ScanFields(Written(fields, texts, rest), fields) == Some(texts)
  {
    AllOkTail(fields, texts);
    var next := Written(fields[1..], texts[1..], rest);
    WrittenStarts(fields[1..], texts[1..], rest);
    ScanNext(fields, texts[0], next, texts[1..]);
    assert Written(fields, texts, rest) == fields[0].mark + (texts[0] + (" " + next));
    assert texts == [texts[0]] + texts[1..];
  }

  lemma {:induction false} FieldsFound(fields: seq<Field>, texts: seq<string>, rest: string)
    requires AllOk(fields, texts) && |fields| > 0 && |rest| > 0 && (rest[0] == ' ' || rest[0] == '\n')
    ensures ScanFields(Written(fields, texts, rest), fields) == Some(texts)
    decreases |fields|
  {
    AllOkTail(fields, texts);
    if |fields| > 1 {
      FieldsFound(fields[1..], texts[1..], rest);
      FieldsNext(fields, texts, rest);
    } else {
      ScanLast(fields, texts[0], rest);
      assert texts == [texts[0]];
    }
  }

  lemma ScanLast(fields: seq<Field>, text: string, rest: string)
    requires |fields| == 1 && TextOk(fields[0], text) && |rest| > 0 && (rest[0] == ' ' || rest[0] == '\n')
    ensures ScanFields(fields[0].mark + (text + rest), fields) == Some([text])
  {
    FirstField(fields[0], text, rest);
  }

  lemma ScanNext(fields: seq<Field>, text: string, next: string, texts: seq<string>)
    requires |fields| > 1 && TextOk(fields[0], text) && |next| > 0 && !IsSpace(next[0])
    requires ScanFields(next, fields[1..]) == Some(texts)
    ensures ScanFields(fields[0].mark + (text + (" " + next)), fields) == Some([text] + texts)
  {
    FirstField(fields[0], text, " " + next);
    SpanOf(" ", next, IsSpace);
    Halves(" ", next);
  }

  lemma FirstField(f: Field, text: string, more: string)
    requires TextOk(f, text) && |more| > 0 && (more[0] == ' ' || more[0] == '\n')
    ensures var s := f.mark + (text + more);
            f.mark <= s && s[|f.mark|..] == text + more
            && Leading(f.kind, text + more) == |text|
            && (text + more)[..|text|] == text && (text + more)[|text|..] == more
  {
    Halves(f.mark, text + more);
    Halves(text, more);
    LeadingOf(f.kind, text, more);
  }

  // ---------------------------------------------------------------- a detail line

  /** What follows the last field. */
  function Remark(c: Call): string {
    LastPart(c) + "\n"
  }

  function LastPart(c: Call): string {
    if c.detail == "" then "" else " detail=" + c.detail
  }

  function TextsOf(c: Call): seq<string>
    requires c.category.Str? && c.event.Str?
  {
    [Decimal(c.ctx.cycle), Decimal(c.ctx.committed), Hex(c.ctx.pc, 8), c.category.s, c.event.s,
     Hex(c.addr, 8), Hex(c.value, 8)]
  }

  lemma WrittenLast(f: Field, text: string, rest: string)
    ensures Written([f], [text], rest) == f.mark + (text + rest)
  {
  }

  lemma WrittenNext(f: Field, text: string, fields: seq<Field>, texts: seq<string>, rest: string)
    requires |fields| == |texts| > 0
    ensures Written([f] + fields, [text] + texts, rest) == f.mark + (text + (" " + Written(fields, texts, rest)))
  {
    assert ([f] + fields)[1..] == fields && ([text] + texts)[1..] == texts;
  }

  lemma CatTwo(a: string, b: string, parts: seq<string>)
    ensures Cat([a, b] + parts) == a + (b + Cat(parts))
  {
    assert ([a, b] + parts)[1..] == [b] + parts && ([b] + parts)[1..] == parts;
  }

  lemma CatOne(a: string)
    ensures Cat([a]) == a
  {
    assert [a][1..] == [];
    assert Cat([a]) == a + Cat([]);
  }

  /** Parts that print as a space and then the fields. */
  predicate Prints(parts: seq<string>, fields: seq<Field>, texts: seq<string>, rest: string) {
    |fields| == |texts| > 0 && Cat(parts) == " " + Written(fields, texts, rest)
  }

  /** One more field in front: a plain one, and a hexadecimal one, whose prefix belongs to its
      text when it is printed and to its mark when it is read. */
  lemma PlainFront(printed: string, text: string, f: Field, parts: seq<string>,
                   fields: seq<Field>, texts: seq<string>, rest: string)
    requires Prints(parts, fields, texts, rest) && printed == " " + f.mark
    ensures Prints([printed, text] + parts, [f] + fields, [text] + texts, rest)
  {
    CatTwo(printed, text, parts);
    WrittenNext(f, text, fields, texts, rest);
  }

  lemma HexFront(printed: string, text: string, f: Field, parts: seq<string>,
                 fields: seq<Field>, texts: seq<string>, rest: string)
    requires Prints(parts, fields, texts, rest) && printed + "0x" == " " + f.mark
    ensures Prints([printed, "0x" + text] + parts, [f] + fields, [text] + texts, rest)
  {
    var more := Cat(parts);
    CatTwo(printed, "0x" + text, parts);
    WrittenNext(f, text, fields, texts, rest);
    assert printed + (("0x" + text) + more) == (printed + "0x") + (text + more);
  }

  lemma HexLast(printed: string, text: string, f: Field, rest: string)
    requires printed + "0x" == " " + f.mark
    ensures Prints([printed, "0x" + text, rest], [f], [text], rest)
  {
    CatTwo(printed, "0x" + text, [rest]);
    CatOne(rest);
    WrittenLast(f, text, rest);
    assert [printed, "0x" + text] + [rest] == [printed, "0x" + text, rest];
    assert printed + (("0x" + text) + rest) == (printed + "0x") + (text + rest);
  }

  const COMMITTED := Field("committed=", Number)
  const PC := Field("pc=0x", Hexadecimal)
  const CATEGORY_NAME := Field("category=", Name)
  const EVENT_NAME := Field("event=", Name)
  const ADDR := Field("addr=0x", Hexadecimal)
  const VALUE := Field("value=0x", Hexadecimal)

  lemma HexMarks()
    ensures " value=" + "0x" == " " + VALUE.mark && " addr=" + "0x" == " " + ADDR.mark && " pc=" + "0x" == " " + PC.mark
  {
  }

  lemma PlainMarks()
    ensures " event=" == " " + EVENT_NAME.mark && " category=" == " " + CATEGORY_NAME.mark
    ensures " committed=" == " " + COMMITTED.mark
  {
  }

  lemma LastTwo(addr: string, value: string, r: string)
    ensures Prints([" addr=", "0x" + addr, " value=", "0x" + value, r], [ADDR, VALUE], [addr, value], r)
  {
    HexMarks();
    HexLast(" value=", value, VALUE, r);
    HexFront(" addr=", addr, ADDR, [" value=", "0x" + value, r], [VALUE], [value], r);
    assert [ADDR] + [VALUE] == [ADDR, VALUE] && [addr] + [value] == [addr, value];
    assert [" addr=", "0x" + addr] + [" value=", "0x" + value, r]
        == [" addr=", "0x" + addr, " value=", "0x" + value, r];
  }

  lemma LastFour(cat: string, ev: string, parts: seq<string>, addr: string, value: string, r: string)
    requires Prints(parts, [ADDR, VALUE], [addr, value], r)
    ensures Prints([" category=", cat, " event=", ev] + parts, [CATEGORY_NAME, EVENT_NAME, ADDR, VALUE],
                   [cat, ev, addr, value], r)
  {
    PlainMarks();
    PlainFront(" event=", ev, EVENT_NAME, parts, [ADDR, VALUE], [addr, value], r);
    var p := [" event=", ev] + parts;
    assert [EVENT_NAME] + [ADDR, VALUE] == [EVENT_NAME, ADDR, VALUE] && [ev] + [addr, value] == [ev, addr, value];
    PlainFront(" category=", cat, CATEGORY_NAME, p, [EVENT_NAME, ADDR, VALUE], [ev, addr, value], r);
    assert [CATEGORY_NAME] + [EVENT_NAME, ADDR, VALUE] == [CATEGORY_NAME, EVENT_NAME, ADDR, VALUE];
    assert [cat] + [ev, addr, value] == [cat, ev, addr, value];
    assert [" category=", cat] + p == [" category=", cat, " event=", ev] + parts;
  }

  lemma LastSix(committed: string, pc: string, parts: seq<string>, fields: seq<Field>, texts: seq<string>, r: string)
    requires Prints(parts, fields, texts, r)
    ensures Prints([" committed=", committed, " pc=", "0x" + pc] + parts, [COMMITTED, PC] + fields,
                   [committed, pc] + texts, r)
  {
    HexMarks();
    PlainMarks();
    HexFront(" pc=", pc, PC, parts, fields, texts, r);
    var p, f, t := [" pc=", "0x" + pc] + parts, [PC] + fields, [pc] + texts;
    PlainFront(" committed=", committed, COMMITTED, p, f, t, r);
    assert [COMMITTED] + f == [COMMITTED, PC] + fields && [committed] + t == [committed, pc] + texts;
    assert [" committed=", committed] + p == [" committed=", committed, " pc=", "0x" + pc] + parts;
  }

  /** The parts of a detail line after the first field. */
  function LaterParts(c: Call, last: string): seq<string>
    requires c.category.Str? && c.event.Str?
  {
    [" committed=", Decimal(c.ctx.committed), " pc=", Hex8(c.ctx.pc)]
    + ([" category=", c.category.s, " event=", c.event.s] + [" addr=", Hex8(c.addr), " value=", Hex8(c.value), last])
  }

  lemma LaterFields(c: Call, r: string)
    requires c.category.Str? && c.event.Str?
    ensures Prints(LaterParts(c, r), FIELDS_READ[1..], TextsOf(c)[1..], r)
  {
    var addr, value := Hex(c.addr, 8), Hex(c.value, 8);
    LastTwo(addr, value, r);
    var p := [" addr=", Hex8(c.addr), " value=", Hex8(c.value), r];
    LastFour(c.category.s, c.event.s, p, addr, value, r);
    var f, t := [CATEGORY_NAME, EVENT_NAME, ADDR, VALUE], [c.category.s, c.event.s, addr, value];
    LastSix(Decimal(c.ctx.committed), Hex(c.ctx.pc, 8),
            [" category=", c.category.s, " event=", c.event.s] + p, f, t, r);
    assert [COMMITTED, PC] + f == FIELDS_READ[1..];
    assert [Decimal(c.ctx.committed), Hex(c.ctx.pc, 8)] + t == TextsOf(c)[1..];
  }

  lemma LineParts(c: Call)
    requires c.category.Str? && c.event.Str?
    ensures LineOf(c) == Cat(["cycle=", Decimal(c.ctx.cycle)] + LaterParts(c, LastPart(c)))
  {
    assert ["cycle=", Decimal(c.ctx.cycle)] + LaterParts(c, LastPart(c))
        == ["cycle=", Decimal(c.ctx.cycle), " committed=", Decimal(c.ctx.committed), " pc=", Hex8(c.ctx.pc),
            " category=", c.category.s, " event=", c.event.s, " addr=", Hex8(c.addr), " value=", Hex8(c.value),
            if c.detail == "" then "" else " detail=" + c.detail];
  }

  lemma PartsEnd(c: Call, last: string)
    requires c.category.Str? && c.event.Str?
    ensures Cat(["cycle=", Decimal(c.ctx.cycle)] + LaterParts(c, last + "\n"))
         == Cat(["cycle=", Decimal(c.ctx.cycle)] + LaterParts(c, last)) + "\n"
  {
    var front := LaterParts(c, "")[..12];
    var head := ["cycle=", Decimal(c.ctx.cycle)] + front;
    assert LaterParts(c, last) == front + [last] && LaterParts(c, last + "\n") == front + [last + "\n"];
    assert ["cycle=", Decimal(c.ctx.cycle)] + LaterParts(c, last) == head + [last];
    assert ["cycle=", Decimal(c.ctx.cycle)] + LaterParts(c, last + "\n") == head + [last + "\n"];
    CatLast(head, last);
    CatLast(head, last + "\n");
  }

  lemma DetailText(c: Call)
    requires c.category.Str? && c.event.Str?
    ensures LineOf(c) + "\n" == Written(FIELDS_READ, TextsOf(c), Remark(c))
  {
    LineParts(c);
    PartsEnd(c, LastPart(c));
    LaterFields(c, Remark(c));
    CatTwo("cycle=", Decimal(c.ctx.cycle), LaterParts(c, Remark(c)));
    WrittenNext(FIELDS_READ[0], TextsOf(c)[0], FIELDS_READ[1..], TextsOf(c)[1..], Remark(c));
    assert FIELDS_READ == [FIELDS_READ[0]] + FIELDS_READ[1..] && TextsOf(c) == [TextsOf(c)[0]] + TextsOf(c)[1..];
  }

  /** A number field is digits, a hexadecimal one hexadecimal digits. */
  lemma TextsOk(c: Call)
    requires c.category.Str? && c.event.Str? && IsName(c.category.s) && IsName(c.event.s)
    requires c.ctx.pc < 0x1_0000_0000 && c.addr < 0x1_0000_0000 && c.value < 0x1_0000_0000
    ensures AllOk(FIELDS_READ, TextsOf(c))
  {
    Hex8RoundTrip(c.ctx.pc);
    Hex8RoundTrip(c.addr);
    Hex8RoundTrip(c.value);
  }

  /** What the reader makes of a line. */
  datatype Detail = Detail(
    cycle: nat, committed: nat, pc: nat, category: string, event: string, addr: nat, value: nat)

  predicate AllDigits(s: string) {
    forall k :: 0 <= k < |s| ==> IsDigit(s[k])
  }

  function ReadDetail(line: string): Option<Detail> {
    match ScanFields(line, FIELDS_READ)
    case None => None
    case Some(t) =>
      if |t| == 7 && AllDigits(t[0]) && AllDigits(t[1]) && AllHex(t[2]) && AllHex(t[5]) && AllHex(t[6]) then
        Some(Detail(ParseDecimal(t[0]), ParseDecimal(t[1]), ParseHex(t[2]), t[3], t[4], ParseHex(t[5]), ParseHex(t[6])))
      else None
  }

  /** Every detail line the logger writes for names of word characters and 32-bit values is
      read back field for field, whatever detail text follows. */
  lemma DetailReadsBack(c: Call)
    requires c.category.Str? && c.event.Str? && IsName(c.category.s) && IsName(c.event.s)
    requires c.ctx.pc < 0x1_0000_0000 && c.addr < 0x1_0000_0000 && c.value < 0x1_0000_0000
    ensures ReadDetail(LineOf(c) + "\n")
         == Some(Detail(c.ctx.cycle, c.ctx.committed, c.ctx.pc, c.category.s, c.event.s, c.addr, c.value))
  {
    DetailText(c);
    TextsOk(c);
    FieldsFound(FIELDS_READ, TextsOf(c), Remark(c));
    DecimalRoundTrip(c.ctx.cycle);
    DecimalRoundTrip(c.ctx.committed);
    Hex8RoundTrip(c.ctx.pc);
    Hex8RoundTrip(c.addr);
    Hex8RoundTrip(c.value);
  }
}
