/** From calls to verdicts: what the checker says of a run, told from the calls made, the
    names in the filter and the numbers expected. */
module EventLogExpectations {
  import opened LogText
  import opened EventLog
  import opened EventLogTables
  import opened EventLogRoundTrip
  import opened EventLogChecker

  /** No filter, or the name is in it. */
  predicate PassesFilter(l: Logger, name: string) {
    |l.filter| == 0 || exists n :: 0 <= n < |l.filter| && l.filter[n] == name
  }

  /** The call is recorded under the name: the logger is on, both texts are given, and the
      filter lets it through. */
  predicate CountsFor(l: Logger, op: Op, name: string) {
    op.RecordOp? && op.call.category == Str(name) && op.call.event.Str?
    && (l.summary || |l.path| > 0) && PassesFilter(l, name)
  }

  /** Calls recorded under the name. */
  function Tally(l: Logger, ops: seq<Op>, name: string): nat
    decreases |ops|
  {
    if |ops| == 0 then 0
    else Tally(l, ops[..|ops| - 1], name) + if CountsFor(l, ops[|ops| - 1], name) then 1 else 0
  }

  /** The name was watched or recorded. */
  predicate Appears(l: Logger, ops: seq<Op>, name: string) {
    exists k :: 0 <= k < |ops|
      && (CountsFor(l, ops[k], name) || (ops[k] == WatchOp(Str(name)) && PassesFilter(l, name)))
  }

  lemma PassesIff(l: Logger, name: string)
    ensures PassesFilter(l, name) <==> Allowed(l, name)
  {
  }

  lemma {:induction false} TallyIsMatching(l: Logger, ops: seq<Op>, name: string)
    ensures Tally(l, ops, name) == |Matching(l, ops, name, false)|
    decreases |ops|
  {
    if |ops| > 0 {
      TallyIsMatching(l, ops[..|ops| - 1], name);
      PassesIff(l, name);
    }
  }

  lemma AppearsIsTouched(l: Logger, ops: seq<Op>, name: string)
    ensures Appears(l, ops, name) <==> Touched(l, ops, name)
  {
    PassesIff(l, name);
    forall k | 0 <= k < |ops|
      ensures Touches(l, ops[k], name)
              <==> CountsFor(l, ops[k], name) || (ops[k] == WatchOp(Str(name)) && PassesFilter(l, name))
    {
    }
  }

  /** For every clean run of a fresh logger whose log is open at the end: the checker's
      verdict on an expectation, from the closed log's text, is that the name is made of word
      characters, was watched or recorded, and was recorded as often as expected. */
  lemma {:induction false} VerdictIs(u: Letters, l: Logger, ops: seq<Op>, x: Expectation)
    requires Fresh(l) && l.path != "" && Opened(ops) && CleanRun(l, ops)
    ensures Failing([x], LoadLines(u, Lines(Close(Run(l, ops)).file)).categories) == []
            <==> IsName(x.name) && Appears(l, ops, x.name)
                 && (if x.op == Equal then Tally(l, ops, x.name) == x.want else Tally(l, ops, x.name) >= x.want)
  {
    CategoriesReadBack(u, l, ops, x.name);
    TallyIsMatching(l, ops, x.name);
    AppearsIsTouched(l, ops, x.name);
    FailingOne(x, LoadLines(u, Lines(Close(Run(l, ops)).file)).categories);
  }

  lemma FailingOne(x: Expectation, counts: map<string, nat>)
    ensures Failing([x], counts) == []
            <==> x.name in counts && (if x.op == Equal then counts[x.name] == x.want else counts[x.name] >= x.want)
  {
    assert [x][..0] == [];
    assert Failing([], counts) == [];
  }

  /** A category's count in the tables is the number of calls recorded under its name. */
  lemma {:induction false} CountIsTally(l: Logger, ops: seq<Op>, name: string)
    requires l.categories == [] && l.events == []
    ensures Get(Run(l, ops).categories, name).count == Tally(l, ops, name)
  {
    CategoriesAreTallies(l, ops, name);
    TallyIsMatching(l, ops, name);
  }
}
