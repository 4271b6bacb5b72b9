/** The logger's tables over whole runs: what is counted, first and last records, and the
    balance between categories and events. */
module EventLogTables {
  import opened EventLog

  // ---------------------------------------------------------------- tables

  lemma {:induction false} PlaceOfKey(t: seq<Entry>, k: nat)
    requires Sorted(t) && k < |t|
    ensures Place(t, t[k].key) == k
  {
    LessIrreflexive(t[k].key);
  }

  lemma {:induction false} BeyondPlace(t: seq<Entry>, key: string, k: nat)
    requires Sorted(t) && Place(t, key) <= k < |t| && t[Place(t, key)].key != key
    ensures Less(key, t[k].key)
  {
    var first := t[Place(t, key)].key;
    LessTotal(first, key);
    assert Less(key, first);
    if Place(t, key) < k {
      assert Less(first, t[k].key);
      LessTransitive(key, first, t[k].key);
    }
  }

  lemma {:induction false} PutKeepsSorted(t: seq<Entry>, key: string, s: Stats)
    requires Sorted(t)
    ensures Sorted(Put(t, key, s))
  {
    var n := Place(t, key);
    var u := Put(t, key, s);
    if !(n < |t| && t[n].key == key) {
      forall i, j | 0 <= i < j < |u|
        ensures Less(u[i].key, u[j].key)
      {
        if i == n {
          BeyondPlace(t, key, j - 1);
        } else if i < n < j {
          assert u[j] == t[j - 1];
        }
      }
    }
  }

  lemma {:induction false} HasKey(t: seq<Entry>, key: string)
    requires Sorted(t)
    ensures Has(t, key) <==> Place(t, key) < |t| && t[Place(t, key)].key == key
  {
    if Has(t, key) {
      var k :| 0 <= k < |t| && t[k].key == key;
      PlaceOfKey(t, k);
    }
  }

  lemma {:induction false} PutHas(t: seq<Entry>, key: string, s: Stats, other: string)
    ensures Has(Put(t, key, s), other) <==> Has(t, other) || other == key
  {
    var n := Place(t, key);
    var u := Put(t, key, s);
    assert u[n].key == key;
    if Has(t, other) {
      var k :| 0 <= k < |t| && t[k].key == other;
      if n < |t| && t[n].key == key {
        assert u[k].key == other;
      } else {
        assert u[if k < n then k else k + 1].key == other;
      }
    }
    if Has(u, other) && other != key {
      var k :| 0 <= k < |u| && u[k].key == other;
      if n < |t| && t[n].key == key {
        assert t[k].key == other;
      } else {
        assert t[if k < n then k else k - 1].key == other;
      }
    }
  }

  lemma GetAt(t: seq<Entry>, k: nat)
    requires Sorted(t) && k < |t|
    ensures Get(t, t[k].key) == t[k].stats
  {
    PlaceOfKey(t, k);
  }

  lemma GetPutSame(t: seq<Entry>, key: string, s: Stats)
    requires Sorted(t)
    ensures Get(Put(t, key, s), key) == s
  {
    PutKeepsSorted(t, key, s);
    GetAt(Put(t, key, s), Place(t, key));
  }

  lemma GetAbsent(t: seq<Entry>, key: string)
    requires Sorted(t) && !Has(t, key)
    ensures Get(t, key) == NO_STATS
  {
    HasKey(t, key);
  }

  lemma PutKeepsEntry(t: seq<Entry>, key: string, s: Stats, k: nat)
    requires Sorted(t) && k < |t| && t[k].key != key
    ensures Get(Put(t, key, s), t[k].key) == t[k].stats
  {
    var n := Place(t, key);
    var m := if (n < |t| && t[n].key == key) || k < n then k else k + 1;
    assert Put(t, key, s)[m] == t[k];
    PutKeepsSorted(t, key, s);
    GetAt(Put(t, key, s), m);
  }

  lemma GetPutOther(t: seq<Entry>, key: string, s: Stats, other: string)
    requires Sorted(t) && other != key
    ensures Get(Put(t, key, s), other) == Get(t, other)
  {
    if Has(t, other) {
      var k :| 0 <= k < |t| && t[k].key == other;
      GetAt(t, k);
      PutKeepsEntry(t, key, s, k);
    } else {
      PutKeepsSorted(t, key, s);
      PutHas(t, key, s, other);
      GetAbsent(t, other);
      GetAbsent(Put(t, key, s), other);
    }
  }

  // ---------------------------------------------------------------- runs

  datatype Op = WatchOp(category: CStr) | RecordOp(call: Call) | OpenOp | CloseOp

  function Apply(l: Logger, op: Op): Logger {
    match op
    case WatchOp(c) => Watch(l, c)
    case RecordOp(c) => Record(l, c)
    case OpenOp => Open(l)
    case CloseOp => Close(l)
  }

  function Run(l: Logger, ops: seq<Op>): Logger
    decreases |ops|
  {
    if |ops| == 0 then l else Apply(Run(l, ops[..|ops| - 1]), ops[|ops| - 1])
  }

  /** The settings a run leaves alone. */
  predicate SameSettings(l: Logger, m: Logger) {
    m.path == l.path && m.limit == l.limit && m.summary == l.summary && m.filter == l.filter
  }

  lemma {:induction false} RunSettings(l: Logger, ops: seq<Op>)
    ensures SameSettings(l, Run(l, ops))
    decreases |ops|
  {
    if |ops| > 0 {
      RunSettings(l, ops[..|ops| - 1]);
    }
  }

  /** The accepted records whose category, or whose event key, is `key`. */
  function Matching(l: Logger, ops: seq<Op>, key: string, byEvent: bool): seq<Call>
    decreases |ops|
  {
    if |ops| == 0 then []
    else
      var n := |ops| - 1;
      Matching(l, ops[..n], key, byEvent)
      + if ops[n].RecordOp? && Accepts(l, ops[n].call)
           && (if byEvent then EventKey(ops[n].call) else ops[n].call.category.s) == key
        then [ops[n].call] else []
  }

  /** Statistics as the records call for them. */
  predicate Tallies(s: Stats, calls: seq<Call>) {
    s.count == |calls|
    && (|calls| == 0 ==> s == NO_STATS)
    && (|calls| > 0 ==>
          Pictures(s.first, calls[0]) && Pictures(s.last, calls[|calls| - 1]))
  }

  /** The snapshot holds what the call said. */
  predicate Pictures(s: Snapshot, c: Call) {
    c.event.Str? && s == Snapshot(c.ctx, c.addr, c.value, c.event.s, c.detail)
  }

  lemma UpdateTallies(s: Stats, calls: seq<Call>, c: Call)
    requires Tallies(s, calls) && c.event.Str?
    ensures Tallies(Update(s, SnapshotOf(c)), calls + [c])
  {
  }

  lemma RecordSorted(l: Logger, c: Call)
    requires Sorted(l.categories) && Sorted(l.events)
    ensures Sorted(Record(l, c).categories) && Sorted(Record(l, c).events)
  {
    if Accepts(l, c) {
      PutKeepsSorted(l.categories, c.category.s, Update(Get(l.categories, c.category.s), SnapshotOf(c)));
      PutKeepsSorted(l.events, EventKey(c), Update(Get(l.events, EventKey(c)), SnapshotOf(c)));
    }
  }

  lemma WatchSorted(l: Logger, c: CStr)
    requires Sorted(l.categories)
    ensures Sorted(Watch(l, c).categories)
  {
    if c.Str? {
      PutKeepsSorted(l.categories, c.s, Get(l.categories, c.s));
    }
  }

  lemma ApplyTables(l: Logger, op: Op)
    requires Sorted(l.categories) && Sorted(l.events)
    ensures Sorted(Apply(l, op).categories) && Sorted(Apply(l, op).events)
  {
    match op
    case WatchOp(c) => WatchSorted(l, c);
    case RecordOp(c) => RecordSorted(l, c);
    case OpenOp =>
    case CloseOp =>
  }

  lemma {:induction false} RunSorted(l: Logger, ops: seq<Op>)
    requires l.categories == [] && l.events == []
    ensures Sorted(Run(l, ops).categories) && Sorted(Run(l, ops).events)
    decreases |ops|
  {
    if |ops| > 0 {
      RunSorted(l, ops[..|ops| - 1]);
      ApplyTables(Run(l, ops[..|ops| - 1]), ops[|ops| - 1]);
    }
  }

  lemma GetPut(t: seq<Entry>, key: string, s: Stats, other: string)
    requires Sorted(t)
    ensures Get(Put(t, key, s), other) == if other == key then s else Get(t, other)
  {
    if other == key {
      GetPutSame(t, key, s);
    } else {
      GetPutOther(t, key, s, other);
    }
  }

  lemma RecordCategory(l: Logger, c: Call, key: string)
    requires Sorted(l.categories)
    ensures Get(Record(l, c).categories, key)
         == if Accepts(l, c) && c.category.s == key then Update(Get(l.categories, key), SnapshotOf(c))
            else Get(l.categories, key)
  {
    if Accepts(l, c) {
      GetPut(l.categories, c.category.s, Update(Get(l.categories, c.category.s), SnapshotOf(c)), key);
    }
  }

  lemma WatchCategory(l: Logger, c: CStr, key: string)
    requires Sorted(l.categories)
    ensures Get(Watch(l, c).categories, key) == Get(l.categories, key)
  {
    if c.Str? {
      GetPut(l.categories, c.s, Get(l.categories, c.s), key);
    }
  }

  /** What one operation does to the statistics of one key. */
  lemma ApplyCategory(l: Logger, op: Op, key: string)
    requires Sorted(l.categories)
    ensures Get(Apply(l, op).categories, key)
         == if op.RecordOp? && Accepts(l, op.call) && op.call.category.s == key
            then Update(Get(l.categories, key), SnapshotOf(op.call)) else Get(l.categories, key)
  {
    match op
    case WatchOp(c) => WatchCategory(l, c, key);
    case RecordOp(c) => RecordCategory(l, c, key);
    case OpenOp =>
    case CloseOp =>
  }

  lemma ApplyEvent(l: Logger, op: Op, key: string)
    requires Sorted(l.events)
    ensures Get(Apply(l, op).events, key)
         == if op.RecordOp? && Accepts(l, op.call) && EventKey(op.call) == key
            then Update(Get(l.events, key), SnapshotOf(op.call)) else Get(l.events, key)
  {
    if op.RecordOp? && Accepts(l, op.call) {
      var s := Update(Get(l.events, EventKey(op.call)), SnapshotOf(op.call));
      GetPut(l.events, EventKey(op.call), s, key);
    }
  }

  lemma MatchingGrows(l: Logger, ops: seq<Op>, op: Op, key: string, byEvent: bool)
    ensures Matching(l, ops + [op], key, byEvent)
         == Matching(l, ops, key, byEvent)
            + if op.RecordOp? && Accepts(l, op.call)
                 && (if byEvent then EventKey(op.call) else op.call.category.s) == key
              then [op.call] else []
  {
    assert (ops + [op])[..|ops|] == ops;
  }

  /** In every run a category's count is the number of its accepted records, and its first
      and last snapshots are the earliest and the latest of them. */
  lemma {:induction false} CategoriesAreTallies(l: Logger, ops: seq<Op>, key: string)
    requires l.categories == [] && l.events == []
    ensures Tallies(Get(Run(l, ops).categories, key), Matching(l, ops, key, false))
    decreases |ops|
  {
    if |ops| > 0 {
      var front, op := ops[..|ops| - 1], ops[|ops| - 1];
      var m := Run(l, front);
      CategoriesAreTallies(l, front, key);
      RunSorted(l, front);
      RunSettings(l, front);
      assert ops == front + [op];
      MatchingGrows(l, front, op, key, false);
      CategoryStep(l, m, op, key, Matching(l, front, key, false));
    }
  }

  lemma CategoryStep(l: Logger, m: Logger, op: Op, key: string, calls: seq<Call>)
    requires SameSettings(l, m) && Sorted(m.categories) && Tallies(Get(m.categories, key), calls)
    ensures Tallies(Get(Apply(m, op).categories, key),
                    calls + if op.RecordOp? && Accepts(l, op.call) && op.call.category.s == key then [op.call] else [])
  {
    ApplyCategory(m, op, key);
    if op.RecordOp? && Accepts(l, op.call) {
      UpdateTallies(Get(m.categories, key), calls, op.call);
    }
  }

  /** And the same of every event. */
  lemma {:induction false} EventsAreTallies(l: Logger, ops: seq<Op>, key: string)
    requires l.categories == [] && l.events == []
    ensures Tallies(Get(Run(l, ops).events, key), Matching(l, ops, key, true))
    decreases |ops|
  {
    if |ops| > 0 {
      var front, op := ops[..|ops| - 1], ops[|ops| - 1];
      var m := Run(l, front);
      EventsAreTallies(l, front, key);
      RunSorted(l, front);
      RunSettings(l, front);
      assert ops == front + [op];
      MatchingGrows(l, front, op, key, true);
      EventStep(l, m, op, key, Matching(l, front, key, true));
    }
  }

  lemma EventStep(l: Logger, m: Logger, op: Op, key: string, calls: seq<Call>)
    requires SameSettings(l, m) && Sorted(m.events) && Tallies(Get(m.events, key), calls)
    ensures Tallies(Get(Apply(m, op).events, key),
                    calls + if op.RecordOp? && Accepts(l, op.call) && EventKey(op.call) == key then [op.call] else [])
  {
    ApplyEvent(m, op, key);
    if op.RecordOp? && Accepts(l, op.call) {
      UpdateTallies(Get(m.events, key), calls, op.call);
    }
  }

  /** A category is in the table exactly if it was watched or recorded. */
  predicate Touched(l: Logger, ops: seq<Op>, key: string) {
    exists k :: 0 <= k < |ops| && Touches(l, ops[k], key)
  }

  predicate Touches(l: Logger, op: Op, key: string) {
    match op
    case WatchOp(c) => c.Str? && Allowed(l, c.s) && c.s == key
    case RecordOp(c) => Accepts(l, c) && c.category.s == key
    case OpenOp => false
    case CloseOp => false
  }

  lemma TouchedGrows(l: Logger, ops: seq<Op>, op: Op, key: string)
    ensures Touched(l, ops + [op], key) <==> Touched(l, ops, key) || Touches(l, op, key)
  {
    assert (ops + [op])[|ops|] == op;
    if Touched(l, ops, key) {
      var k :| 0 <= k < |ops| && Touches(l, ops[k], key);
      assert (ops + [op])[k] == ops[k];
    }
  }

  lemma {:induction false} TableHoldsTouched(l: Logger, ops: seq<Op>, key: string)
    requires l.categories == []
    ensures Has(Run(l, ops).categories, key) <==> Touched(l, ops, key)
    decreases |ops|
  {
    if |ops| == 0 {
      assert !Touched(l, ops, key);
    } else {
      var front, op := ops[..|ops| - 1], ops[|ops| - 1];
      TableHoldsTouched(l, front, key);
      RunSettings(l, front);
      TouchStep(l, Run(l, front), front, op, key);
      RunLast(l, ops);
    }
  }

  lemma RunLast(l: Logger, ops: seq<Op>)
    requires |ops| > 0
    ensures ops[..|ops| - 1] + [ops[|ops| - 1]] == ops
    ensures Run(l, ops) == Apply(Run(l, ops[..|ops| - 1]), ops[|ops| - 1])
  {
  }

  lemma TouchStep(l: Logger, m: Logger, front: seq<Op>, op: Op, key: string)
    requires SameSettings(l, m) && (Has(m.categories, key) <==> Touched(l, front, key))
    ensures Has(Apply(m, op).categories, key) <==> Touched(l, front + [op], key)
  {
    TouchedGrows(l, front, op, key);
    ApplyHas(m, op, key);
    TouchesFrame(l, m, op, key);
  }

  lemma TouchesFrame(l: Logger, m: Logger, op: Op, key: string)
    requires SameSettings(l, m)
    ensures Touches(l, op, key) <==> Touches(m, op, key)
  {
  }

  lemma ApplyHas(m: Logger, op: Op, key: string)
    ensures Has(Apply(m, op).categories, key) <==> Has(m.categories, key) || Touches(m, op, key)
  {
    match op
    case WatchOp(c) =>
      if c.Str? {
        PutHas(m.categories, c.s, Get(m.categories, c.s), key);
      }
    case RecordOp(c) =>
      if Accepts(m, c) {
        PutHas(m.categories, c.category.s, Update(Get(m.categories, c.category.s), SnapshotOf(c)), key);
      }
    case OpenOp =>
    case CloseOp =>
  }

  // ---------------------------------------------------------------- categories balance events

  predicate DotFree(s: string) {
    forall k :: 0 <= k < |s| ==> s[k] != '.'
  }

  /** The event key belongs to the category. */
  predicate Belongs(key: string, category: string) {
    category + "." <= key
  }

  lemma BelongsToOne(c: string, e: string, category: string)
    requires DotFree(c) && DotFree(category)
    ensures Belongs(c + "." + e, category) <==> category == c
  {
    var key := c + "." + e;
    assert c + "." <= key && key[|c|] == '.';
    assert forall k :: 0 <= k < |c| ==> key[k] == c[k];
    if category + "." <= key {
      assert key[|category|] == (category + ".")[|category|];
      assert forall k :: 0 <= k < |category| ==> key[k] == (category + ".")[k] == category[k];
      assert |category| == |c|;
      assert category == key[..|c|];
    }
  }

  function Sum(t: seq<Entry>, category: string): nat
    decreases |t|
  {
    if |t| == 0 then 0
    else Sum(t[..|t| - 1], category) + if Belongs(t[|t| - 1].key, category) then t[|t| - 1].stats.count else 0
  }

  lemma {:induction false} SumConcat(a: seq<Entry>, b: seq<Entry>, category: string)
    ensures Sum(a + b, category) == Sum(a, category) + Sum(b, category)
    decreases |b|
  {
    if |b| == 0 {
      assert a + b == a;
    } else {
      assert (a + b)[..|a + b| - 1] == a + b[..|b| - 1];
      SumConcat(a, b[..|b| - 1], category);
    }
  }

  lemma SumOne(e: Entry, category: string)
    ensures Sum([e], category) == if Belongs(e.key, category) then e.stats.count else 0
  {
    assert [e][..0] == [];
  }

  lemma SumMiddle(a: seq<Entry>, e: Entry, b: seq<Entry>, category: string)
    ensures Sum(a + ([e] + b), category)
         == Sum(a, category) + (if Belongs(e.key, category) then e.stats.count else 0) + Sum(b, category)
  {
    SumOne(e, category);
    SumConcat(a, [e] + b, category);
    SumConcat([e], b, category);
  }

  lemma SumReplaced(t: seq<Entry>, n: nat, e: Entry, category: string)
    requires n < |t| && t[n].key == e.key
    ensures Sum(t[n := e], category) - Sum(t, category)
         == if Belongs(e.key, category) then e.stats.count - t[n].stats.count else 0
  {
    assert t == t[..n] + ([t[n]] + t[n + 1..]);
    assert t[n := e] == t[..n] + ([e] + t[n + 1..]);
    SumMiddle(t[..n], t[n], t[n + 1..], category);
    SumMiddle(t[..n], e, t[n + 1..], category);
  }

  lemma SumInserted(t: seq<Entry>, n: nat, e: Entry, category: string)
    requires n <= |t|
    ensures Sum(t[..n] + [e] + t[n..], category) - Sum(t, category)
         == if Belongs(e.key, category) then e.stats.count else 0
  {
    assert t == t[..n] + t[n..];
    assert t[..n] + [e] + t[n..] == t[..n] + ([e] + t[n..]);
    SumConcat(t[..n], t[n..], category);
    SumMiddle(t[..n], e, t[n..], category);
  }

  lemma SumPut(t: seq<Entry>, key: string, s: Stats, category: string)
    ensures Sum(Put(t, key, s), category) - Sum(t, category)
         == if Belongs(key, category) then s.count - Get(t, key).count else 0
  {
    var n := Place(t, key);
    if n < |t| && t[n].key == key {
      SumReplaced(t, n, Entry(key, s), category);
    } else {
      SumInserted(t, n, Entry(key, s), category);
    }
  }

  predicate DotFreeOps(ops: seq<Op>) {
    forall k :: 0 <= k < |ops| && ops[k].RecordOp? && ops[k].call.category.Str? ==> DotFree(ops[k].call.category.s)
  }

  /** In every run with dot-free names a category's count is the sum of its events' counts. */
  lemma {:induction false} CategoriesBalanceEvents(l: Logger, ops: seq<Op>, category: string)
    requires l.categories == [] && l.events == [] && DotFreeOps(ops) && DotFree(category)
    ensures Get(Run(l, ops).categories, category).count == Sum(Run(l, ops).events, category)
    decreases |ops|
  {
    if |ops| > 0 {
      var front, op := ops[..|ops| - 1], ops[|ops| - 1];
      var m := Run(l, front);
      CategoriesBalanceEvents(l, front, category);
      RunSorted(l, front);
      BalanceStep(m, op, category);
    }
  }

  lemma BalanceStep(m: Logger, op: Op, category: string)
    requires Sorted(m.categories) && DotFree(category)
    requires op.RecordOp? && op.call.category.Str? ==> DotFree(op.call.category.s)
    ensures Get(Apply(m, op).categories, category).count - Get(m.categories, category).count
         == Sum(Apply(m, op).events, category) - Sum(m.events, category)
  {
    ApplyCategory(m, op, category);
    if op.RecordOp? && Accepts(m, op.call) {
      var key := EventKey(op.call);
      BelongsToOne(op.call.category.s, op.call.event.s, category);
      SumPut(m.events, key, Update(Get(m.events, key), SnapshotOf(op.call)), category);
    }
  }
}
