/** What a cut burst, or a padded one, leaves in the slave's memory in every run. */
module AsyncAlignment {
  import opened Pairing
  import opened AsyncSlave

  const AT_REST := State([], [], [], map[], false, 0, false)
  const NOTHING_SEEN := Seen([], [], 0, 0)

  /** A word stays where it was stored unless a later one goes there too. */
  lemma {:induction false} WordStays(mem: Words, bursts: seq<Burst>, words: seq<int>, n: nat, g: nat)
    requires Apart(bursts, WORD) && g < n <= |words| && n <= Owed(bursts, |bursts|)
    ensures var a := Target(bursts, |bursts|, g, WORD);
            a in PairedWords(mem, bursts, words, n) && PairedWords(mem, bursts, words, n)[a] == words[g]
  {
    if g < n - 1 {
      WordStays(mem, bursts, words, n - 1, g);
      TargetsApart(bursts, g, n - 1, WORD);
    }
  }

  /** Every word of a committed burst is in memory where the pairing puts it. */
  predicate Placed(s: State, h: Seen) {
    h.committed <= |h.bursts| && Owed(h.bursts, h.committed) <= |h.words|
    && forall g: nat :: g < Owed(h.bursts, h.committed) ==>
         Holds(s, Target(h.bursts, |h.bursts|, g, WORD), h.words[g])
  }

  predicate Holds(s: State, a: int, word: int) {
    a in s.mem && s.mem[a] == word
  }

  lemma RunPlaces(edges: seq<Edge>)
    requires AllSensible(AT_REST, edges)
    ensures var (s, h) := LatchAll(AT_REST, NOTHING_SEEN, edges); Apart(h.bursts, WORD) ==> Placed(s, h)
  {
    EveryRunPairs(edges);
    var (s, h) := LatchAll(AT_REST, NOTHING_SEEN, edges);
    if Apart(h.bursts, WORD) {
      OwedMonotone(h.bursts, h.committed, |h.bursts|);
      forall g: nat | g < Owed(h.bursts, h.committed)
        ensures Holds(s, Target(h.bursts, |h.bursts|, g, WORD), h.words[g])
      {
        WordStays(map[], h.bursts, h.words, Owed(h.bursts, h.committed), g);
      }
    }
  }

  /** `after` is what the master sent from word `start` on, meant for the bursts after j;
      the slave has committed beyond the word meant for beat i of burst t. */
  predicate Sent(h: Seen, j: nat, start: nat, after: seq<int>, t: nat, i: nat) {
    j < t < |h.bursts| && i <= h.bursts[t].len && h.committed <= |h.bursts|
    && start <= |h.words| && h.words[start..] == after
    && start + Meant(h.bursts, j, t, i) < Owed(h.bursts, h.committed)
  }

  /** Some beat of a burst from j on and before t holds the word. */
  predicate HeldBefore(s: State, h: Seen, j: nat, t: nat, word: int)
    requires t <= |h.bursts|
  {
    exists e: nat, x: nat {:trigger Place(h.bursts[e], x, WORD)} ::
      j <= e < t && x <= h.bursts[e].len && Holds(s, Place(h.bursts[e], x, WORD), word)
  }

  /** Where beat i of burst t, the word after[m], is found if burst j was cut after k beats
      and d are missing: d words below its own place, or inside an earlier burst if i < d;
      its own place, once committed, holds the beat sent d later. */
  predicate Misplaced(s: State, h: Seen, j: nat, k: nat, after: seq<int>, t: nat, i: nat)
    requires j < t < |h.bursts| && k <= h.bursts[j].len && h.committed <= |h.bursts|
  {
    var d := h.bursts[j].len + 1 - k;
    var m := Meant(h.bursts, j, t, i);
    m < |after|
    && (if i >= d then Holds(s, Place(h.bursts[t], i - d, WORD), after[m]) else HeldBefore(s, h, j, t, after[m]))
    && (Owed(h.bursts, t) + i < Owed(h.bursts, h.committed) ==>
          m + d < |after| && Holds(s, Place(h.bursts[t], i, WORD), after[m + d]))
  }

  lemma SuffixAt(words: seq<int>, start: nat, after: seq<int>, m: nat)
    requires start + m < |words| && words[start..] == after
    ensures m < |after| && after[m] == words[start + m]
  {
  }

  /** The word is where the pairing puts it. */
  lemma SentIsPlaced(s: State, h: Seen, j: nat, start: nat, after: seq<int>, t: nat, i: nat)
    requires Placed(s, h) && Sent(h, j, start, after, t, i)
    ensures var m := Meant(h.bursts, j, t, i);
            m < |after| && Holds(s, Target(h.bursts, |h.bursts|, start + m, WORD), after[m])
  {
    var m := Meant(h.bursts, j, t, i);
    assert after[m] == h.words[start + m];
  }

  lemma OwnerHolds(s: State, h: Seen, j: nat, t: nat, g: nat, word: int)
    requires j <= t <= |h.bursts| && Owed(h.bursts, j) <= g < Owed(h.bursts, t)
    requires Holds(s, Target(h.bursts, |h.bursts|, g, WORD), word)
    ensures HeldBefore(s, h, j, t, word)
  {
    OwnerBetween(h.bursts, g, j, t);
    var e: nat :| j <= e < t && InBurst(h.bursts, g, e);
    TargetOfOwner(h.bursts, g, e, WORD);
    var x: nat := g - Owed(h.bursts, e);
    assert Place(h.bursts[e], x, WORD) == Target(h.bursts, |h.bursts|, g, WORD);
  }

  lemma CutMisplaces(s: State, h: Seen, j: nat, k: nat, after: seq<int>, t: nat, i: nat)
    requires Placed(s, h)
    requires j < |h.bursts| && k <= h.bursts[j].len && Sent(h, j, Owed(h.bursts, j) + k, after, t, i)
    ensures Misplaced(s, h, j, k, after, t, i)
  {
    var start, m := Owed(h.bursts, j) + k, Meant(h.bursts, j, t, i);
    SentIsPlaced(s, h, j, start, after, t, i);
    CutShifts(h.bursts, j, k, t, i, WORD);
    if i < h.bursts[j].len + 1 - k {
      OwnerHolds(s, h, j, t, start + m, after[m]);
    }
    if Owed(h.bursts, t) + i < Owed(h.bursts, h.committed) {
      OwnPlaceHolds(s, h, t, i);
      SuffixAt(h.words, start, after, m + h.bursts[j].len + 1 - k);
    }
  }

  lemma OwnPlaceHolds(s: State, h: Seen, t: nat, i: nat)
    requires Placed(s, h) && t < |h.bursts| && i <= h.bursts[t].len
    requires Owed(h.bursts, t) + i < Owed(h.bursts, h.committed)
    ensures Holds(s, Place(h.bursts[t], i, WORD), h.words[Owed(h.bursts, t) + i])
  {
    TargetInBurst(h.bursts, |h.bursts|, t, i, WORD);
    assert Holds(s, Target(h.bursts, |h.bursts|, Owed(h.bursts, t) + i, WORD), h.words[Owed(h.bursts, t) + i]);
  }

  /** In every run in which burst j was cut, every beat of every later burst is misplaced. */
  lemma {:induction false} CutRunMisplaces(edges: seq<Edge>, j: nat, k: nat, after: seq<int>, t: nat, i: nat)
    requires AllSensible(AT_REST, edges)
    requires var (s, h) := LatchAll(AT_REST, NOTHING_SEEN, edges);
             j < |h.bursts| && k <= h.bursts[j].len && Apart(h.bursts, WORD)
             && Sent(h, j, Owed(h.bursts, j) + k, after, t, i)
    ensures var (s, h) := LatchAll(AT_REST, NOTHING_SEEN, edges); Misplaced(s, h, j, k, after, t, i)
  {
    RunPlaces(edges);
    var (s, h) := LatchAll(AT_REST, NOTHING_SEEN, edges);
    CutMisplaces(s, h, j, k, after, t, i);
  }

  lemma PaddedPlaces(s: State, h: Seen, j: nat, after: seq<int>, t: nat, i: nat)
    requires Placed(s, h) && j < |h.bursts| && Sent(h, j, Owed(h.bursts, j + 1), after, t, i)
    ensures var m := Meant(h.bursts, j, t, i); m < |after| && Holds(s, Place(h.bursts[t], i, WORD), after[m])
  {
    SentIsPlaced(s, h, j, Owed(h.bursts, j + 1), after, t, i);
    FillersRealign(h.bursts, j, 0, t, i, WORD);
  }

  /** Burst j topped up, in any run: every beat of every later burst is at its own address. */
  lemma {:induction false} PaddedRunPlaces(edges: seq<Edge>, j: nat, after: seq<int>, t: nat, i: nat)
    requires AllSensible(AT_REST, edges)
    requires var (s, h) := LatchAll(AT_REST, NOTHING_SEEN, edges);
             j < |h.bursts| && Apart(h.bursts, WORD) && Sent(h, j, Owed(h.bursts, j + 1), after, t, i)
    ensures var (s, h) := LatchAll(AT_REST, NOTHING_SEEN, edges);
            var m := Meant(h.bursts, j, t, i);
            m < |after| && Holds(s, Place(h.bursts[t], i, WORD), after[m])
  {
    RunPlaces(edges);
    var (s, h) := LatchAll(AT_REST, NOTHING_SEEN, edges);
    PaddedPlaces(s, h, j, after, t, i);
  }
}
