/** Write bursts and their data travel separately and are paired by length alone: burst j
    owns the beats that follow those of bursts 0 .. j-1. */
module Pairing {

  /** A burst of `len + 1` beats. */
  datatype Burst = Burst(addr: int, len: nat)

  /** Beats the first j bursts own. */
  function Owed(bursts: seq<Burst>, j: nat): nat
    requires j <= |bursts|
  {
    if j == 0 then 0 else Owed(bursts, j - 1) + bursts[j - 1].len + 1
  }

  /** Where beat g goes, looking at the first n bursts only. */
  function Target(bursts: seq<Burst>, n: nat, g: nat, stride: int): int
    requires n <= |bursts|
  {
    if n == 0 then 0
    else if g >= Owed(bursts, n - 1) then bursts[n - 1].addr + stride * (g - Owed(bursts, n - 1))
    else Target(bursts, n - 1, g, stride)
  }

  lemma {:induction false} OwedMonotone(bursts: seq<Burst>, j: nat, k: nat)
    requires j <= k <= |bursts|
    ensures Owed(bursts, j) + (k - j) <= Owed(bursts, k)
    decreases k
  {
    if j < k {
      OwedMonotone(bursts, j, k - 1);
    }
  }

  lemma {:induction false} OwedOfPrefix(bursts: seq<Burst>, more: seq<Burst>, j: nat)
    requires j <= |bursts|
    ensures Owed(bursts + more, j) == Owed(bursts, j)
  {
    if j > 0 {
      OwedOfPrefix(bursts, more, j - 1);
    }
  }

  lemma {:induction false} TargetOfPrefix(bursts: seq<Burst>, more: seq<Burst>, n: nat, g: nat, stride: int)
    requires n <= |bursts|
    ensures Target(bursts + more, n, g, stride) == Target(bursts, n, g, stride)
  {
    if n > 0 {
      OwedOfPrefix(bursts, more, n - 1);
      TargetOfPrefix(bursts, more, n - 1, g, stride);
    }
  }

  /** The i-th burst gets exactly the beats that start at the sum of the earlier lengths,
      at consecutive addresses of its own. */
  lemma {:induction false} TargetInBurst(bursts: seq<Burst>, n: nat, j: nat, k: nat, stride: int)
    requires j < n <= |bursts| && k <= bursts[j].len
    ensures Target(bursts, n, Owed(bursts, j) + k, stride) == bursts[j].addr + stride * k
    decreases n
  {
    if j < n - 1 {
      OwedMonotone(bursts, j + 1, n - 1);
      TargetInBurst(bursts, n - 1, j, k, stride);
    }
  }

  /** Bursts that arrive later do not move beats that already have a place. */
  lemma LaterBurstsKeepTargets(bursts: seq<Burst>, b: Burst, g: nat, stride: int)
    requires g < Owed(bursts, |bursts|)
    ensures Target(bursts + [b], |bursts| + 1, g, stride) == Target(bursts, |bursts|, g, stride)
  {
    OwedOfPrefix(bursts, [b], |bursts|);
    TargetOfPrefix(bursts, [b], |bursts|, g, stride);
  }

  /** Beat g belongs to burst j. */
  predicate InBurst(bursts: seq<Burst>, g: int, j: nat) {
    j < |bursts| && Owed(bursts, j) <= g < Owed(bursts, j + 1)
  }

  lemma UniqueBurst(bursts: seq<Burst>, g: int, j: nat, k: nat)
    requires InBurst(bursts, g, j) && InBurst(bursts, g, k)
    ensures j == k
  {
    if j < k {
      OwedMonotone(bursts, j + 1, k);
    } else if k < j {
      OwedMonotone(bursts, k + 1, j);
    }
  }

  lemma {:induction false} OwedOfSuffix(bursts: seq<Burst>, s: nat, j: nat)
    requires s + j <= |bursts|
    ensures Owed(bursts[s..], j) == Owed(bursts, s + j) - Owed(bursts, s)
  {
    if j > 0 {
      OwedOfSuffix(bursts, s, j - 1);
    }
  }

  /** Once the bursts before s have all their beats, later ones are placed as if those
      had never been. */
  lemma {:induction false} TargetOfSuffix(bursts: seq<Burst>, s: nat, n: nat, m: nat, stride: int)
    requires s < s + n <= |bursts|
    ensures Target(bursts, s + n, Owed(bursts, s) + m, stride) == Target(bursts[s..], n, m, stride)
  {
    OwedOfSuffix(bursts, s, n - 1);
    if m < Owed(bursts[s..], n - 1) {
      TargetOfSuffix(bursts, s, n - 1, m, stride);
    }
  }

  /** Some burst from j on and before t owns beat g. */
  lemma {:induction false} OwnerBetween(bursts: seq<Burst>, g: int, j: nat, t: nat)
    requires j <= t <= |bursts| && Owed(bursts, j) <= g < Owed(bursts, t)
    ensures exists s: nat :: j <= s < t && InBurst(bursts, g, s)
    decreases t
  {
    if j < t {
      if g >= Owed(bursts, t - 1) {
        assert InBurst(bursts, g, t - 1);
      } else {
        OwnerBetween(bursts, g, j, t - 1);
      }
    }
  }

  lemma TargetOfOwner(bursts: seq<Burst>, g: nat, s: nat, stride: int)
    requires InBurst(bursts, g, s)
    ensures Target(bursts, |bursts|, g, stride) == bursts[s].addr + stride * (g - Owed(bursts, s))
  {
    TargetInBurst(bursts, |bursts|, s, g - Owed(bursts, s), stride);
  }

  /** Among the beats sent after burst j's, the place of beat i of a later burst t. */
  function Meant(bursts: seq<Burst>, j: nat, t: nat, i: nat): nat
    requires j < t < |bursts|
  {
    Owed(bursts[j + 1..], t - j - 1) + i
  }

  /** A burst cut after k beats and left so: every beat of every later burst comes d, the
      number of missing beats, too early.  From beat d on it goes to its own burst's address
      of d beats before, never its own; the first d go to earlier bursts. */
  lemma CutShifts(bursts: seq<Burst>, j: nat, k: nat, t: nat, i: nat, stride: int)
    requires j < t < |bursts| && k <= bursts[j].len && i <= bursts[t].len
    ensures var d := bursts[j].len + 1 - k;
            var g := Owed(bursts, j) + k + Meant(bursts, j, t, i);
            g == Owed(bursts, t) + i - d
            && (i >= d ==>
                  Target(bursts, |bursts|, g, stride) == bursts[t].addr + stride * (i - d)
                  && (stride != 0 ==> Target(bursts, |bursts|, g, stride) != bursts[t].addr + stride * i))
            && (i < d ==>
                  exists s: nat :: j <= s < t && InBurst(bursts, g, s)
                    && Target(bursts, |bursts|, g, stride) == bursts[s].addr + stride * (g - Owed(bursts, s)))
  {
    var d := bursts[j].len + 1 - k;
    var g := Owed(bursts, j) + k + Meant(bursts, j, t, i);
    OwedOfSuffix(bursts, j + 1, t - j - 1);
    if i >= d {
      TargetInBurst(bursts, |bursts|, t, i - d, stride);
      ShiftMoves(stride, i, d);
    } else {
      OwnedBetween(bursts, g, j, t, stride);
    }
  }

  lemma {:induction false} OwnedBetween(bursts: seq<Burst>, g: nat, j: nat, t: nat, stride: int)
    requires j <= t <= |bursts| && Owed(bursts, j) <= g < Owed(bursts, t)
    ensures exists s: nat :: j <= s < t && InBurst(bursts, g, s)
              && Target(bursts, |bursts|, g, stride) == bursts[s].addr + stride * (g - Owed(bursts, s))
  {
    OwnerBetween(bursts, g, j, t);
    var s: nat :| j <= s < t && InBurst(bursts, g, s);
    TargetOfOwner(bursts, g, s, stride);
  }

  lemma ShiftMoves(stride: int, i: int, d: int)
    requires d != 0
    ensures stride != 0 ==> stride * (i - d) != stride * i
  {
    assert stride * (i - d) == stride * i - stride * d;
  }

  /** The same burst topped up with filler: every filler beat stays inside it and every beat
      of every later burst goes to its own address. */
  lemma FillersRealign(bursts: seq<Burst>, j: nat, filler: nat, t: nat, i: nat, stride: int)
    requires j < t < |bursts| && filler <= bursts[j].len && i <= bursts[t].len
    ensures Target(bursts, |bursts|, Owed(bursts, j) + filler, stride) == bursts[j].addr + stride * filler
    ensures Owed(bursts, j + 1) + Meant(bursts, j, t, i) == Owed(bursts, t) + i
    ensures Target(bursts, |bursts|, Owed(bursts, j + 1) + Meant(bursts, j, t, i), stride)
         == bursts[t].addr + stride * i
  {
    OwedOfSuffix(bursts, j + 1, t - j - 1);
    TargetInBurst(bursts, |bursts|, j, filler, stride);
    TargetInBurst(bursts, |bursts|, t, i, stride);
  }

  function Place(b: Burst, i: int, stride: int): int {
    b.addr + stride * i
  }

  /** No address belongs to two beats. */
  predicate Apart(bursts: seq<Burst>, stride: int) {
    forall s, t, a, b ::
      0 <= s < |bursts| && 0 <= t < |bursts| && 0 <= a <= bursts[s].len && 0 <= b <= bursts[t].len && (s != t || a != b)
      ==> Place(bursts[s], a, stride) != Place(bursts[t], b, stride)
  }

  lemma TargetsApart(bursts: seq<Burst>, g: nat, h: nat, stride: int)
    requires Apart(bursts, stride) && g < h < Owed(bursts, |bursts|)
    ensures Target(bursts, |bursts|, g, stride) != Target(bursts, |bursts|, h, stride)
  {
    OwnerBetween(bursts, g, 0, |bursts|);
    OwnerBetween(bursts, h, 0, |bursts|);
    var s: nat :| s < |bursts| && InBurst(bursts, g, s);
    var t: nat :| t < |bursts| && InBurst(bursts, h, t);
    TargetOfOwner(bursts, g, s, stride);
    TargetOfOwner(bursts, h, t, stride);
    var a, b := g - Owed(bursts, s), h - Owed(bursts, t);
    assert s != t || a != b;
    assert Place(bursts[s], a, stride) != Place(bursts[t], b, stride);
  }
}
