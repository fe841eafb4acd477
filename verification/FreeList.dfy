/**
 * Free-memory statistics (kernel/kdb/generic/kmemory.cc, cmd_kmem_stats): how many aligned runs of 2^k chunks the
 * free list holds. The list is the sequence of its chunks' addresses; null is address 0.
 */
module FreeList {
  import opened Arithmetic

  const CAP := 10

  function Pow2(k: nat): nat { if k == 0 then 1 else 2 * Pow2(k - 1) }

  lemma {:induction false} Pow2Grows(j: nat, k: nat)
    requires j < k
    ensures 0 < Pow2(j) < Pow2(k)
  {
    Pow2Positive(j);
    if j + 1 >= k {
    } else {
      Pow2Grows(j, k - 1);
    }
  }

  lemma {:induction false} Pow2Positive(k: nat)
    ensures Pow2(k) > k
  {
    if k == 0 {
    } else {
      Pow2Positive(k - 1);
    }
  }

  /** The n chunks up to position p lie one after the other in memory. */
  ghost predicate Adjacent(list: seq<nat>, chunk: nat, p: nat, n: nat) {
    p < |list| && 0 < n <= p + 1 && forall i | p - n + 1 < i <= p :: list[i] == list[i - 1] + chunk
  }

  /** A run of 2^k adjacent chunks ends at p, and its start is aligned to the run's size. */
  ghost predicate Window(list: seq<nat>, chunk: nat, p: nat, k: nat)
    requires chunk > 0
  {
    && Adjacent(list, chunk, p, Pow2(k))
    && Aligned(list[p - Pow2(k) + 1], Pow2(k) * chunk)
  }

  /** For a power of two this is what masking the low bits tests. */
  ghost predicate Aligned(address: nat, size: nat) { exists q: nat :: address == q * size }

  ghost function Windows(list: seq<nat>, chunk: nat, n: nat, k: nat): set<nat>
    requires chunk > 0 && n <= |list|
  {
    set p: nat | p < n && Window(list, chunk, p, k)
  }

  // ----- halves of windows

  lemma Halves(s: nat, half: nat)
    requires half > 0 && Aligned(s, 2 * half)
    ensures Aligned(s, half) && Aligned(s + half, half) && !(s >= half && Aligned(s - half, 2 * half))
  {
    var q: nat :| s == q * (2 * half);
    assert s == (2 * q) * half;
    assert s + half == (2 * q + 1) * half;
    if s >= half && Aligned(s - half, 2 * half) {
      var t: nat :| s - half == t * (2 * half);
      Odd(q - t, half);
    }
  }

  lemma Odd(d: int, half: nat)
    requires half > 0
    ensures half != d * (2 * half)
  {
    if d >= 1 { assert d * (2 * half) == 2 * half + (d - 1) * (2 * half) >= 2 * half; }
    if d <= 0 { assert d * (2 * half) <= 0; }
  }

  lemma {:induction false} AdjacentDistance(list: seq<nat>, chunk: nat, p: nat, n: nat, d: nat)
    requires Adjacent(list, chunk, p, n) && d < n
    ensures list[p] == list[p - d] + d * chunk
  {
    if d == 0 {
    } else {
      AdjacentDistance(list, chunk, p, n, d - 1);
      assert list[p - d + 1] == list[p - d] + chunk;
      assert d * chunk == (d - 1) * chunk + chunk;
    }
  }

  /** Where the two halves of a window start. */
  lemma WindowStarts(list: seq<nat>, chunk: nat, p: nat, k: nat)
    requires chunk > 0 && Window(list, chunk, p, k + 1)
    ensures var d := Pow2(k);
            && 0 < d && 2 * d <= p + 1 && Adjacent(list, chunk, p, 2 * d)
            && list[p - d + 1] == list[p - 2 * d + 1] + d * chunk
            && Aligned(list[p - 2 * d + 1], 2 * (d * chunk))
  {
    hide Pow2, Aligned, Adjacent;
    var d := Pow2(k);
    Pow2Positive(k);
    Pow2Step(k);
    Doubled(d, chunk);
    AdjacentPart(list, chunk, p, d);
    AdjacentDistance(list, chunk, p - d + 1, d + 1, d);
  }

  lemma Pow2Step(k: nat)
    ensures Pow2(k + 1) == 2 * Pow2(k)
  {
  }

  lemma Doubled(d: nat, chunk: nat)
    ensures 2 * (d * chunk) == (2 * d) * chunk
  {
  }

  lemma AdjacentPart(list: seq<nat>, chunk: nat, p: nat, d: nat)
    requires 0 < d && Adjacent(list, chunk, p, 2 * d)
    ensures 2 * d <= p + 1 && p < |list| && Adjacent(list, chunk, p - d + 1, d + 1)
  {
  }

  /** A window is two windows of half its size, and no window of its size ends where its first half ends. */
  lemma WindowHalves(list: seq<nat>, chunk: nat, p: nat, k: nat)
    requires chunk > 0 && Window(list, chunk, p, k + 1)
    ensures var d := Pow2(k);
            && 0 < d <= p && Window(list, chunk, p, k)
            && Window(list, chunk, p - d, k) && !Window(list, chunk, p - d, k + 1)
  {
    var d := Pow2(k);
    WindowStarts(list, chunk, p, k);
    Halves(list[p - 2 * d + 1], d * chunk);
    if Window(list, chunk, p - d, k + 1) {
      WindowStarts(list, chunk, p - d, k);
    }
  }

  ghost function Shifted(s: set<nat>, d: int): set<int> { set p | p in s :: p - d }

  lemma {:induction false} ShiftedSize(s: set<nat>, d: int)
    ensures |Shifted(s, d)| == |s|
  {
    if s == {} {
    } else {
      var x :| x in s;
      ShiftedSize(s - {x}, d);
      forall y | y in Shifted(s, d) ensures y in Shifted(s - {x}, d) + {x - d} {
        var p :| p in s && y == p - d;
        assert p != x ==> p in s - {x};
      }
      assert Shifted(s, d) == Shifted(s - {x}, d) + {x - d};
    }
  }

  /** A set that holds another one and, apart from it, a shifted copy of it. */
  lemma TwoCopies(big: set<nat>, small: set<nat>, d: nat)
    requires forall p | p in big :: p >= d && p in small && p - d in small && p - d !in big
    ensures |small| >= 2 * |big|
  {
    hide Shifted;
    var shifted := Shifted(big, d);
    ShiftedSize(big, d);
    ShiftedIn(big, small, d);
    SubsetSize<int>(big + shifted, small);
    DisjointSize<int>(big, shifted);
  }

  lemma ShiftedIn(big: set<nat>, small: set<nat>, d: nat)
    requires forall p | p in big :: p >= d && p in small && p - d in small && p - d !in big
    ensures big !! Shifted(big, d) && big + Shifted(big, d) <= small
  {
  }

  lemma DisjointSize<T>(a: set<T>, b: set<T>)
    requires a !! b
    ensures |a + b| == |a| + |b|
  {
  }

  /** The buddy law: every match of a size accounts for two matches of half the size. */
  lemma BuddyLaw(list: seq<nat>, chunk: nat, n: nat, k: nat)
    requires chunk > 0 && n <= |list|
    ensures |Windows(list, chunk, n, k)| >= 2 * |Windows(list, chunk, n, k + 1)|
  {
    hide Window;
    var big, small, d := Windows(list, chunk, n, k + 1), Windows(list, chunk, n, k), Pow2(k);
    forall p | p in big ensures p >= d && p in small && p - d in small && p - d !in big {
      WindowHalves(list, chunk, p, k);
    }
    TwoCopies(big, small, d);
  }

  // ----- the scan

  /** The longest run of adjacent chunks that ends at p. */
  ghost predicate RunLength(list: seq<nat>, chunk: nat, p: nat, num: nat) {
    && Adjacent(list, chunk, p, num)
    && (num <= p ==> list[p - num + 1] != list[p - num] + chunk)
  }

  lemma RunBounds(list: seq<nat>, chunk: nat, p: nat, num: nat, n: nat)
    requires RunLength(list, chunk, p, num) && 0 < n
    ensures Adjacent(list, chunk, p, n) <==> n <= num
  {
    if num <= p { assert list[p - num + 1] != list[p - num] + chunk; }
  }

  /** The sizes from the cap on, which are counted together; `below` bounds those looked at so far. */
  ghost function Large(list: seq<nat>, chunk: nat, p: nat, below: nat): set<nat>
    requires chunk > 0
  {
    set k: nat | CAP <= k < below && Window(list, chunk, p, k)
  }

  /** The matches of all sizes from the cap on that end at positions 1 to n - 1. */
  ghost function LargeCount(list: seq<nat>, chunk: nat, n: nat): nat
    requires chunk > 0 && n <= |list|
  {
    if n <= 1 then 0 else LargeCount(list, chunk, n - 1) + |Large(list, chunk, n - 1, |list|)|
  }

  lemma AlignedMod(address: nat, size: nat)
    requires size > 0
    ensures Aligned(address, size) <==> address % size == 0
  {
    if address % size == 0 { assert address == (address / size) * size; }
    if Aligned(address, size) {
      var q: nat :| address == q * size;
      MultipleMod(q, size);
    }
  }

  lemma WindowTest(list: seq<nat>, chunk: nat, p: nat, k: nat)
    requires chunk > 0 && Adjacent(list, chunk, p, Pow2(k))
    ensures Window(list, chunk, p, k) <==> Aligned(list[p - Pow2(k) + 1], Pow2(k) * chunk)
  {
  }

  /** What the scan tests is whether a window of the size ends at p. */
  lemma TestIsWindow(list: seq<nat>, chunk: nat, p: nat, num: nat, k: nat)
    requires chunk > 0 && RunLength(list, chunk, p, num) && Pow2(k) <= num
    ensures list[p] >= (Pow2(k) - 1) * chunk && Pow2(k) * chunk > 0
    ensures Window(list, chunk, p, k) <==> (list[p] - (Pow2(k) - 1) * chunk) % (Pow2(k) * chunk) == 0
  {
    hide RunLength, Aligned, Window, Pow2, Adjacent;
    Pow2Positive(k);
    var d := Pow2(k);
    RunBounds(list, chunk, p, num, d);
    InList(list, chunk, p, d);
    WindowTest(list, chunk, p, k);
    AdjacentDistance(list, chunk, p, d, d - 1);
    assert d * chunk == (d - 1) * chunk + chunk;
    AlignedMod(list[p - d + 1], d * chunk);
  }

  lemma InList(list: seq<nat>, chunk: nat, p: nat, n: nat)
    requires Adjacent(list, chunk, p, n)
    ensures p < |list| && 0 < n <= p + 1
  {
  }

  lemma NoLargerWindow(list: seq<nat>, chunk: nat, p: nat, num: nat, idx: nat)
    requires chunk > 0 && RunLength(list, chunk, p, num) && Pow2(idx) > num
    ensures forall k: nat | k >= idx :: !Window(list, chunk, p, k)
    ensures Large(list, chunk, p, idx) == Large(list, chunk, p, |list|)
  {
    forall k: nat | k >= idx ensures !Window(list, chunk, p, k) {
      if k > idx { Pow2Grows(idx, k); }
      Pow2Positive(k);
      RunBounds(list, chunk, p, num, Pow2(k));
    }
    forall k: nat | Window(list, chunk, p, k) ensures k < |list| { Pow2Positive(k); }
  }

  function Bit(b: bool): nat { if b then 1 else 0 }

  /** Counts the aligned runs that end at p. */
  method CountRuns(numChunks: array<nat>, ghost list: seq<nat>, chunk: nat, ghost p: nat, cur: nat, num: nat, max: nat)
    returns (newMax: nat)
    requires numChunks.Length == CAP + 1 && chunk > 0 && RunLength(list, chunk, p, num) && cur == list[p]
    modifies numChunks
    ensures forall k: nat | k < CAP :: numChunks[k] == old(numChunks[k]) + Bit(Window(list, chunk, p, k))
    ensures numChunks[CAP] == old(numChunks[CAP]) + |Large(list, chunk, p, |list|)|
    ensures max <= newMax && (forall k: nat | Window(list, chunk, p, k) :: k <= newMax)
    ensures newMax == max || Window(list, chunk, p, newMax)
  {
    hide Window, RunLength;
    var i, j, idx: nat := 1, 1, 0;
    newMax := max;
    while i <= num
      invariant j == Pow2(idx) && 1 <= i <= num + 1 && i <= j
      invariant forall k: nat | k < CAP :: numChunks[k] == old(numChunks[k]) + Bit(k < idx && Window(list, chunk, p, k))
      invariant numChunks[CAP] == old(numChunks[CAP]) + |Large(list, chunk, p, idx)|
      invariant max <= newMax && (forall k: nat | k < idx && Window(list, chunk, p, k) :: k <= newMax)
      invariant newMax == max || Window(list, chunk, p, newMax)
    {
      if i == j {
        TestIsWindow(list, chunk, p, num, idx);
        Pow2Positive(idx);
        LargeStep(list, chunk, p, idx);
        var tmp := cur - (j - 1) * chunk;
        if tmp % (j * chunk) == 0 {
          if idx < CAP {
            numChunks[idx] := numChunks[idx] + 1;
          } else {
            numChunks[CAP] := numChunks[CAP] + 1;
          }
          if idx > newMax {
            newMax := idx;
          }
        }
        j := 2 * j;
        idx := idx + 1;
      }
      i := i + 1;
    }
    NoLargerWindow(list, chunk, p, num, idx);
  }

  lemma LargeStep(list: seq<nat>, chunk: nat, p: nat, idx: nat)
    requires chunk > 0
    ensures |Large(list, chunk, p, idx + 1)| ==
            |Large(list, chunk, p, idx)| + Bit(idx >= CAP && Window(list, chunk, p, idx))
  {
    hide Window;
    var large := Large(list, chunk, p, idx);
    assert Large(list, chunk, p, idx + 1) ==
           if idx >= CAP && Window(list, chunk, p, idx) then large + {idx} else large;
    assert idx !in large;
  }

  /** The matches of a size that end at a chunk of the list; position 0 is the null before it. */
  ghost function Matches(list: seq<nat>, chunk: nat, n: nat, k: nat): set<nat>
    requires chunk > 0 && n <= |list| + 1
  {
    Windows([0] + list, chunk, n, k) - {0}
  }

  ghost predicate Matched(list: seq<nat>, chunk: nat, n: nat, k: nat)
    requires chunk > 0 && n <= |list| + 1
  {
    Matches(list, chunk, n, k) != {}
  }

  /** m is the largest size with a match, or 0. */
  ghost predicate IsLargest(list: seq<nat>, chunk: nat, n: nat, m: nat)
    requires chunk > 0 && n <= |list| + 1
  {
    (forall k: nat | Matched(list, chunk, n, k) :: k <= m) && (m == 0 || Matched(list, chunk, n, m))
  }

  lemma LargestStep(list: seq<nat>, chunk: nat, n: nat, m: nat, m': nat)
    requires chunk > 0 && 1 <= n <= |list| && IsLargest(list, chunk, n, m)
    requires m <= m' && (forall k: nat | Window([0] + list, chunk, n, k) :: k <= m')
    requires m' == m || Window([0] + list, chunk, n, m')
    ensures IsLargest(list, chunk, n + 1, m')
  {
    hide Matched, Window;
    var next := n + 1;
    forall k: nat | Matched(list, chunk, next, k) ensures k <= m' { MatchesStep(list, chunk, n, k); }
    MatchesStep(list, chunk, n, m');
  }

  lemma MatchesStep(list: seq<nat>, chunk: nat, n: nat, k: nat)
    requires chunk > 0 && 1 <= n <= |list|
    ensures |Matches(list, chunk, n + 1, k)| == |Matches(list, chunk, n, k)| + Bit(Window([0] + list, chunk, n, k))
    ensures Matched(list, chunk, n + 1, k) <==> Matched(list, chunk, n, k) || Window([0] + list, chunk, n, k)
  {
    hide Window;
    var before := Matches(list, chunk, n, k);
    assert Matches(list, chunk, n + 1, k) == if Window([0] + list, chunk, n, k) then before + {n} else before;
    assert n !in before;
  }

  /**
   * The statistics of a free list. The scan starts from a null predecessor, so that its counts are about the list
   * with the null address in front.
   */
  method KmemStats(list: seq<nat>, chunk: nat, numChunks: array<nat>) returns (maxChunks: nat)
    requires chunk > 0 && numChunks.Length == CAP + 1
    modifies numChunks
    ensures forall k: nat | k < CAP :: numChunks[k] == |Matches(list, chunk, |list| + 1, k)|
    ensures numChunks[CAP] == LargeCount([0] + list, chunk, |list| + 1)
    ensures IsLargest(list, chunk, |list| + 1, maxChunks)
  {
    hide Window, RunLength, Matches, IsLargest, Large;
    ghost var all := [0] + list;
    for idx := 0 to CAP + 1
      invariant forall k | 0 <= k < idx :: numChunks[k] == 0
    {
      numChunks[idx] := 0;
    }
    NoMatches(list, chunk);
    maxChunks := 0;
    var num, prev := 1, 0;
    for n := 0 to |list|
      invariant forall k: nat | k < CAP :: numChunks[k] == |Matches(list, chunk, n + 1, k)|
      invariant numChunks[CAP] == LargeCount(all, chunk, n + 1)
      invariant IsLargest(list, chunk, n + 1, maxChunks)
      invariant prev == all[n] && (n > 0 ==> RunLength(all, chunk, n, num)) && (n == 0 ==> num == 1)
    {
      var cur := list[n];
      RunStep(all, chunk, n, num);
      num := if prev + chunk == cur then num + 1 else 1;
      AllMatchesStep(list, chunk, n + 1);
      var larger := CountRuns(numChunks, all, chunk, n + 1, cur, num, maxChunks);
      LargestStep(list, chunk, n + 1, maxChunks, larger);
      maxChunks := larger;
      prev := cur;
    }
  }

  lemma NoMatches(list: seq<nat>, chunk: nat)
    requires chunk > 0
    ensures forall k: nat :: |Matches(list, chunk, 1, k)| == 0
    ensures IsLargest(list, chunk, 1, 0)
  {
    forall k: nat ensures Matches(list, chunk, 1, k) == {} { assert Windows([0] + list, chunk, 1, k) <= {0}; }
  }

  lemma AllMatchesStep(list: seq<nat>, chunk: nat, n: nat)
    requires chunk > 0 && 1 <= n <= |list|
    ensures forall k: nat :: |Matches(list, chunk, n + 1, k)| ==
                             |Matches(list, chunk, n, k)| + Bit(Window([0] + list, chunk, n, k))
    ensures forall k: nat :: Matched(list, chunk, n + 1, k) <==>
                             Matched(list, chunk, n, k) || Window([0] + list, chunk, n, k)
  {
    hide Window, Matches, Matched;
    forall k: nat
      ensures |Matches(list, chunk, n + 1, k)| == |Matches(list, chunk, n, k)| + Bit(Window([0] + list, chunk, n, k))
      ensures Matched(list, chunk, n + 1, k) <==> Matched(list, chunk, n, k) || Window([0] + list, chunk, n, k)
    {
      MatchesStep(list, chunk, n, k);
    }
  }

  lemma RunStep(list: seq<nat>, chunk: nat, n: nat, num: nat)
    requires n + 1 < |list| && if n == 0 then num == 1 else RunLength(list, chunk, n, num)
    ensures RunLength(list, chunk, n + 1, if list[n] + chunk == list[n + 1] then num + 1 else 1)
  {
  }

  // ----- the null predecessor

  /** Matches of the list itself. */
  ghost function Own(list: seq<nat>, chunk: nat, k: nat): set<nat>
    requires chunk > 0
  {
    Windows(list, chunk, |list|, k)
  }

  lemma ShiftedWindow(list: seq<nat>, chunk: nat, p: nat, k: nat)
    requires chunk > 0 && p < |list|
    ensures Window(list, chunk, p, k) ==> Window([0] + list, chunk, p + 1, k)
    ensures Window([0] + list, chunk, p + 1, k) && !Window(list, chunk, p, k) ==> list[0] == chunk
    ensures list[0] == chunk ==> Window([0] + list, chunk, 1, 1) && !Window(list, chunk, 0, 1)
  {
    var all, d := [0] + list, Pow2(k);
    Pow2Positive(k);
    assert forall i | 0 <= i < |list| :: all[i + 1] == list[i];
    if Window(list, chunk, p, k) {
      assert Adjacent(all, chunk, p + 1, d);
    }
    if Window(all, chunk, p + 1, k) && d <= p + 1 {
      forall i | p - d + 1 < i <= p ensures list[i] == list[i - 1] + chunk { assert all[i + 1] == all[i] + chunk; }
    }
    if list[0] == chunk {
      assert Pow2(1) == 2;
      assert Aligned(all[0], 2 * chunk) by { assert 0 == 0 * (2 * chunk); }
    }
  }

  lemma ShiftMatches(list: seq<nat>, chunk: nat, k: nat)
    requires chunk > 0
    ensures |Matches(list, chunk, |list| + 1, k)| >= |Own(list, chunk, k)|
    ensures list == [] || list[0] != chunk ==> |Matches(list, chunk, |list| + 1, k)| == |Own(list, chunk, k)|
    ensures list != [] && list[0] == chunk && k == 1 ==> |Matches(list, chunk, |list| + 1, k)| > |Own(list, chunk, k)|
  {
    hide Window;
    var own, all: set<int> := Own(list, chunk, k), Matches(list, chunk, |list| + 1, k);
    var shifted := Shifted(Own(list, chunk, k), -1);
    ShiftedSize(Own(list, chunk, k), -1);
    forall q | q in shifted ensures q in all { ShiftedWindow(list, chunk, q - 1, k); }
    SubsetSize(shifted, all);
    if list == [] || list[0] != chunk {
      forall q | q in all ensures q in shifted { ShiftedWindow(list, chunk, q - 1, k); assert q - 1 in own; }
      SubsetSize(all, shifted);
    } else if k == 1 {
      ShiftedWindow(list, chunk, 0, 1);
      assert 1 in all && 1 !in shifted;
      SubsetSize(shifted, all - {1});
    }
  }

  /** The counts are about the list itself exactly when its first chunk does not sit one chunk above address 0. */
  lemma CountsAreTheLists(list: seq<nat>, chunk: nat)
    requires chunk > 0
    ensures (forall k: nat :: |Matches(list, chunk, |list| + 1, k)| == |Own(list, chunk, k)|)
            <==> (list == [] || list[0] != chunk)
  {
    forall k: nat
      ensures list == [] || list[0] != chunk ==> |Matches(list, chunk, |list| + 1, k)| == |Own(list, chunk, k)|
    {
      ShiftMatches(list, chunk, k);
    }
    ShiftMatches(list, chunk, 1);
  }
}
