/**
 * `RefreshRunes` (spell_dk.cpp): finish the cooldown of up to `amount` runes,
 * choosing the runes with the largest remaining cooldown. The runes are
 * listed as (cooldown, index) pairs, sorted ascending by `std::sort`
 * (lexicographic pair order), and the pairs in the top `amount` positions have
 * their rune's cooldown set to 1.
 */
module DkRunes {
  import opened Bytes

  /** `std::pair<uint32, uint8>(cooldown, index)`. */
  datatype RuneKey = RuneKey(cooldown: uint32, index: nat)

  /** The `operator<` of `std::pair`: by cooldown, then by index. */
  predicate KeyLess(a: RuneKey, b: RuneKey)
  {
    a.cooldown < b.cooldown || (a.cooldown == b.cooldown && a.index < b.index)
  }

  predicate StrictlySorted(t: seq<RuneKey>)
  {
    forall i, j :: 0 <= i < j < |t| ==> KeyLess(t[i], t[j])
  }

  predicate Distinct(s: seq<RuneKey>)
  {
    forall i, j :: 0 <= i < j < |s| ==> s[i] != s[j]
  }

  /** The vector the first loop fills: pair i is (cooldown of rune i, i). */
  function Keys(cds: seq<uint32>): (ks: seq<RuneKey>)
    ensures |ks| == |cds|
    ensures forall i :: 0 <= i < |cds| ==> ks[i] == RuneKey(cds[i], i)
  {
    seq(|cds|, i requires 0 <= i < |cds| => RuneKey(cds[i], i))
  }

  /** Insertion of one pair into an ascending sequence. */
  function Insert(x: RuneKey, t: seq<RuneKey>): (r: seq<RuneKey>)
    ensures |r| == |t| + 1
    ensures multiset(r) == multiset(t) + multiset{x}
  {
    if t == [] then [x]
    else if KeyLess(x, t[0]) then [x] + t
    else
      assert t == [t[0]] + t[1..];
      [t[0]] + Insert(x, t[1..])
  }

  /** `std::sort` on the pairs, as an insertion sort. */
  function SortKeys(s: seq<RuneKey>): (t: seq<RuneKey>)
    ensures |t| == |s|
    ensures multiset(t) == multiset(s)
  {
    if s == [] then []
    else
      assert s == [s[0]] + s[1..];
      Insert(s[0], SortKeys(s[1..]))
  }

  lemma {:induction false} InsertSorted(x: RuneKey, t: seq<RuneKey>)
    requires StrictlySorted(t) && x !in t
    ensures StrictlySorted(Insert(x, t))
    decreases |t|
  {
    if t != [] && !KeyLess(x, t[0]) {
      var rest := Insert(x, t[1..]);
      assert x !in t[1..];
      InsertSorted(x, t[1..]);
      assert x != t[0];
      InsertAbove(x, t[1..], t[0]);
      var r := [t[0]] + rest;
      forall i, j | 0 <= i < j < |r| ensures KeyLess(r[i], r[j]) {
        assert r[j] == rest[j - 1];
        if i > 0 {
          assert r[i] == rest[i - 1];
        }
      }
    }
  }

  /** Inserting a pair above `b` into pairs above `b` keeps every pair above `b`. */
  lemma InsertAbove(x: RuneKey, t: seq<RuneKey>, b: RuneKey)
    requires KeyLess(b, x) && forall i :: 0 <= i < |t| ==> KeyLess(b, t[i])
    ensures forall i :: 0 <= i < |Insert(x, t)| ==> KeyLess(b, Insert(x, t)[i])
  {
    var r := Insert(x, t);
    forall i | 0 <= i < |r| ensures KeyLess(b, r[i]) {
      assert r[i] in multiset(r);
      if r[i] != x {
        assert r[i] in multiset(t);
        var k :| 0 <= k < |t| && t[k] == r[i];
      }
    }
  }

  /** Sorting pairwise different pairs gives a strictly ascending sequence. */
  lemma {:induction false} SortKeysSorted(s: seq<RuneKey>)
    requires Distinct(s)
    ensures StrictlySorted(SortKeys(s))
    decreases |s|
  {
    if s != [] {
      var tail := SortKeys(s[1..]);
      assert Distinct(s[1..]) by {
        forall i, j | 0 <= i < j < |s[1..]| ensures s[1..][i] != s[1..][j] {
          assert s[1..][i] == s[i + 1] && s[1..][j] == s[j + 1];
        }
      }
      SortKeysSorted(s[1..]);
      forall k | 0 <= k < |s[1..]| ensures s[1..][k] != s[0] {
        assert s[1..][k] == s[k + 1];
      }
      assert s[0] !in multiset(s[1..]);
      assert s[0] !in multiset(tail);
      InsertSorted(s[0], tail);
    }
  }

  /**
   * `t` is the sorted vector for the cooldowns `cds`: ascending, every pair
   * names an existing rune with its own cooldown, and every rune is listed.
   */
  ghost predicate IsRuneOrder(cds: seq<uint32>, t: seq<RuneKey>)
  {
    && |t| == |cds|
    && StrictlySorted(t)
    && (forall p :: 0 <= p < |t| ==> t[p].index < |cds| && t[p].cooldown == cds[t[p].index])
    && (forall j :: 0 <= j < |cds| ==> exists p :: 0 <= p < |t| && t[p] == RuneKey(cds[j], j))
  }

  lemma SortedIsRuneOrder(cds: seq<uint32>)
    ensures IsRuneOrder(cds, SortKeys(Keys(cds)))
  {
    var ks := Keys(cds);
    var t := SortKeys(ks);
    SortKeysSorted(ks);
    forall p | 0 <= p < |t| ensures t[p].index < |cds| && t[p].cooldown == cds[t[p].index] {
      assert t[p] in multiset(ks);
      var i :| 0 <= i < |ks| && ks[i] == t[p];
    }
    forall j | 0 <= j < |cds| ensures exists p :: 0 <= p < |t| && t[p] == RuneKey(cds[j], j) {
      assert ks[j] in multiset(t);
      var p :| 0 <= p < |t| && t[p] == ks[j];
    }
  }

  /** Rune indices listed at positions lo .. hi - 1 of `t`. */
  function Listed(t: seq<RuneKey>, lo: int, hi: int): set<nat>
    requires 0 <= lo && hi <= |t|
  {
    set p | lo <= p < hi :: t[p].index
  }

  lemma ListedGrow(t: seq<RuneKey>, lo: int, hi: int)
    requires 0 <= lo <= hi && hi < |t|
    ensures Listed(t, lo, hi + 1) == Listed(t, lo, hi) + {t[hi].index}
  {
  }

  lemma ListedShrink(t: seq<RuneKey>, lo: int, hi: int)
    requires 0 < lo <= hi <= |t|
    ensures Listed(t, lo - 1, hi) == Listed(t, lo, hi) + {t[lo - 1].index}
  {
  }

  /** In a rune order, different positions list different runes. */
  lemma PositionOfRune(cds: seq<uint32>, t: seq<RuneKey>, p: int, q: int)
    requires IsRuneOrder(cds, t)
    requires 0 <= p < |t| && 0 <= q < |t| && p != q
    ensures t[p].index != t[q].index
  {
    assert KeyLess(t[p], t[q]) || KeyLess(t[q], t[p]);
  }

  /** Different positions name different runes. */
  predicate DistinctIndices(t: seq<RuneKey>)
  {
    forall p, q :: 0 <= p < q < |t| ==> t[p].index != t[q].index
  }

  lemma RuneOrderDistinct(cds: seq<uint32>, t: seq<RuneKey>)
    requires IsRuneOrder(cds, t)
    ensures DistinctIndices(t)
  {
    forall p, q | 0 <= p < q < |t| ensures t[p].index != t[q].index {
      PositionOfRune(cds, t, p, q);
    }
  }

  lemma {:induction false} ListedCount(t: seq<RuneKey>, lo: int, hi: int)
    requires DistinctIndices(t)
    requires 0 <= lo <= hi <= |t|
    ensures |Listed(t, lo, hi)| == hi - lo
    decreases hi - lo
  {
    if lo < hi {
      ListedCount(t, lo, hi - 1);
      assert t[hi - 1].index !in Listed(t, lo, hi - 1);
      ListedGrow(t, lo, hi - 1);
      AddFresh(Listed(t, lo, hi - 1), t[hi - 1].index);
    }
  }

  lemma AddFresh(a: set<nat>, x: nat)
    requires x !in a
    ensures |a + {x}| == |a| + 1
  {
  }

  /** The clamp of `amount` to the number of runes. */
  function Clamp(amount: uint8, runes: nat): (amt: nat)
    ensures amt <= runes && amt <= amount
    ensures amt == amount || amt == runes
  {
    if amount > runes then runes else amount
  }

  /**
   * The runes `RefreshRunes` resets: those in the top `amount` positions of
   * the sorted vector. Exactly min(amount, rune count) runes are reset, and
   * each is an existing rune.
   */
  ghost function Refreshed(cds: seq<uint32>, amount: uint8): (r: set<nat>)
    ensures |r| == Clamp(amount, |cds|)
    ensures forall j :: j in r ==> j < |cds|
  {
    var t := SortKeys(Keys(cds));
    SortedIsRuneOrder(cds);
    RuneOrderDistinct(cds, t);
    ListedCount(t, |cds| - Clamp(amount, |cds|), |cds|);
    Listed(t, |cds| - Clamp(amount, |cds|), |cds|)
  }

  /**
   * The reset runes are the ones with the largest cooldowns: every reset rune
   * is after every other rune in (cooldown, index) order.
   */
  lemma RefreshedAreTop(cds: seq<uint32>, amount: uint8, j: nat, other: nat)
    requires j in Refreshed(cds, amount)
    requires other < |cds| && other !in Refreshed(cds, amount)
    ensures j < |cds|
    ensures KeyLess(RuneKey(cds[other], other), RuneKey(cds[j], j))
  {
    var t := SortKeys(Keys(cds));
    var cut := |cds| - Clamp(amount, |cds|);
    SortedIsRuneOrder(cds);
    var p :| cut <= p < |cds| && t[p].index == j;
    var q :| 0 <= q < |t| && t[q] == RuneKey(cds[other], other);
    forall r | cut <= r < |cds| ensures t[r].index in Listed(t, cut, |cds|) {
    }
    assert q < cut;
  }

  /**
   * `RefreshRunes` on the player's rune cooldowns (the vector index is a
   * `uint8`). Corrected: its final loop counts down with an `int`, so it ends
   * for every amount; the reset runes get cooldown 1, all others keep theirs.
   */
  method RefreshRunes(cooldowns: array<uint32>, amount: uint8)
    requires cooldowns.Length < 0x100
    modifies cooldowns
    ensures forall j :: 0 <= j < cooldowns.Length ==>
      cooldowns[j] == if j in Refreshed(old(cooldowns[..]), amount) then 1 else old(cooldowns[j])
  {
    ghost var cds := cooldowns[..];
    var runes := cooldowns.Length;
    var amt: nat := amount;
    if amt > runes {
      amt := runes;
    }
    var runeCD := CollectKeys(cooldowns);
    var sorted := SortKeys(runeCD);
    SortedIsRuneOrder(cds);
    ResetFrom(cooldowns, sorted, runes - amt, cds);
  }

  /** The first loop of `RefreshRunes`: each rune's (cooldown, index) pair. */
  method CollectKeys(cooldowns: array<uint32>) returns (runeCD: seq<RuneKey>)
    ensures runeCD == Keys(cooldowns[..])
  {
    runeCD := [];
    var i := 0;
    while i < cooldowns.Length
      invariant 0 <= i <= cooldowns.Length
      invariant runeCD == Keys(cooldowns[..])[..i]
    {
      runeCD := runeCD + [RuneKey(cooldowns[i], i)];
      i := i + 1;
    }
  }

  /** The last loop of `RefreshRunes`: cooldown 1 for the runes at sorted positions cut and above. */
  method ResetFrom(cooldowns: array<uint32>, sorted: seq<RuneKey>, cut: nat, ghost cds: seq<uint32>)
    requires cds == cooldowns[..] && IsRuneOrder(cds, sorted) && cut <= cooldowns.Length
    modifies cooldowns
    ensures forall j :: 0 <= j < cooldowns.Length ==>
      cooldowns[j] == if j in Listed(sorted, cut, cooldowns.Length) then 1 else cds[j]
  {
    var runes := cooldowns.Length;
    var k: int := runes - 1;
    while k >= cut
      invariant cut - 1 <= k <= runes - 1
      invariant forall j :: 0 <= j < runes ==>
        cooldowns[j] == if j in Listed(sorted, k + 1, runes) then 1 else cds[j]
      decreases k
    {
      ListedShrink(sorted, k + 1, runes);
      cooldowns[sorted[k].index] := 1;
      k := k - 1;
    }
  }

  /*
   * The loop as written: `for (uint8 i = runes - 1; i >= (runes - amount); i--)`.
   * The counter is a `uint8` that wraps from 0 to 255, and the bound is an
   * `int`. Each step returns the positions it reads, within `fuel` steps.
   */

  function Dec8(i: uint8): uint8
  {
    if i == 0 then 0xFF else i - 1
  }

  datatype LoopRun = LoopRun(visited: seq<int>, exited: bool)

  function AsWrittenLoop(i: uint8, bound: int, fuel: nat): (r: LoopRun)
    decreases fuel
  {
    if fuel == 0 then LoopRun([], false)
    else if !(i >= bound) then LoopRun([], true)
    else
      var rest := AsWrittenLoop(Dec8(i), bound, fuel - 1);
      LoopRun([i] + rest.visited, rest.exited)
  }

  /** i, i - 1, ..., i - n + 1. */
  function Countdown(i: int, n: nat): (s: seq<int>)
    ensures |s| == n && forall k :: 0 <= k < n ==> s[k] == i - k
  {
    seq(n, k requires 0 <= k < n => i - k)
  }

  /**
   * When the clamped amount equals the rune count the bound is 0, which a
   * `uint8` always reaches: the loop never exits, however many steps it takes.
   */
  lemma {:induction false} AsWrittenNeverExits(i: uint8, fuel: nat)
    ensures !AsWrittenLoop(i, 0, fuel).exited
    decreases fuel
  {
    if fuel > 0 {
      AsWrittenNeverExits(Dec8(i), fuel - 1);
    }
  }

  /**
   * With the bound 0, a loop started at i reads i down to 0 and then wraps:
   * its next read is position 255.
   */
  lemma {:induction false} AsWrittenWraps(i: uint8)
    ensures AsWrittenLoop(i, 0, i + 2) == LoopRun(Countdown(i, i + 1) + [255], false)
    decreases i
  {
    if i == 0 {
      assert AsWrittenLoop(255, 0, 1) == LoopRun([255], false);
    } else {
      AsWrittenWraps(i - 1);
      assert [i as int] + (Countdown(i - 1, i) + [255]) == Countdown(i, i + 1) + [255];
    }
  }

  /**
   * An amount of at least the rune count: after reading the positions
   * runes - 1 down to 0, the counter wraps and the next step reads position
   * 255, which is not a position of the cooldown vector, and the loop has not
   * exited. With six runes and an amount of six the reads are 5, 4, 3, 2, 1,
   * 0, 255.
   */
  lemma AsWrittenReadsOutOfRange(runes: nat, amount: uint8)
    requires 0 < runes < 0x100 && amount >= runes
    ensures var r := AsWrittenLoop(runes - 1, runes - Clamp(amount, runes), runes + 1);
      && r.visited == Countdown(runes - 1, runes) + [255]
      && !r.exited
      && !(r.visited[runes] < runes)
  {
    AsWrittenWraps(runes - 1);
  }

  /**
   * With a bound of at least 1 the as-written loop exits and reads exactly
   * the positions i down to the bound: for an amount below the rune count it
   * agrees with the corrected loop.
   */
  lemma {:induction false} AsWrittenCountdown(i: uint8, bound: int, n: nat)
    requires bound >= 1 && n == i + 1 - bound
    ensures AsWrittenLoop(i, bound, n + 1) == LoopRun(Countdown(i, n), true)
    decreases n
  {
    if n > 0 {
      AsWrittenCountdown(i - 1, bound, n - 1);
      assert [i as int] + Countdown(i - 1, n - 1) == Countdown(i, n);
    }
  }

  /** Below the rune count, the as-written loop reads the top `amount` positions and stops. */
  lemma AsWrittenAgreesBelowCount(runes: nat, amount: uint8)
    requires amount < runes < 0x100
    ensures AsWrittenLoop(runes - 1, runes - amount, amount + 1) == LoopRun(Countdown(runes - 1, amount), true)
  {
    AsWrittenCountdown(runes - 1, runes - amount, amount);
  }
}
