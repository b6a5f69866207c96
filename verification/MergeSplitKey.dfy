/** Choosing the key at which a base page splits when a mini page does not fit into it.

    The source walks the base page's records and the mini page's dirty ones in key order, twice: to add up
    their sizes and to find where half of the bytes are reached.  Sizes are whole keys, values and slots. */
module MergeSplitKey {
  import opened Bytes
  import opened TreeShape

  datatype Sized = Sized(key: Key, size: nat)

  predicate Rising(l: seq<Sized>) { forall i, j :: 0 <= i < j < |l| ==> Lt(l[i].key, l[j].key) }

  function Total(l: seq<Sized>): nat { if l == [] then 0 else Total(l[..|l| - 1]) + l[|l| - 1].size }

  /** Bytes of the records below a bound. */
  function Weight(l: seq<Sized>, hi: Bound): nat {
    if l == [] then 0 else (if Below(l[0].key, hi) then l[0].size else 0) + Weight(l[1..], hi)
  }

  /** The merged order; where both have a key, the mini page's record counts. */
  function MergedOrder(base: seq<Sized>, mini: seq<Sized>): seq<Sized> {
    if base == [] then mini
    else if mini == [] then base
    else if Lt(base[0].key, mini[0].key) then [base[0]] + MergedOrder(base[1..], mini)
    else if base[0].key == mini[0].key then [mini[0]] + MergedOrder(base[1..], mini[1..])
    else [mini[0]] + MergedOrder(base, mini[1..])
  }

  function Keys(l: seq<Sized>): set<Key> { set i | 0 <= i < |l| :: l[i].key }

  /** The base records that the mini page does not replace. */
  function Undup(base: seq<Sized>, ks: set<Key>): seq<Sized> {
    if base == [] then [] else (if base[0].key in ks then [] else [base[0]]) + Undup(base[1..], ks)
  }

  // ---- sums over the merged order ------------------------------------------------------------------

  lemma {:induction false} UndupSame(base: seq<Sized>, ks: set<Key>, ks': set<Key>)
    requires forall i :: 0 <= i < |base| ==> (base[i].key in ks <==> base[i].key in ks')
    ensures Undup(base, ks) == Undup(base, ks')
  {
    if base != [] {
      assert base[0].key in ks <==> base[0].key in ks';
      UndupSame(base[1..], ks, ks');
    }
  }

  lemma WeightCons(x: Sized, l: seq<Sized>, hi: Bound)
    ensures Weight([x] + l, hi) == (if Below(x.key, hi) then x.size else 0) + Weight(l, hi)
  {
    assert ([x] + l)[1..] == l;
  }

  lemma RisingRest(l: seq<Sized>)
    requires Rising(l) && l != []
    ensures Rising(l[1..]) && forall i :: 0 <= i < |l[1..]| ==> Lt(l[0].key, l[1..][i].key)
  {
  }

  /** Dropping the mini page's least record changes nothing for base records above it. */
  lemma UndupAbove(base: seq<Sized>, mini: seq<Sized>)
    requires mini != [] && forall i :: 0 <= i < |base| ==> Lt(mini[0].key, base[i].key)
    ensures Undup(base, Keys(mini)) == Undup(base, Keys(mini[1..]))
  {
    forall i | 0 <= i < |base| ensures base[i].key in Keys(mini) <==> base[i].key in Keys(mini[1..]) {
      LtTotal(mini[0].key, base[i].key);
      if base[i].key in Keys(mini) {
        var j :| 0 <= j < |mini| && mini[j].key == base[i].key;
        assert mini[1..][j - 1].key == base[i].key;
      }
      if base[i].key in Keys(mini[1..]) {
        var j :| 0 <= j < |mini[1..]| && mini[1..][j].key == base[i].key;
        assert mini[j + 1].key == base[i].key;
      }
    }
    UndupSame(base, Keys(mini), Keys(mini[1..]));
  }

  lemma HeadNotAmong(k: Key, mini: seq<Sized>)
    requires Rising(mini) && (mini != [] ==> Lt(k, mini[0].key))
    ensures k !in Keys(mini)
  {
    forall j | 0 <= j < |mini| ensures mini[j].key != k {
      if j > 0 { LtTransitive(k, mini[0].key, mini[j].key); }
      LtTotal(k, mini[j].key);
    }
  }

  lemma AboveAll(x: Key, l: seq<Sized>)
    requires Rising(l) && l != [] && Lt(x, l[0].key)
    ensures forall i :: 0 <= i < |l| ==> Lt(x, l[i].key)
  {
    forall i | 0 <= i < |l| ensures Lt(x, l[i].key) { if i > 0 { LtTransitive(x, l[0].key, l[i].key); } }
  }

  /** Bytes below a bound in the merged order: the mini page's, and the base page's that stay. */
  lemma {:induction false} MergeWeight(base: seq<Sized>, mini: seq<Sized>, hi: Bound)
    requires Rising(base) && Rising(mini)
    ensures Weight(MergedOrder(base, mini), hi) == Weight(Undup(base, Keys(mini)), hi) + Weight(mini, hi)
    decreases |base| + |mini|
  {
    if base == [] {
    } else if mini == [] {
      UndupNone(base);
    } else if Lt(base[0].key, mini[0].key) {
      RisingRest(base);
      MergeWeight(base[1..], mini, hi);
      HeadNotAmong(base[0].key, mini);
      WeightCons(base[0], MergedOrder(base[1..], mini), hi);
      WeightCons(base[0], Undup(base[1..], Keys(mini)), hi);
    } else if base[0].key == mini[0].key {
      RisingRest(base);
      RisingRest(mini);
      MergeWeight(base[1..], mini[1..], hi);
      UndupAbove(base[1..], mini);
      assert mini[0].key in Keys(mini);
      assert Undup(base, Keys(mini)) == [] + Undup(base[1..], Keys(mini)) == Undup(base[1..], Keys(mini));
      WeightCons(mini[0], MergedOrder(base[1..], mini[1..]), hi);
      WeightCons(mini[0], mini[1..], hi);
      assert mini == [mini[0]] + mini[1..];
    } else {
      LtTotal(base[0].key, mini[0].key);
      RisingRest(mini);
      AboveAll(mini[0].key, base);
      MergeWeight(base, mini[1..], hi);
      UndupAbove(base, mini);
      WeightCons(mini[0], MergedOrder(base, mini[1..]), hi);
      WeightCons(mini[0], mini[1..], hi);
      assert mini == [mini[0]] + mini[1..];
    }
  }

  lemma {:induction false} UndupNone(base: seq<Sized>)
    ensures Undup(base, {}) == base && Keys([]) == {}
  {
    if base != [] {
      UndupNone(base[1..]);
      assert base == [base[0]] + base[1..];
    }
  }

  /** Every merged key is above `x` when the least base and mini keys are. */
  lemma {:induction false} MergeAbove(base: seq<Sized>, mini: seq<Sized>, x: Key)
    requires forall i :: 0 <= i < |base| ==> Lt(x, base[i].key)
    requires forall i :: 0 <= i < |mini| ==> Lt(x, mini[i].key)
    ensures forall i :: 0 <= i < |MergedOrder(base, mini)| ==> Lt(x, MergedOrder(base, mini)[i].key)
    decreases |base| + |mini|
  {
    if base != [] && mini != [] {
      if Lt(base[0].key, mini[0].key) {
        MergeAbove(base[1..], mini, x);
      } else if base[0].key == mini[0].key {
        MergeAbove(base[1..], mini[1..], x);
      } else {
        MergeAbove(base, mini[1..], x);
      }
    }
  }

  lemma {:induction false} MergeRising(base: seq<Sized>, mini: seq<Sized>)
    requires Rising(base) && Rising(mini)
    ensures Rising(MergedOrder(base, mini))
    decreases |base| + |mini|
  {
    if base != [] && mini != [] {
      RisingRest(base);
      RisingRest(mini);
      if Lt(base[0].key, mini[0].key) {
        AboveAll(base[0].key, mini);
        MergeRising(base[1..], mini);
        MergeAbove(base[1..], mini, base[0].key);
      } else if base[0].key == mini[0].key {
        MergeRising(base[1..], mini[1..]);
        MergeAbove(base[1..], mini[1..], mini[0].key);
      } else {
        LtTotal(base[0].key, mini[0].key);
        AboveAll(mini[0].key, base);
        MergeRising(base, mini[1..]);
        MergeAbove(base, mini[1..], mini[0].key);
      }
    }
  }

  // ---- the first pass ------------------------------------------------------------------------------

  lemma TakeBase(base: seq<Sized>, mini: seq<Sized>, j: nat, i: nat)
    requires j < |base| && i <= |mini| && (i < |mini| ==> Lt(base[j].key, mini[i].key))
    ensures MergedOrder(base[j..], mini[i..]) == [base[j]] + MergedOrder(base[j + 1..], mini[i..])
  {
    assert base[j..][1..] == base[j + 1..] && base[j..] == [base[j]] + base[j + 1..];
    if j + 1 == |base| { assert MergedOrder(base[j + 1..], mini[i..]) == mini[i..]; }
  }

  /** The next mini record, with or without a base record of the same key. */
  lemma TakeMini(base: seq<Sized>, mini: seq<Sized>, j: nat, i: nat)
    requires j <= |base| && i < |mini| && (j < |base| ==> !Lt(base[j].key, mini[i].key))
    ensures var j' := if j < |base| && base[j].key == mini[i].key then j + 1 else j;
      MergedOrder(base[j..], mini[i..]) == [mini[i]] + MergedOrder(base[j'..], mini[i + 1..])
  {
    assert mini[i..][1..] == mini[i + 1..] && mini[i..] == [mini[i]] + mini[i + 1..];
    if j < |base| { assert base[j..][1..] == base[j + 1..]; }
  }

  lemma Regroup(m: seq<Sized>, x: Sized, r: seq<Sized>)
    ensures m + ([x] + r) == (m + [x]) + r
  {
  }

  /** The base positions below `j` whose keys the mini page has. */
  ghost predicate Replaced(base: seq<Sized>, mini: seq<Sized>, j: nat, duplicates: set<nat>) {
    forall d: nat :: d in duplicates <==> d < j && d < |base| && base[d].key in Keys(mini)
  }

  /** All mini records before `i` are below all base records from `j` on. */
  predicate Passed(base: seq<Sized>, mini: seq<Sized>, j: nat, i: nat) {
    forall a, b :: 0 <= a < i && a < |mini| && j <= b < |base| ==> Lt(mini[a].key, base[b].key)
  }

  lemma BaseIsNew(base: seq<Sized>, mini: seq<Sized>, j: nat, i: nat)
    requires Rising(mini) && Passed(base, mini, j, i) && j < |base| && i <= |mini| && (i < |mini| ==> Lt(base[j].key, mini[i].key))
    ensures base[j].key !in Keys(mini)
  {
    forall a | 0 <= a < |mini| ensures mini[a].key != base[j].key {
      LtTotal(mini[a].key, base[j].key);
      if a > i { LtTransitive(base[j].key, mini[i].key, mini[a].key); }
    }
  }

  lemma MiniPassed(base: seq<Sized>, mini: seq<Sized>, j: nat, i: nat)
    requires Rising(base) && Passed(base, mini, j, i) && j <= |base| && i < |mini| && (j < |base| ==> !Lt(base[j].key, mini[i].key))
    ensures var j' := if j < |base| && base[j].key == mini[i].key then j + 1 else j; Passed(base, mini, j', i + 1)
  {
    var j' := if j < |base| && base[j].key == mini[i].key then j + 1 else j;
    forall b | j' <= b < |base| ensures Lt(mini[i].key, base[b].key) {
      LtTotal(base[j].key, mini[i].key);
      if j < b { assert Lt(base[j].key, base[b].key); if base[j].key != mini[i].key { LtTransitive(mini[i].key, base[j].key, base[b].key); } }
    }
  }

  /** Where the walk stands: `merged` done, mini records from `i` and base records from `j` to come. */
  ghost predicate Walked(base: seq<Sized>, mini: seq<Sized>, i: nat, j: nat, merged: seq<Sized>, duplicates: set<nat>) {
    && i <= |mini| && j <= |base| && merged + MergedOrder(base[j..], mini[i..]) == MergedOrder(base, mini)
    && Replaced(base, mini, j, duplicates) && Passed(base, mini, j, i)
  }

  lemma BaseStep(base: seq<Sized>, mini: seq<Sized>, i: nat, j: nat, merged: seq<Sized>, duplicates: set<nat>)
    requires Rising(mini) && Walked(base, mini, i, j, merged, duplicates) && j < |base| && (i < |mini| ==> Lt(base[j].key, mini[i].key))
    ensures Walked(base, mini, i, j + 1, merged + [base[j]], duplicates)
  {
    TakeBase(base, mini, j, i);
    BaseIsNew(base, mini, j, i);
    Regroup(merged, base[j], MergedOrder(base[j + 1..], mini[i..]));
  }

  lemma MiniStep(base: seq<Sized>, mini: seq<Sized>, i: nat, j: nat, merged: seq<Sized>, duplicates: set<nat>)
    requires Rising(base) && Walked(base, mini, i, j, merged, duplicates) && i < |mini| && (j < |base| ==> !Lt(base[j].key, mini[i].key))
    ensures if j < |base| && base[j].key == mini[i].key then Walked(base, mini, i + 1, j + 1, merged + [mini[i]], duplicates + {j})
            else Walked(base, mini, i + 1, j, merged + [mini[i]], duplicates)
  {
    TakeMini(base, mini, j, i);
    MiniPassed(base, mini, j, i);
    var j' := if j < |base| && base[j].key == mini[i].key then j + 1 else j;
    Regroup(merged, mini[i], MergedOrder(base[j'..], mini[i + 1..]));
    assert mini[i].key in Keys(mini);
  }

  /** The inner loop: base records strictly below the next mini record, or all that are left. */
  method TakeBases(base: seq<Sized>, mini: seq<Sized>, i: nat, j0: nat, merged0: seq<Sized>, ghost duplicates: set<nat>)
    returns (j: nat, merged: seq<Sized>)
    requires Rising(mini) && Walked(base, mini, i, j0, merged0, duplicates)
    ensures Walked(base, mini, i, j, merged, duplicates)
    ensures j < |base| ==> i < |mini| && !Lt(base[j].key, mini[i].key)
  {
    j, merged := j0, merged0;
    while j < |base| && (i == |mini| || Lt(base[j].key, mini[i].key))
      invariant Walked(base, mini, i, j, merged, duplicates)
    {
      BaseStep(base, mini, i, j, merged, duplicates);
      merged, j := merged + [base[j]], j + 1;
    }
  }

  /** The merge walk; also the base positions whose records the mini page replaces. */
  method MergeWalk(base: seq<Sized>, mini: seq<Sized>) returns (merged: seq<Sized>, duplicates: set<nat>)
    requires Rising(base) && Rising(mini)
    ensures merged == MergedOrder(base, mini) && Replaced(base, mini, |base|, duplicates)
  {
    merged, duplicates := [], {};
    var j: nat := 0;
    assert base[0..] == base && mini[0..] == mini;
    for i := 0 to |mini|
      invariant Walked(base, mini, i, j, merged, duplicates)
    {
      j, merged := TakeBases(base, mini, i, j, merged, duplicates);
      MiniStep(base, mini, i, j, merged, duplicates);
      merged := merged + [mini[i]];
      if j < |base| && base[j].key == mini[i].key {
        duplicates, j := duplicates + {j}, j + 1;
      }
    }
    j, merged := TakeBases(base, mini, |mini|, j, merged, duplicates);
    assert merged + MergedOrder(base[j..], mini[|mini|..]) == merged;
  }

  // ---- the second pass -----------------------------------------------------------------------------

  lemma TotalStep(l: seq<Sized>, k: nat)
    requires k < |l|
    ensures Total(l[..k + 1]) == Total(l[..k]) + l[k].size
  {
    assert l[..k + 1][..k] == l[..k];
  }

  lemma {:induction false} TotalGrows(l: seq<Sized>, i: nat, j: nat)
    requires i <= j <= |l|
    ensures Total(l[..i]) <= Total(l[..j])
    decreases j
  {
    if i < j {
      TotalGrows(l, i, j - 1);
      TotalStep(l, j - 1);
    }
  }

  function Gap(left: int, total: int): int { if left > total - left then left - (total - left) else total - left - left }

  predicate Within1(l: seq<Sized>, m: nat) { forall i :: 0 <= i < |l| ==> 1 <= l[i].size <= m }

  /** The first place where half of the bytes are reached, or the place after it if that is more even: no place
      is more even than the one chosen.  The source's 16-bit differences are exact below 2^15. */
  method PickSplit(l: seq<Sized>, ghost m: nat) returns (at: nat)
    requires |l| >= 2 && Within1(l, m) && Total(l) < 32768
    ensures 0 < at < |l|
    ensures 2 * Total(l[..at]) <= Total(l) + m && 2 * (Total(l) - Total(l[..at])) <= Total(l) + m
    ensures forall a :: 0 < a < |l| ==> Gap(Total(l[..at]), Total(l)) <= Gap(Total(l[..a]), Total(l))
  {
    var total := TotalOf(l);
    var k := 0;
    var merged := 0;
    assert l[..0] == [] && l[..|l|] == l;
    while k + 1 < |l| && merged + l[k].size < total / 2
      invariant 0 <= k < |l| && merged == Total(l[..k]) && (k > 0 ==> merged < total / 2)
    {
      TotalStep(l, k);
      merged := merged + l[k].size;
      k := k + 1;
    }
    TotalStep(l, k);
    FirstPlace(l, k, m);
    forall a | 0 < a < |l| ensures Gap(Total(l[..Chosen(l, k)]), Total(l)) <= Gap(Total(l[..a]), Total(l)) {
      MostEven(l, k, a);
    }
    at := if k + 1 == |l| || Gap(merged, total) < Gap(merged + l[k].size, total) then k else k + 1;
    assert at == Chosen(l, k);
  }

  method TotalOf(l: seq<Sized>) returns (n: nat)
    ensures n == Total(l)
  {
    n := 0;
    for i := 0 to |l|
      invariant n == Total(l[..i])
    {
      TotalStep(l, i);
      n := n + l[i].size;
    }
    assert l[..|l|] == l;
  }

  /** Two places `size` bytes apart with the middle between them: the more even one is at most half of `size`
      away from it. */
  lemma MoreEven(left: nat, size: nat, total: nat, m: nat)
    requires left < total / 2 || left == 0
    requires total / 2 <= left + size < total && 1 <= size <= m
    ensures var at := if Gap(left, total) < Gap(left + size, total) then left else left + size;
      at > 0 && 2 * at <= total + m && 2 * (total - at) <= total + m
  {
  }

  /** The place chosen when half of the bytes are reached inside record `k`. */
  function Chosen(l: seq<Sized>, k: nat): nat
    requires k < |l|
  {
    if k + 1 == |l| || Gap(Total(l[..k]), Total(l)) < Gap(Total(l[..k + 1]), Total(l)) then k else k + 1
  }

  predicate Even(l: seq<Sized>, at: nat, m: nat) {
    0 < at < |l| && 2 * Total(l[..at]) <= Total(l) + m && 2 * (Total(l) - Total(l[..at])) <= Total(l) + m
  }

  lemma LastPlace(l: seq<Sized>, m: nat)
    requires |l| >= 2 && Within1(l, m) && Total(l[..|l| - 1]) < Total(l) / 2
    ensures Even(l, |l| - 1, m)
  {
    TotalStep(l, |l| - 1);
    assert l[..|l|] == l;
  }

  /** Why the choice is even. */
  lemma FirstPlace(l: seq<Sized>, k: nat, m: nat)
    requires |l| >= 2 && Within1(l, m) && k < |l|
    requires k > 0 ==> Total(l[..k]) < Total(l) / 2
    requires k + 1 < |l| ==> Total(l) / 2 <= Total(l[..k + 1])
    ensures Even(l, Chosen(l, k), m)
  {
    if k + 1 == |l| {
      LastPlace(l, m);
    } else {
      var left, right, total := Total(l[..k]), Total(l[..k + 1]), Total(l);
      TotalStep(l, k);
      BeforeLast(l, k);
      assert l[..0] == [];
      MoreEven(left, l[k].size, total, m);
    }
  }

  /** No other place is more even. */
  lemma MostEven(l: seq<Sized>, k: nat, a: nat)
    requires k < |l| && 0 < a < |l|
    requires k > 0 ==> Total(l[..k]) < Total(l) / 2
    requires k + 1 < |l| ==> Total(l) / 2 <= Total(l[..k + 1])
    ensures Gap(Total(l[..Chosen(l, k)]), Total(l)) <= Gap(Total(l[..a]), Total(l))
  {
    if a <= k { TotalGrows(l, a, k); } else { TotalGrows(l, k + 1, a); }
  }

  lemma BeforeLast(l: seq<Sized>, k: nat)
    requires k + 1 < |l| && l[|l| - 1].size >= 1
    ensures Total(l[..k + 1]) < Total(l)
  {
    TotalGrows(l, k + 1, |l| - 1);
    TotalStep(l, |l| - 1);
    assert l[..|l|] == l;
  }

  // ---- the chosen key ------------------------------------------------------------------------------

  lemma {:induction false} WeightIsPrefix(l: seq<Sized>, at: nat)
    requires Rising(l) && at < |l|
    ensures Weight(l, At(l[at].key)) == Total(l[..at]) && Weight(l, Inf) == Total(l)
  {
    forall i | at <= i < |l| ensures !Lt(l[i].key, l[at].key) { LtTotal(l[i].key, l[at].key); }
    WeightFirst(l, at, At(l[at].key));
    WeightFirst(l, |l|, Inf);
    assert l[..|l|] == l;
  }

  lemma {:induction false} WeightFirst(l: seq<Sized>, at: nat, hi: Bound)
    requires at <= |l| && (forall i :: 0 <= i < at ==> Below(l[i].key, hi)) && forall i :: at <= i < |l| ==> !Below(l[i].key, hi)
    ensures Weight(l, hi) == Total(l[..at])
  {
    WeightSplit(l[..at], l[at..], hi);
    assert l == l[..at] + l[at..];
    WeightAll(l[..at], hi);
    WeightNone(l[at..], hi);
  }

  lemma {:induction false} WeightSplit(a: seq<Sized>, b: seq<Sized>, hi: Bound)
    ensures Weight(a + b, hi) == Weight(a, hi) + Weight(b, hi)
  {
    if a == [] {
      assert a + b == b;
    } else {
      WeightSplit(a[1..], b, hi);
      assert (a + b)[1..] == a[1..] + b;
    }
  }

  lemma {:induction false} WeightAll(l: seq<Sized>, hi: Bound)
    requires forall i :: 0 <= i < |l| ==> Below(l[i].key, hi)
    ensures Weight(l, hi) == Total(l)
  {
    if l != [] {
      var n := |l| - 1;
      WeightAll(l[..n], hi);
      WeightSplit(l[..n], [l[n]], hi);
      assert l == l[..n] + [l[n]] && Weight([l[n]], hi) == l[n].size;
    }
  }

  lemma {:induction false} WeightNone(l: seq<Sized>, hi: Bound)
    requires forall i :: 0 <= i < |l| ==> !Below(l[i].key, hi)
    ensures Weight(l, hi) == 0
  {
    if l != [] { WeightNone(l[1..], hi); }
  }

  /** A key with records on both sides, and no other splits the bytes more evenly. */
  predicate Choice(l: seq<Sized>, at: nat, key: Key) {
    0 < at < |l| && l[at].key == key && forall a :: 0 < a < |l| ==> Gap(Total(l[..at]), Total(l)) <= Gap(Total(l[..a]), Total(l))
  }

  /** `get_merge_split_key`.  With two distinct keys at hand, the chosen key leaves records on both sides, splits
      the bytes most evenly, and the larger side exceeds half of them by at most half a record. */
  method GetMergeSplitKey(base: seq<Sized>, mini: seq<Sized>, ghost m: nat) returns (key: Key, duplicates: set<nat>)
    requires Rising(base) && Rising(mini) && |MergedOrder(base, mini)| >= 2
    requires Within1(MergedOrder(base, mini), m) && Total(MergedOrder(base, mini)) < 32768
    ensures exists at :: Choice(MergedOrder(base, mini), at, key)
    ensures var l := MergedOrder(base, mini);
      2 * Weight(l, At(key)) <= Weight(l, Inf) + m && 2 * (Weight(l, Inf) - Weight(l, At(key))) <= Weight(l, Inf) + m
    ensures Replaced(base, mini, |base|, duplicates)
  {
    var merged;
    merged, duplicates := MergeWalk(base, mini);
    var at := PickSplit(merged, m);
    MergeRising(base, mini);
    WeightIsPrefix(merged, at);
    key := merged[at].key;
    assert Choice(merged, at, key);
  }

  /** The chosen key is above some record, so never the page's low fence: the branch that would replace it
      is never taken. */
  lemma NotLowFence(l: seq<Sized>, at: nat, low: Key)
    requires Rising(l) && 0 < at < |l| && Le(low, l[0].key)
    ensures Lt(low, l[at].key)
  {
    Order();
    assert Lt(l[0].key, l[at].key);
  }
}
