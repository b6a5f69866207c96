/** Keys are byte strings under the lexicographic order of Rust slices.  The empty string is the least
    key; it doubles as the infinite low fence, while an infinite high fence is `Inf`. */
module Bytes {

  type byte = x: int | 0 <= x < 256

  type Key = seq<byte>

  type Value = seq<byte>

  datatype Ordering = Less | Equal | Greater

  datatype Bound = Inf | At(key: Key)

  predicate Lt(a: Key, b: Key) {
    |b| > 0 && (|a| == 0 || a[0] < b[0] || (a[0] == b[0] && Lt(a[1..], b[1..])))
  }

  predicate Le(a: Key, b: Key) {
    !Lt(b, a)
  }

  /** `k` lies below the bound `hi`. */
  predicate Below(k: Key, hi: Bound) {
    hi == Inf || Lt(k, hi.key)
  }

  predicate Within(k: Key, lo: Key, hi: Bound) {
    Le(lo, k) && Below(k, hi)
  }

  /** The slice comparison of the source. */
  function Cmp(a: Key, b: Key): Ordering {
    if Lt(a, b) then Less else if a == b then Equal else Greater
  }

  predicate Sorted(keys: seq<Key>) {
    forall i, j :: 0 <= i < j < |keys| ==> Lt(keys[i], keys[j])
  }

  lemma {:induction false} LtTransitive(a: Key, b: Key, c: Key)
    requires Lt(a, b) && Lt(b, c)
    ensures Lt(a, c)
    decreases |a|
  {
    if |a| > 0 && a[0] == b[0] && b[0] == c[0] {
      LtTransitive(a[1..], b[1..], c[1..]);
    }
  }

  lemma {:induction false} LtTotal(a: Key, b: Key)
    ensures Lt(a, b) || a == b || Lt(b, a)
    ensures !(Lt(a, b) && Lt(b, a))
    ensures Lt(a, b) ==> a != b
    decreases |a|
  {
    if |a| > 0 && |b| > 0 {
      LtTotal(a[1..], b[1..]);
      assert a == [a[0]] + a[1..] && b == [b[0]] + b[1..];
    }
  }

  /** `Lt` is a strict total order, in quantified form. */
  lemma Order()
    ensures forall a, b, c :: Lt(a, b) && Lt(b, c) ==> Lt(a, c)
    ensures forall a, b :: Lt(a, b) || a == b || Lt(b, a)
    ensures forall a, b :: Lt(a, b) ==> !Lt(b, a) && a != b
  {
    forall a: Key, b: Key, c: Key | Lt(a, b) && Lt(b, c) ensures Lt(a, c) { LtTransitive(a, b, c); }
    forall a: Key, b: Key ensures Lt(a, b) || a == b || Lt(b, a) { LtTotal(a, b); }
    forall a: Key, b: Key | Lt(a, b) ensures !Lt(b, a) && a != b { LtTotal(a, b); }
  }

  // ---- preview bytes -------------------------------------------------------------------------------

  function Min(a: nat, b: nat): (m: nat) { if a < b then a else b }

  function Front(a: Key, n: nat): Key { a[..Min(n, |a|)] }

  function Rest(a: Key, n: nat): Key { a[Min(n, |a|)..] }

  /** Comparing the first `n` bytes and, only when those agree, the rest, is comparing the whole keys. */
  lemma {:induction false} PreviewDecides(a: Key, b: Key, n: nat)
    ensures Cmp(Front(a, n), Front(b, n)) != Equal ==> Cmp(Front(a, n), Front(b, n)) == Cmp(a, b)
    ensures Cmp(Front(a, n), Front(b, n)) == Equal ==> Cmp(Rest(a, n), Rest(b, n)) == Cmp(a, b)
    decreases n
  {
    LtTotal(a, b);
    LtTotal(Front(a, n), Front(b, n));
    if n == 0 || |a| == 0 || |b| == 0 {
      assert Front(a, n) == Front(b, n) ==> Rest(a, n) == a && Rest(b, n) == b;
    } else {
      PreviewDecides(a[1..], b[1..], n - 1);
      assert Front(a, n)[1..] == Front(a[1..], n - 1) && Front(b, n)[1..] == Front(b[1..], n - 1);
      assert Rest(a, n) == Rest(a[1..], n - 1) && Rest(b, n) == Rest(b[1..], n - 1);
      LtTotal(a[1..], b[1..]);
      LtTotal(Front(a[1..], n - 1), Front(b[1..], n - 1));
      assert a == [a[0]] + a[1..] && b == [b[0]] + b[1..];
      assert Front(a, n) == [a[0]] + Front(a, n)[1..] && Front(b, n) == [b[0]] + Front(b, n)[1..];
    }
  }

  // ---- common prefixes -----------------------------------------------------------------------------

  /** `common_prefix_len`: the loop of the source, run to its first mismatch. */
  method CommonPrefixLen(low: Key, high: Key) returns (n: nat)
    ensures n == PrefixLen(low, high)
  {
    n := 0;
    while n < |low| && n < |high| && low[n] == high[n]
      invariant n <= |low| && n <= |high|
      invariant PrefixLen(low, high) == n + PrefixLen(low[n..], high[n..])
    {
      n := n + 1;
    }
  }

  function PrefixLen(a: Key, b: Key): (n: nat)
    ensures n <= |a| && n <= |b| && a[..n] == b[..n]
    ensures n < |a| && n < |b| ==> a[n] != b[n]
  {
    if |a| == 0 || |b| == 0 || a[0] != b[0] then 0
    else
      assert a == [a[0]] + a[1..] && b == [b[0]] + b[1..];
      1 + PrefixLen(a[1..], b[1..])
  }

  /** Comparison ignores a shared prefix. */
  lemma {:induction false} LtCancel(p: Key, a: Key, b: Key)
    ensures Lt(p + a, p + b) == Lt(a, b)
    decreases |p|
  {
    if |p| == 0 {
      assert p + a == a && p + b == b;
    } else {
      LtCancel(p[1..], a, b);
      assert (p + a)[1..] == p[1..] + a && (p + b)[1..] == p[1..] + b;
    }
  }

  /** Every key between two fences carries the prefix the fences share. */
  lemma {:induction false} BetweenSharesPrefix(low: Key, key: Key, high: Key, n: nat)
    requires n <= |low| && n <= |high| && low[..n] == high[..n]
    requires Le(low, key) && Lt(key, high)
    ensures n <= |key| && key[..n] == low[..n]
    decreases n
  {
    if n > 0 {
      assert low[0] == low[..n][0] == high[..n][0] == high[0];
      assert |key| > 0;
      assert key[0] == low[0];
      assert low[1..][..n - 1] == low[..n][1..] == high[..n][1..] == high[1..][..n - 1];
      BetweenSharesPrefix(low[1..], key[1..], high[1..], n - 1);
      assert key[..n] == [key[0]] + key[1..][..n - 1];
      assert low[..n] == [low[0]] + low[1..][..n - 1];
    }
  }

  lemma EmptyIsLeast(k: Key)
    ensures Le([], k)
  {
  }
}
