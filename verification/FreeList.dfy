/** The size-class free lists: linked lists threaded through the free blocks themselves.

    `next` is the word at the start of each free block.  The ghost `lists` are the sequences that `Ring` works
    with; every method is proved against them. */
module FreeList {
  import opened TreeShape
  import opened Ring
  import opened RingProof

  /** Following `next` from `head` visits exactly `l`. */
  predicate Chain(next: map<nat, Option<nat>>, head: Option<nat>, l: seq<nat>)
    decreases |l|
  {
    if l == [] then head == None
    else head == Some(l[0]) && l[0] in next && Chain(next, next[l[0]], l[1..])
  }

  lemma {:induction false} ChainFrame(next: map<nat, Option<nat>>, head: Option<nat>, l: seq<nat>, x: nat, to: Option<nat>)
    requires Chain(next, head, l) && x !in l
    ensures Chain(next[x := to], head, l)
    decreases |l|
  {
    if l != [] {
      assert x !in l[1..];
      ChainFrame(next, next[l[0]], l[1..], x, to);
    }
  }

  /** Unlinking the first node of `rest` by rewriting the last node of `done`. */
  lemma {:induction false} ChainSplice(next: map<nat, Option<nat>>, head: Option<nat>, done: seq<nat>, rest: seq<nat>)
    requires done != [] && rest != [] && NoDup(done + rest) && Chain(next, head, done + rest)
    ensures rest[0] in next && Chain(next[done[|done| - 1] := next[rest[0]]], head, done + rest[1..])
    decreases |done|
  {
    var all := done + rest;
    assert all[1..] == done[1..] + rest;
    assert (done + rest[1..])[1..] == done[1..] + rest[1..];
    assert forall i :: 0 <= i < |all[1..]| ==> all[1..][i] == all[i + 1];
    if |done| == 1 {
      assert done[1..] + rest == rest && done[1..] + rest[1..] == rest[1..];
      assert forall i :: 0 <= i < |rest| ==> rest[i] == all[i + 1];
      ChainFrame(next, next[rest[0]], rest[1..], done[0], next[rest[0]]);
    } else {
      assert all[0] != all[|done| - 1];
      ChainSplice(next, next[done[0]], done[1..], rest);
    }
  }

  lemma {:induction false} WithoutAt(done: seq<nat>, rest: seq<nat>)
    requires rest != [] && rest[0] !in done
    ensures Without(done + rest, rest[0]) == done + rest[1..]
  {
    if done != [] {
      assert (done + rest)[1..] == done[1..] + rest;
      WithoutAt(done[1..], rest);
      assert [done[0]] + (done[1..] + rest[1..]) == done + rest[1..];
    } else {
      assert done + rest == rest && done + rest[1..] == rest[1..];
    }
  }

  class FreeList {
    const classes: seq<nat>
    var heads: seq<Option<nat>>
    var next: map<nat, Option<nat>>
    ghost var lists: seq<seq<nat>>

    ghost predicate Valid()
      reads this
    {
      && |heads| == |lists| == |classes| && |classes| > 0
      && (forall c :: 0 <= c < |lists| ==> NoDup(lists[c]) && Chain(next, heads[c], lists[c]))
      && (forall c, d, a :: 0 <= c < d < |lists| && a in lists[c] ==> a !in lists[d])
    }

    constructor (sizes: seq<nat>)
      requires |sizes| > 0
      ensures Valid() && classes == sizes && forall c :: 0 <= c < |lists| ==> lists[c] == []
    {
      classes := sizes;
      heads := seq(|sizes|, i => None);
      next := map[];
      lists := seq(|sizes|, i => []);
    }

    /** Takes the head of the list of the smallest class that can hold `size`. */
    method Remove(size: nat) returns (r: Option<nat>)
      requires Valid() && Larger(classes, size) < |classes|
      modifies this
      ensures Valid()
      ensures var c := Larger(classes, size);
        if old(lists[c]) == [] then r == None && lists == old(lists)
        else r == Some(old(lists[c][0])) && lists == old(lists)[c := old(lists[c])[1..]]
    {
      var c := Larger(classes, size);
      if heads[c] == None { return None; }
      r := heads[c];
      HeadPopped(lists[c]);
      heads := heads[c := next[r.value]];
      lists := lists[c := lists[c][1..]];
    }

    /** Pushes a block that is on no list; refused when it is too small or the list is locked. */
    method TryAdd(ptr: nat, size: nat, locked: bool) returns (ok: bool)
      requires Valid() && forall c :: 0 <= c < |lists| ==> ptr !in lists[c]
      modifies this
      ensures Valid()
      ensures ok <==> size >= classes[|classes| - 1] && !locked
      ensures ok ==> Smaller(classes, size) < |classes|
      ensures var c := Smaller(classes, size);
        lists == if ok then old(lists)[c := [ptr] + old(lists[c])] else old(lists)
    {
      if size < classes[|classes| - 1] { return false; }
      var c := Smaller(classes, size);
      if locked { return false; }
      forall d | 0 <= d < |lists| ensures Chain(next[ptr := heads[c]], heads[d], lists[d]) {
        ChainFrame(next, heads[d], lists[d], ptr, heads[c]);
      }
      next := next[ptr := heads[c]];
      heads := heads[c := Some(ptr)];
      assert ([ptr] + lists[c])[1..] == lists[c];
      lists := lists[c := [ptr] + lists[c]];
      ok := true;
    }

    /** Unlinks a block from its list; false when it is not there. */
    method FindAndRemove(ptr: nat, size: nat) returns (found: bool)
      requires Valid() && Smaller(classes, size) < |classes|
      modifies this
      ensures Valid()
      ensures var c := Smaller(classes, size);
        && found == (ptr in old(lists[c]))
        && lists == old(lists)[c := Without(old(lists[c]), ptr)]
    {
      var c := Smaller(classes, size);
      var node := heads[c];
      var prev: Option<nat> := None;
      ghost var done: seq<nat> := [];
      ghost var rest := lists[c];
      while node.Some?
        invariant Valid() && heads == old(heads) && next == old(next) && lists == old(lists)
        invariant lists[c] == done + rest && Chain(next, node, rest) && ptr !in done
        invariant prev == if done == [] then None else Some(done[|done| - 1])
        decreases |rest|
      {
        if node.value == ptr {
          WithoutAt(done, rest);
          WithoutAll(lists[c], ptr);
          Unlink(c, prev, node.value, done, rest);
          return true;
        }
        prev := node;
        done, rest := done + [node.value], rest[1..];
        node := next[prev.value];
      }
      assert done + rest == done;
      WithoutMissing(lists[c], ptr);
      assert lists == lists[c := lists[c]];
      found := false;
    }

    method Unlink(c: nat, prev: Option<nat>, node: nat, ghost done: seq<nat>, ghost rest: seq<nat>)
      requires Valid() && c < |lists| && lists[c] == done + rest && rest != [] && rest[0] == node && node in next
      requires Chain(next, Some(node), rest) && prev == if done == [] then None else Some(done[|done| - 1])
      requires NoDup(done + rest[1..])
      modifies this
      ensures Valid() && lists == old(lists)[c := done + rest[1..]]
    {
      if prev.None? {
        assert done + rest == rest && done + rest[1..] == rest[1..];
        heads := heads[c := next[node]];
      } else {
        ChainSplice(next, heads[c], done, rest);
        assert prev.value in lists[c];
        forall d | 0 <= d < |lists| && d != c ensures Chain(next[prev.value := next[node]], heads[d], lists[d]) {
          ChainFrame(next, heads[d], lists[d], prev.value, next[node]);
        }
        next := next[prev.value := next[node]];
      }
      forall a | a in done + rest[1..] ensures a in lists[c] { }
      lists := lists[c := done + rest[1..]];
    }
  }

  lemma {:induction false} WithoutMissing(l: seq<nat>, a: nat)
    requires a !in l
    ensures Without(l, a) == l
  {
    if l != [] {
      WithoutMissing(l[1..], a);
      assert l == [l[0]] + l[1..];
    }
  }
}
