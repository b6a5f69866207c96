/** Inner nodes in place: slots of separators and child ids, the first separator a dummy, each separator
    split into four look-ahead bytes and the rest. */
module InnerNode {
  import opened Bytes
  import opened TreeShape
  import opened TreeEffects

  const AHEAD := 4
  const META := 8
  const ID := 8

  datatype Slot = Slot(head: Key, rest: Key, child: nat)

  function KeyOf(s: Slot): Key { s.head + s.rest }

  function Made(key: Key, child: nat): Slot { Slot(Front(key, AHEAD), Rest(key, AHEAD), child) }

  /** The head is the first four bytes, or all of a shorter key. */
  predicate SlotOk(s: Slot) { |s.head| <= AHEAD && (s.rest != [] ==> |s.head| == AHEAD) }

  lemma MadeOk(key: Key, child: nat)
    ensures SlotOk(Made(key, child)) && KeyOf(Made(key, child)) == key
  {
  }

  lemma HeadAndRest(s: Slot)
    requires SlotOk(s)
    ensures Front(KeyOf(s), AHEAD) == s.head && Rest(KeyOf(s), AHEAD) == s.rest
  {
  }

  function Keys(slots: seq<Slot>): seq<Key> { seq(|slots|, i requires 0 <= i < |slots| => KeyOf(slots[i])) }

  function Kids(slots: seq<Slot>): seq<nat> { seq(|slots|, i requires 0 <= i < |slots| => slots[i].child) }

  /** Bytes a separator takes: what does not fit the look-ahead, the child id and the slot. */
  function Need(key: Key): nat { (if |key| > AHEAD then |key| - AHEAD else 0) + ID + META }

  /** Bytes the slots occupy: of each the key bytes behind the look-ahead, eight for the child id, eight for the
      slot itself. */
  function Stored(slots: seq<Slot>): nat { if slots == [] then 0 else Stored(slots[..|slots| - 1]) + |slots[|slots| - 1].rest| + 8 + 8 }

  /** What is asked for a separator is what it will occupy. */
  lemma NeedIsStored(key: Key, child: nat)
    ensures |Made(key, child).rest| + 8 + 8 == Need(key) == (if |key| > 4 then |key| - 4 else 0) + 16
  {
  }

  lemma {:induction false} StoredSplit(a: seq<Slot>, b: seq<Slot>)
    ensures Stored(a + b) == Stored(a) + Stored(b)
    decreases |b|
  {
    if b == [] {
      assert a + b == a;
    } else {
      StoredSplit(a, b[..|b| - 1]);
      assert (a + b)[..|a + b| - 1] == a + b[..|b| - 1];
    }
  }

  lemma StoredInsert(a: seq<Slot>, i: nat, s: Slot)
    requires i <= |a|
    ensures Stored(a[..i] + [s] + a[i..]) == Stored(a) + |s.rest| + 8 + 8
  {
    StoredSplit(a[..i] + [s], a[i..]);
    StoredSplit(a[..i], [s]);
    StoredSplit(a[..i], a[i..]);
    assert a[..i] + a[i..] == a;
    StoredOne(s);
  }

  lemma StoredOne(s: Slot)
    ensures Stored([s]) == |s.rest| + 8 + 8
  {
    assert [s][..0] == [];
  }

  // ---- the node as a value -------------------------------------------------------------------------

  /** `slots[0]` carries the leftmost child and an empty key. */
  datatype Node = Node(slots: seq<Slot>, remaining: nat)

  function Seps(n: Node): seq<Key>
    requires n.slots != []
  {
    Keys(n.slots[1..])
  }

  predicate NodeOk(n: Node, capacity: nat) {
    && n.slots != [] && KeyOf(n.slots[0]) == [] && (forall i :: 0 <= i < |n.slots| ==> SlotOk(n.slots[i]))
    && Sorted(Seps(n)) && (forall i :: 0 <= i < |Seps(n)| ==> Seps(n)[i] != [])
    && n.remaining + Stored(n.slots) == capacity
  }

  /** As a node of the tree, with the fields the model adds. */
  function AsInner(n: Node, x: Inner): Inner
    requires n.slots != []
  {
    x.(seps := Seps(n), kids := Kids(n.slots))
  }

  // ---- the class -----------------------------------------------------------------------------------

  class InnerNode {
    const capacity: nat
    var slots: seq<Slot>
    var remaining: nat

    function View(): Node
      reads this
    {
      Node(slots, remaining)
    }

    ghost predicate Valid()
      reads this
    {
      NodeOk(View(), capacity)
    }

    /** `reinitialize`: one slot for the leftmost child. */
    constructor (capacity: nat, leftmost: nat)
      requires capacity >= Need([])
      ensures Valid() && slots == [Made([], leftmost)] && this.capacity == capacity
    {
      this.capacity := capacity;
      slots, remaining := [Made([], leftmost)], capacity - Need([]);
      new;
      assert slots[..0] == [] && Stored(slots) == Need([]);
      assert KeyOf(slots[0]) == [];
      assert Seps(View()) == [];
    }

    /** Four bytes first; the rest only if they agree. */
    method Compare(i: nat, key: Key) returns (o: Ordering)
      requires i < |slots| && SlotOk(slots[i])
      ensures o == Cmp(KeyOf(slots[i]), key)
    {
      HeadAndRest(slots[i]);
      PreviewDecides(KeyOf(slots[i]), key, AHEAD);
      o := Cmp(slots[i].head, Front(key, AHEAD));
      if o == Equal { o := Cmp(slots[i].rest, Rest(key, AHEAD)); }
    }

    /** `lower_bound`: the child slot the key belongs to. */
    method LowerBound(key: Key) returns (pos: nat)
      requires Valid()
      ensures pos == TreeShape.Slot(Seps(View()), key)
    {
      ghost var seps := Seps(View());
      var lower, upper := 1, |slots|;
      while lower < upper
        invariant 1 <= lower <= upper <= |slots|
        invariant lower > 1 ==> Le(seps[lower - 2], key)
        invariant upper < |slots| ==> Lt(key, seps[upper - 1])
      {
        var mid := lower + (upper - lower) / 2;
        var o := Compare(mid, key);
        assert seps[mid - 1] == KeyOf(slots[mid]);
        LtTotal(seps[mid - 1], key);
        match o
        case Greater => upper := mid;
        case Equal =>
          Ends(seps, mid, key);
          return mid;
        case Less => lower := mid + 1;
      }
      SlotUnique(seps, key, lower - 1);
      pos := lower - 1;
    }

    /** `have_space_for`, asked before a split goes ahead: the answer is whether `Insert` will take the key. */
    method HaveSpaceFor(key: Key) returns (ok: bool)
      ensures ok <==> (if |key| > 4 then |key| - 4 else 0) + 16 <= remaining
    {
      NeedIsStored(key, 0);
      ok := remaining >= Need(key);
    }

    /** `update_at_pos`: a new child id in place. */
    method UpdateAt(pos: nat, child: nat)
      requires Valid() && pos < |slots|
      modifies this
      ensures Valid() && View() == Rechilded(old(View()), pos, child)
    {
      RechildedOk(View(), capacity, pos, child);
      slots := slots[pos := slots[pos].(child := child)];
    }

    method Add(pos: nat, key: Key, child: nat)
      requires Valid() && key != [] && key !in Seps(View()) && remaining >= Need(key) && pos == TreeShape.Slot(Seps(View()), key)
      modifies this
      ensures Valid() && View() == Inserted(old(View()), key, child)
    {
      InsertedOk(View(), capacity, key, child);
      slots := slots[..pos + 1] + [Made(key, child)] + slots[pos + 1..];
      remaining := remaining - Need(key);
    }

    /** `insert`: refused without room; a key that is there gets the new child; otherwise the separator goes
        in behind the slot it belongs to. */
    method Insert(key: Key, child: nat) returns (ok: bool)
      requires Valid() && key != []
      modifies this
      ensures Valid() && (ok <==> (if |key| > 4 then |key| - 4 else 0) + 16 <= old(remaining))
      ensures View() ==
        if !ok then old(View())
        else if key in old(Seps(View())) then Rechilded(old(View()), TreeShape.Slot(old(Seps(View())), key), child)
        else Inserted(old(View()), key, child)
    {
      NeedIsStored(key, child);
      if remaining < Need(key) { return false; }
      var pos, there := Locate(key);
      if there { UpdateAt(pos, child); } else { Add(pos, key, child); }
      ok := true;
    }

    /** The slot for a key, and whether its separator is the key itself. */
    method Locate(key: Key) returns (pos: nat, there: bool)
      requires Valid() && key != []
      ensures pos == TreeShape.Slot(Seps(View()), key) && pos < |slots| && there == (key in Seps(View()))
    {
      pos := LowerBound(key);
      there := false;
      if pos > 0 {
        var o := Compare(pos, key);
        assert Seps(View())[pos - 1] == KeyOf(slots[pos]);
        LtTotal(KeyOf(slots[pos]), key);
        there := o == Equal;
      }
      if !there { NotThere(View(), capacity, key); }
    }

    /** `get_split_key`, asked for before the split. */
    method GetSplitKey() returns (key: Key)
      requires Valid() && |slots| >= 2
      ensures forall x :: key == SplitSep(AsInner(View(), x))
    {
      var pos := |slots| - |slots| / 2;
      key := KeyOf(slots[pos]);
      assert Seps(View())[pos - 1] == key;
    }

    /** `split` and `consolidate`: the upper half of the slots becomes the sibling's -- its first separator
        goes up to the parent -- and the lower half stays. */
    method Split() returns (key: Key, sibling: InnerNode)
      requires Valid() && |slots| >= 2
      modifies this
      ensures Valid() && sibling.Valid() && fresh(sibling)
      ensures View().slots == old(slots)[..|old(slots)| - |old(slots)| / 2]
      ensures sibling.View().slots == Headless(old(slots)[|old(slots)| - |old(slots)| / 2..])
      ensures key == KeyOf(old(slots)[|old(slots)| - |old(slots)| / 2])
    {
      var keep := |slots| - |slots| / 2;
      key := KeyOf(slots[keep]);
      HalvesOk(View(), capacity, keep);
      var upper := slots[keep..];
      sibling := new InnerNode.From(capacity, Headless(upper));
      slots := slots[..keep];
      remaining := capacity - Stored(slots);
    }

    /** A node built from records that fit. */
    constructor From(capacity: nat, records: seq<Slot>)
      requires Stored(records) <= capacity && NodeOk(Node(records, capacity - Stored(records)), capacity)
      ensures Valid() && this.capacity == capacity && slots == records
    {
      this.capacity := capacity;
      slots, remaining := records, capacity - Stored(records);
    }
  }

  lemma Ends(seps: seq<Key>, j: nat, key: Key)
    requires Sorted(seps) && 1 <= j <= |seps| && seps[j - 1] == key
    ensures TreeShape.Slot(seps, key) == j
  {
    LtTotal(key, key);
    SlotUnique(seps, key, j);
  }

  function Rechilded(n: Node, pos: nat, child: nat): Node
    requires pos < |n.slots|
  {
    n.(slots := n.slots[pos := n.slots[pos].(child := child)])
  }

  lemma RechildedOk(n: Node, capacity: nat, pos: nat, child: nat)
    requires NodeOk(n, capacity) && pos < |n.slots|
    ensures var n' := Rechilded(n, pos, child);
      NodeOk(n', capacity) && Seps(n') == Seps(n) && Kids(n'.slots) == Kids(n.slots)[pos := child]
  {
    var n' := Rechilded(n, pos, child);
    assert Seps(n') == Seps(n);
    StoredSame(n.slots, n'.slots);
  }

  lemma {:induction false} StoredSame(a: seq<Slot>, b: seq<Slot>)
    requires |a| == |b| && forall i :: 0 <= i < |a| ==> a[i].rest == b[i].rest
    ensures Stored(a) == Stored(b)
  {
    if a != [] { StoredSame(a[..|a| - 1], b[..|b| - 1]); }
  }

  /** The slot found is the only one that could hold the key. */
  lemma NotThere(n: Node, capacity: nat, key: Key)
    requires NodeOk(n, capacity)
    requires var j := TreeShape.Slot(Seps(n), key); j > 0 ==> Seps(n)[j - 1] != key
    ensures key !in Seps(n)
  {
    var seps := Seps(n);
    forall i | 0 <= i < |seps| ensures seps[i] != key {
      if seps[i] == key { Ends(seps, i + 1, key); }
    }
  }

  function Inserted(n: Node, key: Key, child: nat): Node
    requires n.slots != [] && Need(key) <= n.remaining
  {
    var pos := TreeShape.Slot(Seps(n), key);
    Node(n.slots[..pos + 1] + [Made(key, child)] + n.slots[pos + 1..], n.remaining - Need(key))
  }

  lemma InsertedSeps(n: Node, key: Key, child: nat)
    requires n.slots != [] && Need(key) <= n.remaining
    ensures var j := TreeShape.Slot(Seps(n), key); Seps(Inserted(n, key, child)) == Seps(n)[..j] + [key] + Seps(n)[j..]
  {
    MadeOk(key, child);
    var n', j := Inserted(n, key, child), TreeShape.Slot(Seps(n), key);
    var a, b := Seps(n'), Seps(n)[..j] + [key] + Seps(n)[j..];
    assert |a| == |b|;
    forall i | 0 <= i < |a| ensures a[i] == b[i] { assert a[i] == KeyOf(n'.slots[i + 1]); }
  }

  lemma InsertedKids(n: Node, key: Key, child: nat)
    requires n.slots != [] && Need(key) <= n.remaining
    ensures var j := TreeShape.Slot(Seps(n), key);
      Kids(Inserted(n, key, child).slots) == Kids(n.slots)[..j + 1] + [child] + Kids(n.slots)[j + 1..]
  {
  }

  lemma InsertedSorted(seps: seq<Key>, key: Key)
    requires Sorted(seps) && key !in seps
    ensures var j := TreeShape.Slot(seps, key); Sorted(seps[..j] + [key] + seps[j..])
  {
    var j := TreeShape.Slot(seps, key);
    if j > 0 { LtTotal(seps[j - 1], key); }
    InsertSorted(seps, j, key);
  }

  lemma InsertedOk(n: Node, capacity: nat, key: Key, child: nat)
    requires NodeOk(n, capacity) && Need(key) <= n.remaining && key !in Seps(n) && key != []
    ensures NodeOk(Inserted(n, key, child), capacity)
  {
    InsertedSeps(n, key, child);
    InsertedSorted(Seps(n), key);
    MadeOk(key, child);
    NeedIsStored(key, child);
    StoredInsert(n.slots, TreeShape.Slot(Seps(n), key) + 1, Made(key, child));
  }

  lemma InsertedIsInsertSep(n: Node, key: Key, child: nat, x: Inner)
    requires n.slots != [] && Need(key) <= n.remaining
    ensures AsInner(Inserted(n, key, child), x) == InsertSep(AsInner(n, x), key, child)
  {
    InsertedSeps(n, key, child);
    InsertedKids(n, key, child);
  }

  // ---- split ---------------------------------------------------------------------------------------

  /** The first separator of a node is a dummy: only its child counts. */
  function Headless(slots: seq<Slot>): seq<Slot>
    requires slots != []
  {
    [Made([], slots[0].child)] + slots[1..]
  }

  lemma HeadlessStored(slots: seq<Slot>)
    requires slots != []
    ensures Stored(Headless(slots)) <= Stored(slots)
  {
    assert slots == [slots[0]] + slots[1..];
    StoredSplit([slots[0]], slots[1..]);
    StoredSplit([Made([], slots[0].child)], slots[1..]);
    StoredOne(slots[0]);
    StoredOne(Made([], slots[0].child));
    MadeOk([], slots[0].child);
  }

  lemma LowerSeps(n: Node, keep: nat)
    requires 0 < keep <= |n.slots|
    ensures Keys(n.slots[..keep][1..]) == Seps(n)[..keep - 1]
  {
  }

  lemma UpperSeps(n: Node, keep: nat)
    requires 0 < keep < |n.slots|
    ensures Keys(Headless(n.slots[keep..])[1..]) == Seps(n)[keep..]
  {
    assert Headless(n.slots[keep..])[1..] == n.slots[keep + 1..];
  }

  lemma HalvesOk(n: Node, capacity: nat, keep: nat)
    requires NodeOk(n, capacity) && 0 < keep < |n.slots|
    ensures Stored(n.slots[..keep]) <= capacity && NodeOk(Node(n.slots[..keep], capacity - Stored(n.slots[..keep])), capacity)
    ensures var u := Headless(n.slots[keep..]); Stored(u) <= capacity && NodeOk(Node(u, capacity - Stored(u)), capacity)
  {
    var u := Headless(n.slots[keep..]);
    assert n.slots == n.slots[..keep] + n.slots[keep..];
    StoredSplit(n.slots[..keep], n.slots[keep..]);
    HeadlessStored(n.slots[keep..]);
    LowerSeps(n, keep);
    UpperSeps(n, keep);
    MadeOk([], n.slots[keep].child);
    assert u[0] == Made([], n.slots[keep].child);
    assert forall i :: 1 <= i < |u| ==> u[i] == n.slots[keep + i];
  }

  /** The halves are those of the tree model: routing through them is routing through the whole
      (`TreeEffects.HalvesRoute`), and the key read before the split is the key the split hands up. */
  lemma SplitIsHalves(n: Node, capacity: nat, x: Inner)
    requires NodeOk(n, capacity) && |n.slots| >= 2
    ensures var keep := |n.slots| - |n.slots| / 2;
      var y := AsInner(n, x);
      && KeyOf(n.slots[keep]) == SplitSep(y)
      && Keys(n.slots[..keep][1..]) == LeftHalf(y).seps && Kids(n.slots[..keep]) == LeftHalf(y).kids
      && Keys(Headless(n.slots[keep..])[1..]) == RightHalf(y).seps && Kids(Headless(n.slots[keep..])) == RightHalf(y).kids
  {
    var keep := |n.slots| - |n.slots| / 2;
    LowerSeps(n, keep);
    UpperSeps(n, keep);
    assert Seps(n)[keep - 1] == KeyOf(n.slots[keep]);
  }
}
