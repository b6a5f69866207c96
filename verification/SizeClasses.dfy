/** The sizes of in-memory pages for a disk-backed tree, and the gap that merging a mini page relies on. */
module SizeClasses {

  const HEADER := 32
  const SLOT := 8
  const LINE := 64
  const DISK_PAGE := 4096

  function AlignUp(n: nat): (r: nat)
    ensures n <= r < n + LINE && r % LINE == 0
  {
    if n % LINE == 0 then n else (n / LINE + 1) * LINE
  }

  /** No aligned size between a size and its alignment. */
  lemma AlignUpLeast(n: nat, m: nat)
    requires n <= m && m % LINE == 0
    ensures AlignUp(n) <= m
  {
  }

  function AlignDown(n: nat): (r: nat)
    ensures r <= n < r + LINE && r % LINE == 0
  {
    n / LINE * LINE
  }

  /** The largest mini page: room for one more record, two fences and their slots is left in a leaf page. */
  function MaxMini(maxRecord: nat, leaf: nat, maxFence: nat): int {
    leaf - (maxRecord + SLOT) - maxFence - 2 * SLOT
  }

  predicate Ascending(s: seq<nat>) { forall i, j :: 0 <= i < j < |s| ==> s[i] < s[j] }

  /** What the source asserts of a configuration. */
  predicate ConfigOk(minRecord: nat, maxRecord: nat, leaf: nat, maxFence: nat) {
    && 1 < minRecord <= maxRecord && 0 < maxFence && leaf % DISK_PAGE == 0
    && MaxMini(maxRecord, leaf, maxFence) >= 0
    && AlignDown(MaxMini(maxRecord, leaf, maxFence)) >= maxRecord + SLOT + HEADER
  }

  function Pow2(i: nat): (p: nat)
    ensures p >= 1
  {
    if i == 0 then 1 else 2 * Pow2(i - 1)
  }

  /** A page for 2^i of the smallest records, before and after alignment. */
  function Raw(minRecord: nat, i: nat): nat { Pow2(i) * (minRecord + SLOT) + HEADER }

  function ClassAt(minRecord: nat, i: nat): nat { AlignUp(Raw(minRecord, i)) }

  lemma RawDoubles(minRecord: nat, i: nat)
    ensures Raw(minRecord, i + 1) == 2 * (Raw(minRecord, i) - HEADER) + HEADER
    ensures minRecord > 0 ==> Raw(minRecord, i) < Raw(minRecord, i + 1)
  {
    assert 2 * Pow2(i) * (minRecord + SLOT) == 2 * (Pow2(i) * (minRecord + SLOT));
    assert Pow2(i) * (minRecord + SLOT) >= minRecord + SLOT;
  }

  lemma {:induction false} ClassesGrow(minRecord: nat, i: nat, j: nat)
    requires i <= j && minRecord > 0
    ensures ClassAt(minRecord, i) <= ClassAt(minRecord, j) && Raw(minRecord, i) <= Raw(minRecord, j)
    decreases j
  {
    if i < j {
      ClassesGrow(minRecord, i, j - 1);
      RawDoubles(minRecord, j - 1);
      AlignUpLeast(Raw(minRecord, j - 1), ClassAt(minRecord, j));
    }
  }

  /** The sizes there are to be: a doubling class no larger than the largest mini page, the largest mini page
      itself, and the leaf page. */
  ghost predicate IsClass(minRecord: nat, maxMini: nat, leaf: nat, x: nat) {
    x == leaf || x == maxMini || (x <= maxMini && exists i: nat :: x == ClassAt(minRecord, i))
  }

  /** The classes found for the exponents below `k`. */
  ghost predicate Found(minRecord: nat, maxMini: nat, k: nat, classes: seq<nat>) {
    && Ascending(classes) && (forall i: nat :: i < k ==> ClassAt(minRecord, i) in classes)
    && forall x :: x in classes ==> x <= maxMini && exists i: nat :: i < k && x == ClassAt(minRecord, i)
  }

  lemma FoundNext(minRecord: nat, maxMini: nat, k: nat, classes: seq<nat>, more: seq<nat>)
    requires Found(minRecord, maxMini, k, classes) && ClassAt(minRecord, k) <= maxMini && minRecord > 0
    requires var size := ClassAt(minRecord, k);
      more == if classes == [] || classes[|classes| - 1] < size then classes + [size] else classes
    ensures Found(minRecord, maxMini, k + 1, more)
  {
    var size := ClassAt(minRecord, k);
    if classes != [] {
      var last := classes[|classes| - 1];
      assert last in classes;
      var i: nat :| i < k && last == ClassAt(minRecord, i);
      ClassesGrow(minRecord, i, k);
    }
    forall x | x in more ensures x <= maxMini && exists i: nat :: i < k + 1 && x == ClassAt(minRecord, i) {
      if x in classes { assert x <= maxMini; } else { assert x == size; }
    }
  }

  /** Past the largest mini page there is nothing more to find. */
  lemma FoundAll(minRecord: nat, maxMini: nat, leaf: nat, k: nat, classes: seq<nat>, all: seq<nat>)
    requires Found(minRecord, maxMini, k, classes) && ClassAt(minRecord, k) > maxMini && minRecord > 0 && classes != [] && maxMini < leaf
    requires all == (if classes[|classes| - 1] < maxMini then classes + [maxMini] else classes) + [leaf]
    ensures Ascending(all) && all[|all| - 2] == maxMini && forall x :: x in all <==> IsClass(minRecord, maxMini, leaf, x)
  {
    assert classes[|classes| - 1] in classes;
    forall x | IsClass(minRecord, maxMini, leaf, x) ensures x in all {
      if x != leaf && x != maxMini {
        var i: nat :| x == ClassAt(minRecord, i);
        if i >= k { ClassesGrow(minRecord, k, i); }
      }
    }
  }

  /** The loop: doubling classes as far as they go. */
  method Doubling(minRecord: nat, maxMini: nat) returns (classes: seq<nat>, ghost k: nat)
    requires minRecord > 0 && ClassAt(minRecord, 0) <= maxMini
    ensures Found(minRecord, maxMini, k, classes) && ClassAt(minRecord, k) > maxMini && classes != []
  {
    classes := [];
    k := 0;
    var raw := minRecord + SLOT + HEADER;
    var size := AlignUp(raw);
    while size <= maxMini
      invariant raw == Raw(minRecord, k) && size == ClassAt(minRecord, k) && Found(minRecord, maxMini, k, classes)
      decreases maxMini + 1 - raw
    {
      FoundNext(minRecord, maxMini, k, classes,
                if classes == [] || classes[|classes| - 1] < size then classes + [size] else classes);
      RawDoubles(minRecord, k);
      if classes == [] || classes[|classes| - 1] < size { classes := classes + [size]; }
      raw := 2 * (raw - HEADER) + HEADER;
      size := AlignUp(raw);
      k := k + 1;
    }
    assert k > 0 && ClassAt(minRecord, 0) in classes;
  }

  lemma Gap(minRecord: nat, maxRecord: nat, leaf: nat, maxFence: nat)
    requires ConfigOk(minRecord, maxRecord, leaf, maxFence)
    ensures var maxMini := AlignDown(MaxMini(maxRecord, leaf, maxFence));
      && ClassAt(minRecord, 0) <= maxMini < leaf
      && (maxMini - HEADER) + (maxRecord + SLOT) + maxFence + 2 * SLOT <= leaf - HEADER
  {
    AlignUpLeast(minRecord + SLOT + HEADER, AlignDown(MaxMini(maxRecord, leaf, maxFence)));
  }

  /** `create_mem_page_size_classes`.  Strictly ascending and exactly the sizes there are to be, the largest
      record fits some mini page, and the gap to the leaf page is what `MergeSplit` needs of a mini page
      (condition C3). */
  method CreateSizeClasses(minRecord: nat, maxRecord: nat, leaf: nat, maxFence: nat) returns (classes: seq<nat>)
    requires ConfigOk(minRecord, maxRecord, leaf, maxFence)
    ensures Ascending(classes)
    ensures forall x :: x in classes <==> IsClass(minRecord, AlignDown(MaxMini(maxRecord, leaf, maxFence)), leaf, x)
    ensures |classes| >= 2 && classes[|classes| - 1] == leaf && classes[|classes| - 2] >= maxRecord + SLOT + HEADER
    ensures (classes[|classes| - 2] - HEADER) + (maxRecord + SLOT) + maxFence + 2 * SLOT <= leaf - HEADER
    ensures classes[|classes| - 2] % 64 == 0 && classes[|classes| - 2] + 64 + (maxRecord + 8) + maxFence + 16 > leaf
    ensures classes[0] % 64 == 0 && minRecord + 8 + 32 <= classes[0] < minRecord + 8 + 32 + 64
  {
    Gap(minRecord, maxRecord, leaf, maxFence);
    var maxMini := AlignDown(MaxMini(maxRecord, leaf, maxFence));
    ghost var k;
    classes, k := Doubling(minRecord, maxMini);
    ghost var found := classes;
    if classes[|classes| - 1] < maxMini { classes := classes + [maxMini]; }
    assert found[|found| - 1] in found;
    if classes[|classes| - 1] < leaf { classes := classes + [leaf]; }
    FoundAll(minRecord, maxMini, leaf, k, found, classes);
    FirstClass(minRecord, maxMini, leaf, classes);
  }

  /** The first class is the least aligned size that holds a header and one smallest record. */
  lemma FirstClass(minRecord: nat, maxMini: nat, leaf: nat, classes: seq<nat>)
    requires minRecord > 0 && Ascending(classes) && ClassAt(minRecord, 0) <= maxMini <= leaf
    requires forall x :: x in classes <==> IsClass(minRecord, maxMini, leaf, x)
    ensures classes != [] && classes[0] == ClassAt(minRecord, 0)
  {
    assert IsClass(minRecord, maxMini, leaf, ClassAt(minRecord, 0));
    var at :| 0 <= at < |classes| && classes[at] == ClassAt(minRecord, 0);
    assert classes[0] in classes;
    if classes[0] != leaf && classes[0] != maxMini {
      var i: nat :| classes[0] == ClassAt(minRecord, i);
      ClassesGrow(minRecord, 0, i);
    }
  }

  /** The others hold two, four, eight of them, and so on, likewise aligned. */
  lemma ClassSizes(minRecord: nat, i: nat)
    ensures ClassAt(minRecord, i) % 64 == 0
    ensures Pow2(i) * (minRecord + 8) + 32 <= ClassAt(minRecord, i) < Pow2(i) * (minRecord + 8) + 32 + 64
    ensures Pow2(0) == 1 && Pow2(i + 1) == 2 * Pow2(i)
  {
  }

  /** Every class is aligned and holds the smallest record. */
  lemma ClassesHold(minRecord: nat, maxRecord: nat, leaf: nat, maxFence: nat, x: nat)
    requires ConfigOk(minRecord, maxRecord, leaf, maxFence)
    requires IsClass(minRecord, AlignDown(MaxMini(maxRecord, leaf, maxFence)), leaf, x)
    ensures x % LINE == 0 && x >= minRecord + SLOT + HEADER
  {
    if x != leaf && x != AlignDown(MaxMini(maxRecord, leaf, maxFence)) {
      var i: nat :| x == ClassAt(minRecord, i);
      ClassesGrow(minRecord, 0, i);
    }
  }
}
