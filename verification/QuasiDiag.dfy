/** Flattening a dendrogram into its leaf order (HierarchicalRiskParity._get_quasi_diag). */
module QuasiDiag {

  /** Row k of a linkage joins two clusters into the new cluster n + k; ids below n are the items. */
  type Linkage = seq<(int, int)>

  function Items(link: Linkage): nat {
    |link| + 1
  }

  function Root(link: Linkage): int {
    2 * |link|
  }

  /** Cluster z was made by joining y with something. */
  predicate IsParent(link: Linkage, z: int, y: int) {
    && Items(link) <= z <= Root(link)
    && (link[z - Items(link)].0 == y || link[z - Items(link)].1 == y)
  }

  /** Clusters join earlier ones, and every id but the root is joined exactly once. */
  ghost predicate Valid(link: Linkage) {
    && link != []
    && (forall k :: 0 <= k < |link| ==> IsJoin(link[k], Items(link) + k))
    && (forall y :: 0 <= y < Root(link) ==> HasParent(link, y))
    && (forall y, z, z' :: IsParent(link, z, y) && IsParent(link, z', y) ==> z == z')
  }

  ghost predicate HasParent(link: Linkage, y: int) {
    exists z :: IsParent(link, z, y)
  }

  predicate IsJoin(row: (int, int), id: int) {
    0 <= row.0 < id && 0 <= row.1 < id && row.0 != row.1
  }

  predicate IsId(link: Linkage, id: int) {
    0 <= id <= Root(link)
  }

  /** The linkage that joins one item after the other to a single growing cluster. */
  function Chain(n: nat): Linkage
    requires n >= 2
  {
    seq(n - 1, k requires 0 <= k < n - 1 => if k == 0 then (0, 1) else (n + k - 1, k + 1))
  }

  /** There are valid linkages of any number of items. */
  lemma ChainIsValid(n: nat)
    requires n >= 2
    ensures Valid(Chain(n)) && Items(Chain(n)) == n
  {
    var link := Chain(n);
    forall y | 0 <= y < Root(link)
      ensures HasParent(link, y)
    {
      var z := if y < 2 then n else if y < n then n + y - 1 else y + 1;
      assert IsParent(link, z, y);
    }
  }

  /** The items below a cluster, left to right. */
  ghost function Leaves(link: Linkage, id: int): seq<int>
    requires Valid(link) && IsId(link, id)
    decreases id
  {
    if id < Items(link) then [id]
    else
      var row := link[id - Items(link)];
      assert IsJoin(row, id);
      Leaves(link, row.0) + Leaves(link, row.1)
  }

  /** How often node y occurs in the tree below a cluster. */
  ghost function Occurrences(link: Linkage, id: int, y: int): nat
    requires Valid(link) && IsId(link, id)
    decreases id
  {
    (if id == y then 1 else 0) +
    if id < Items(link) then 0
    else
      var row := link[id - Items(link)];
      assert IsJoin(row, id);
      Occurrences(link, row.0, y) + Occurrences(link, row.1, y)
  }

  lemma {:induction false} LeavesAreOccurrences(link: Linkage, id: int, x: int)
    requires Valid(link) && IsId(link, id) && x < Items(link)
    ensures multiset(Leaves(link, id))[x] == Occurrences(link, id, x)
    decreases id
  {
    if id >= Items(link) {
      var row := link[id - Items(link)];
      assert IsJoin(row, id);
      LeavesAreOccurrences(link, row.0, x);
      LeavesAreOccurrences(link, row.1, x);
    }
  }

  lemma {:induction false} OccursNotAbove(link: Linkage, id: int, y: int)
    requires Valid(link) && IsId(link, id) && y > id
    ensures Occurrences(link, id, y) == 0
    decreases id
  {
    if id >= Items(link) {
      var row := link[id - Items(link)];
      assert IsJoin(row, id);
      OccursNotAbove(link, row.0, y);
      OccursNotAbove(link, row.1, y);
    }
  }

  /** A node occurs where its parent does, and where it is itself the top. */
  lemma {:induction false} OccursWithParent(link: Linkage, id: int, y: int, z: int)
    requires Valid(link) && IsId(link, id) && IsParent(link, z, y)
    ensures Occurrences(link, id, y) == (if id == y then 1 else 0) + Occurrences(link, id, z)
    decreases id
  {
    if id >= Items(link) {
      var row := link[id - Items(link)];
      assert IsJoin(row, id);
      OccursWithParent(link, row.0, y, z);
      OccursWithParent(link, row.1, y, z);
      if row.0 == y || row.1 == y {
        assert IsParent(link, id, y);
      }
    }
  }

  lemma {:induction false} OccursOnce(link: Linkage, y: int)
    requires Valid(link) && IsId(link, y)
    ensures Occurrences(link, Root(link), y) == 1
    decreases Root(link) - y
  {
    var root := Root(link);
    if y == root {
      var row := link[root - Items(link)];
      assert IsJoin(row, root);
      OccursNotAbove(link, row.0, root);
      OccursNotAbove(link, row.1, root);
    } else {
      assert HasParent(link, y);
      var z :| IsParent(link, z, y);
      assert IsJoin(link[z - Items(link)], z);
      OccursWithParent(link, root, y, z);
      OccursOnce(link, z);
    }
  }

  lemma {:induction false} LeavesInRange(link: Linkage, id: int)
    requires Valid(link) && IsId(link, id)
    ensures forall x :: x in Leaves(link, id) ==> 0 <= x < Items(link)
    decreases id
  {
    if id >= Items(link) {
      var row := link[id - Items(link)];
      assert IsJoin(row, id);
      LeavesInRange(link, row.0);
      LeavesInRange(link, row.1);
    }
  }

  lemma {:induction false} CountUpTo(n: nat, x: int)
    ensures multiset(seq(n, i => i))[x] == if 0 <= x < n then 1 else 0
  {
    if n > 0 {
      CountUpTo(n - 1, x);
      assert seq(n, i => i) == seq(n - 1, i => i) + [n - 1];
    }
  }

  /** The leaves of the whole tree are the items, each once. */
  lemma LeavesArePermutation(link: Linkage)
    requires Valid(link)
    ensures multiset(Leaves(link, Root(link))) == multiset(seq(Items(link), i => i))
  {
    var leaves := Leaves(link, Root(link));
    LeavesInRange(link, Root(link));
    forall x
      ensures multiset(leaves)[x] == multiset(seq(Items(link), i => i))[x]
    {
      CountUpTo(Items(link), x);
      if 0 <= x < Items(link) {
        LeavesAreOccurrences(link, Root(link), x);
        OccursOnce(link, x);
      } else {
        assert x !in leaves;
      }
    }
  }

  /** Item x lies below cluster id. */
  ghost predicate IsUnder(link: Linkage, id: int, x: int)
    requires Valid(link) && IsId(link, id)
  {
    Occurrences(link, id, x) > 0
  }

  lemma UnderPart(link: Linkage, id: int, z: int)
    requires Valid(link) && IsId(link, id) && IsUnder(link, id, z) && id != z
    ensures id >= Items(link)
    ensures var row := link[id - Items(link)];
            0 <= row.0 < id && 0 <= row.1 < id && (IsUnder(link, row.0, z) || IsUnder(link, row.1, z))
  {
    assert id >= Items(link) ==> IsJoin(link[id - Items(link)], id);
  }

  /** The leaves of a cluster stand together in those of every cluster it lies below. */
  lemma {:induction false} LeavesTogether(link: Linkage, id: int, z: int) returns (pre: seq<int>, post: seq<int>)
    requires Valid(link) && IsId(link, id) && IsId(link, z) && IsUnder(link, id, z)
    ensures Leaves(link, id) == pre + Leaves(link, z) + post
    decreases id
  {
    if id == z {
      pre, post := [], [];
    } else {
      UnderPart(link, id, z);
      LeavesOfCluster(link, id);
      hide Valid, Leaves, IsUnder;
      var row := link[id - Items(link)];
      if IsUnder(link, row.0, z) {
        pre, post := LeavesTogether(link, row.0, z);
        post := post + Leaves(link, row.1);
      } else {
        pre, post := LeavesTogether(link, row.1, z);
        pre := Leaves(link, row.0) + pre;
      }
    }
  }

  lemma CountedOutside(pre: seq<int>, part: seq<int>, post: seq<int>, i: nat)
    requires i < |pre + part + post|
    ensures var x := (pre + part + post)[i];
            i < |pre| || i >= |pre| + |part| ==> multiset(pre + part + post)[x] > multiset(part)[x]
  {
    var x := (pre + part + post)[i];
    assert multiset(pre + part + post) == multiset(pre) + multiset(part) + multiset(post);
    assert i < |pre| ==> x in pre;
    assert i >= |pre| + |part| ==> x == post[i - |pre| - |part|] && x in post;
  }

  /** What stands at a position of the leaf order lies below a cluster exactly if the position is one of the
      cluster's. */
  lemma WhereUnder(link: Linkage, z: int, pre: seq<int>, post: seq<int>, i: nat)
    requires Valid(link) && IsId(link, z) && Leaves(link, Root(link)) == pre + Leaves(link, z) + post
    requires i < |Leaves(link, Root(link))|
    ensures IsUnder(link, z, Leaves(link, Root(link))[i]) <==> |pre| <= i < |pre| + |Leaves(link, z)|
  {
    var order, part := Leaves(link, Root(link)), Leaves(link, z);
    LeavesInRange(link, Root(link));
    assert order[i] in order;
    hide Valid, Leaves;
    LeavesAreOccurrences(link, z, order[i]);
    LeavesAreOccurrences(link, Root(link), order[i]);
    OccursOnce(link, order[i]);
    CountedOutside(pre, part, post, i);
    if |pre| <= i < |pre| + |part| {
      assert order[i] == part[i - |pre|];
    }
  }

  /** The leaf order follows the dendrogram: what lies below a cluster stands together, its first part before its
      second. */
  lemma OrderFollowsTree(link: Linkage, z: int, i: nat, j: nat, l: nat)
    requires Valid(link) && IsId(link, z) && z >= Items(link)
    requires i < |Leaves(link, Root(link))| && j < |Leaves(link, Root(link))|
    ensures var order := Leaves(link, Root(link));
            var (first, second) := link[z - Items(link)];
            && 0 <= first < z && 0 <= second < z
            && (IsUnder(link, z, order[i]) && IsUnder(link, z, order[j]) && i <= l <= j ==> IsUnder(link, z, order[l]))
            && (IsUnder(link, first, order[i]) && IsUnder(link, second, order[j]) ==> i < j)
  {
    var order, row := Leaves(link, Root(link)), link[z - Items(link)];
    LeavesOfCluster(link, z);
    OccursOnce(link, z);
    var pre, post := LeavesTogether(link, Root(link), z);
    hide Valid, Leaves, Occurrences, IsUnder;
    WhereUnder(link, z, pre, post, i);
    WhereUnder(link, z, pre, post, j);
    if i <= l <= j {
      WhereUnder(link, z, pre, post, l);
    }
    var a, b := Leaves(link, row.0), Leaves(link, row.1);
    assert order == pre + a + (b + post) && order == (pre + a) + b + post;
    WhereUnder(link, row.0, pre, b + post, i);
    WhereUnder(link, row.1, pre + a, post, j);
  }

  function Max(s: seq<int>): int
    requires s != []
  {
    var last := s[|s| - 1];
    if |s| == 1 then last
    else
      var before := Max(s[..|s| - 1]);
      if last > before then last else before
  }

  lemma {:induction false} MaxBounds(s: seq<int>)
    requires s != []
    ensures forall k :: 0 <= k < |s| ==> s[k] <= Max(s)
    ensures exists k :: 0 <= k < |s| && s[k] == Max(s)
  {
    if |s| == 1 {
      assert s[0] == Max(s);
    } else {
      var before := s[..|s| - 1];
      MaxBounds(before);
      var k :| 0 <= k < |before| && before[k] == Max(before);
      assert s[k] == Max(before) && (s[k] == Max(s) || s[|s| - 1] == Max(s));
      assert forall k :: 0 <= k < |before| ==> s[k] == before[k];
    }
  }

  /** One id in a pass: a cluster becomes its two parts. */
  function Expand(link: Linkage, id: int): seq<int>
    requires id >= 0
  {
    if id >= Items(link) then
      var k := id - Items(link);
      if k < |link| then [link[k].0, link[k].1] else [id]
    else [id]
  }

  predicate AreIds(link: Linkage, ids: seq<int>) {
    forall k :: 0 <= k < |ids| ==> IsId(link, ids[k])
  }

  /** The leaves of a list of clusters. */
  ghost function AllLeaves(link: Linkage, ids: seq<int>): seq<int>
    requires Valid(link) && AreIds(link, ids)
  {
    if ids == [] then [] else AllLeaves(link, ids[..|ids| - 1]) + Leaves(link, ids[|ids| - 1])
  }

  lemma AllLeavesAppend(link: Linkage, ids: seq<int>, id: int)
    requires Valid(link) && IsId(link, id) && AreIds(link, ids)
    ensures AllLeaves(link, ids + [id]) == AllLeaves(link, ids) + Leaves(link, id)
  {
    assert (ids + [id])[..|ids + [id]| - 1] == ids;
  }

  lemma LeavesOfCluster(link: Linkage, id: int)
    requires Valid(link) && IsId(link, id) && id >= Items(link)
    ensures var row := link[id - Items(link)];
            && 0 <= row.0 < id && 0 <= row.1 < id
            && Leaves(link, id) == Leaves(link, row.0) + Leaves(link, row.1)
  {
    assert IsJoin(link[id - Items(link)], id);
  }

  lemma ExpandSmaller(link: Linkage, id: int)
    requires Valid(link) && IsId(link, id)
    ensures AreIds(link, Expand(link, id))
    ensures forall k :: 0 <= k < |Expand(link, id)| ==> Expand(link, id)[k] < Items(link) || Expand(link, id)[k] < id
  {
    if id >= Items(link) {
      LeavesOfCluster(link, id);
    }
  }

  /** Expanding an id leaves its leaves as they are, and makes a cluster id smaller. */
  lemma ExpandKeepsLeaves(link: Linkage, ids: seq<int>, id: int)
    requires Valid(link) && IsId(link, id) && AreIds(link, ids)
    ensures AreIds(link, ids + Expand(link, id))
    ensures AllLeaves(link, ids + Expand(link, id)) == AllLeaves(link, ids) + Leaves(link, id)
  {
    hide Valid, Leaves, AllLeaves;
    ExpandSmaller(link, id);
    if id >= Items(link) {
      var row := link[id - Items(link)];
      LeavesOfCluster(link, id);
      AllLeavesAppend(link, ids, row.0);
      AllLeavesAppend(link, ids + [row.0], row.1);
      assert ids + Expand(link, id) == ids + [row.0] + [row.1];
      assert AllLeaves(link, ids) + Leaves(link, row.0) + Leaves(link, row.1)
          == AllLeaves(link, ids) + (Leaves(link, row.0) + Leaves(link, row.1));
    } else {
      AllLeavesAppend(link, ids, id);
    }
  }

  lemma {:induction false} ItemsAreTheirLeaves(link: Linkage, ids: seq<int>)
    requires Valid(link) && forall k :: 0 <= k < |ids| ==> 0 <= ids[k] < Items(link)
    ensures AreIds(link, ids) && AllLeaves(link, ids) == ids
  {
    if ids != [] {
      ItemsAreTheirLeaves(link, ids[..|ids| - 1]);
    }
  }

  /** One pass over the list. */
  method ExpandAll(link: Linkage, ids: seq<int>) returns (result: seq<int>)
    requires Valid(link) && ids != [] && AreIds(link, ids)
    requires Max(ids) >= Items(link)
    ensures result != [] && AreIds(link, result)
    ensures AllLeaves(link, result) == AllLeaves(link, ids)
    ensures Max(result) < Max(ids)
  {
    hide Valid, Leaves, AllLeaves, Max;
    result := [];
    MaxBounds(ids);
    for k := 0 to |ids|
      invariant k > 0 ==> result != []
      invariant AreIds(link, result) && forall j :: 0 <= j < |result| ==> result[j] < Max(ids)
      invariant AllLeaves(link, result) == AllLeaves(link, ids[..k])
    {
      ExpandSmaller(link, ids[k]);
      ExpandKeepsLeaves(link, result, ids[k]);
      AllLeavesAppend(link, ids[..k], ids[k]);
      assert ids[..k + 1] == ids[..k] + [ids[k]];
      result := result + Expand(link, ids[k]);
    }
    assert ids[..|ids|] == ids;
    MaxBounds(result);
  }

  lemma FirstPass(link: Linkage)
    requires Valid(link)
    ensures link != [] && AreIds(link, [link[|link| - 1].0, link[|link| - 1].1])
    ensures AllLeaves(link, [link[|link| - 1].0, link[|link| - 1].1]) == Leaves(link, Root(link))
  {
    assert link != [] && AllLeaves(link, []) == [];
    hide Valid, AllLeaves, Leaves;
    var last := link[|link| - 1];
    ExpandKeepsLeaves(link, [], Root(link));
    assert [] + Expand(link, Root(link)) == [last.0, last.1];
    assert [] + Leaves(link, Root(link)) == Leaves(link, Root(link));
  }

  /** The pass-by-pass expansion ends, since the largest id falls in every pass, with the leaf order. */
  method Flatten(link: Linkage) returns (order: seq<int>)
    requires Valid(link)
    ensures order == Leaves(link, Root(link))
    ensures multiset(order) == multiset(seq(Items(link), i => i))
  {
    FirstPass(link);
    hide Valid, Leaves, AllLeaves, Max;
    var last := link[|link| - 1];
    order := [last.0, last.1];
    while Max(order) >= Items(link)
      invariant order != [] && AreIds(link, order)
      invariant AllLeaves(link, order) == Leaves(link, Root(link))
      decreases Max(order)
    {
      order := ExpandAll(link, order);
      if Max(order) < Items(link) {
        break;
      }
    }
    MaxBounds(order);
    ItemsAreTheirLeaves(link, order);
    LeavesArePermutation(link);
  }
}
