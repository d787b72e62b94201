/**
 * The parse-tree nodes the translation pass rewrites.
 *
 * `jasy.parser.Node` is not part of this model; this module gives the few
 * operations lib/jasy/core/Translation.py uses (`Node(None, kind)`, child
 * indexing and length, `append` with an optional role, `replace`, deep copy
 * and the `value`/`parenthesized` attributes) over an arena: a map from node
 * ids to node records.  Each record keeps its children in order (an absent
 * child, written `None` in the source, is a hole), its parent and the role
 * name it plays there.
 *
 * `append` and `replace` are ASSUMED to move a node that already has a
 * parent: it leaves its old parent's child list first.  The `trn` rewrite
 * appends `params[2]`, `params[1]` and `params[0]`, in that order, so its
 * indices stay valid either way; what the assumption decides is the
 * argument list of the replaced call, which keeps only the arguments after
 * the count.
 *
 * A ghost rank per node, strictly decreasing from parent to child and never
 * below a ghost floor, witnesses that the links form a forest and gives the
 * recursion of `ViewOf` its measure.
 */
module Nodes {
  import opened Wrappers

  type Id = nat

  /** The `value` attribute: absent, a string, or a number. */
  datatype Value = NoValue | Text(text: string) | Number(n: int)

  datatype NodeData = NodeData(
    kind: string,
    value: Value,
    line: Option<nat>,
    parenthesized: bool,
    children: seq<Option<Id>>,
    parent: Option<Id>,
    rel: Option<string>)

  /**
   * The value of a subtree: what a deep copy reproduces.  Parent links and
   * role names are not part of it.
   */
  datatype Shape = Shape(
    kind: string,
    value: Value,
    line: Option<nat>,
    parenthesized: bool,
    children: seq<Option<Shape>>)

  /** Two records agree on everything a subtree's shape depends on. */
  predicate SameCore(a: NodeData, b: NodeData) {
    a.kind == b.kind && a.value == b.value && a.line == b.line &&
    a.parenthesized == b.parenthesized && a.children == b.children
  }

  // ---------------------------------------------------------------------
  // Well-formedness
  // ---------------------------------------------------------------------

  // Each quantified fact is stated through a named predicate that serves as
  // its trigger, so that it is only instantiated where a proof names it.

  /** Record `k` has a rank, no lower than `floor`. */
  ghost predicate RankedNode(m: map<Id, NodeData>, rank: map<Id, int>, floor: int, k: Id) {
    k in m && k in rank ==> floor <= rank[k]
  }

  /** Entry `i` of `p`'s list, when present, names a record of smaller rank. */
  ghost predicate RankedEdge(m: map<Id, NodeData>, rank: map<Id, int>, p: Id, i: int) {
    p in m && 0 <= i < |m[p].children| && m[p].children[i].Some? ==>
      m[p].children[i].value in m && p in rank && m[p].children[i].value in rank &&
      rank[m[p].children[i].value] < rank[p]
  }

  ghost predicate Ranked(m: map<Id, NodeData>, rank: map<Id, int>, floor: int) {
    m.Keys <= rank.Keys &&
    (forall k :: RankedNode(m, rank, floor, k)) && (forall p, i :: RankedEdge(m, rank, p, i))
  }

  /** Entry `i` of `p`'s list, when present, names a record whose parent is `p`. */
  ghost predicate LinkedEdge(m: map<Id, NodeData>, p: Id, i: int) {
    p in m && 0 <= i < |m[p].children| && m[p].children[i].Some? ==>
      m[p].children[i].value in m && m[m[p].children[i].value].parent == Some(p)
  }

  /** The parent of `c`, when it has one, lists `c`. */
  ghost predicate Backed(m: map<Id, NodeData>, c: Id) {
    c in m && m[c].parent.Some? ==> m[c].parent.value in m && Some(c) in m[m[c].parent.value].children
  }

  ghost predicate DistinctList(m: map<Id, NodeData>, p: Id) {
    p in m ==> Distinct(m[p].children)
  }

  /** Parent links and child lists describe the same edges, and no list names a node twice. */
  ghost predicate Linked(m: map<Id, NodeData>) {
    (forall p, i :: LinkedEdge(m, p, i)) && (forall c :: Backed(m, c)) && (forall p :: DistinctList(m, p))
  }

  predicate Distinct(ch: seq<Option<Id>>) {
    forall i, j :: 0 <= i < j < |ch| && ch[i].Some? ==> ch[i] != ch[j]
  }

  ghost predicate WellFormed(m: map<Id, NodeData>, rank: map<Id, int>, floor: int) {
    Ranked(m, rank, floor) && Linked(m)
  }

  // ---------------------------------------------------------------------
  // The shape of a subtree
  // ---------------------------------------------------------------------

  ghost function ViewOf(m: map<Id, NodeData>, rank: map<Id, int>, floor: int, k: Id): (s: Shape)
    requires Ranked(m, rank, floor) && k in m
    ensures s.kind == m[k].kind && s.value == m[k].value && s.line == m[k].line
    ensures s.parenthesized == m[k].parenthesized
    ensures |s.children| == |m[k].children|
    ensures forall i :: 0 <= i < |s.children| ==> s.children[i].Some? == m[k].children[i].Some?
    decreases rank[k] - floor
  {
    assert RankedNode(m, rank, floor, k);
    var ch := m[k].children;
    Shape(m[k].kind, m[k].value, m[k].line, m[k].parenthesized,
      seq(|ch|, i requires 0 <= i < |ch| =>
        if ch[i].Some? then
          assert RankedEdge(m, rank, k, i) && RankedNode(m, rank, floor, ch[i].value);
          Some(ViewOf(m, rank, floor, ch[i].value))
        else None))
  }

  /**
   * The shape of a subtree depends only on the records below it: two arenas
   * that agree on the root and on every node of smaller rank give it the same
   * shape, whatever the ranks and floors of the second arena.
   */
  lemma {:induction false} ViewFrame(m1: map<Id, NodeData>, r1: map<Id, int>, f1: int,
                                     m2: map<Id, NodeData>, r2: map<Id, int>, f2: int, k: Id)
    requires Ranked(m1, r1, f1) && Ranked(m2, r2, f2)
    requires k in m1 && k in m2 && SameCore(m1[k], m2[k])
    requires forall j :: j in m1 && r1[j] < r1[k] ==> j in m2 && SameCore(m1[j], m2[j])
    ensures ViewOf(m1, r1, f1, k) == ViewOf(m2, r2, f2, k)
    decreases r1[k] - f1
  {
    var ch := m1[k].children;
    var v1 := ViewOf(m1, r1, f1, k);
    var v2 := ViewOf(m2, r2, f2, k);
    forall i | 0 <= i < |ch|
      ensures v1.children[i] == v2.children[i]
    {
      if ch[i].Some? {
        assert RankedEdge(m1, r1, k, i) && RankedNode(m1, r1, f1, ch[i].value) && RankedNode(m1, r1, f1, k);
        ViewFrame(m1, r1, f1, m2, r2, f2, ch[i].value);
      }
    }
  }

  /** Entry `i` of `k`'s shape is the shape of `k`'s `i`-th child, or a hole. */
  lemma ViewChild(m: map<Id, NodeData>, rank: map<Id, int>, floor: int, k: Id, i: nat)
    requires Ranked(m, rank, floor) && k in m && i < |m[k].children|
    ensures m[k].children[i].Some? ==>
      m[k].children[i].value in m &&
      ViewOf(m, rank, floor, k).children[i] == Some(ViewOf(m, rank, floor, m[k].children[i].value))
    ensures m[k].children[i].None? ==> ViewOf(m, rank, floor, k).children[i].None?
  {
    assert RankedEdge(m, rank, k, i);
  }

  // ---------------------------------------------------------------------
  // The edits, on the map of records
  // ---------------------------------------------------------------------

  /** The first position of `Some(c)` in a child list (`list.index`). */
  function IndexOf(ch: seq<Option<Id>>, c: Id): (i: nat)
    requires Some(c) in ch
    ensures i < |ch| && ch[i] == Some(c)
    ensures forall j :: 0 <= j < i ==> ch[j] != Some(c)
  {
    if ch[0] == Some(c) then 0 else 1 + IndexOf(ch[1..], c)
  }

  function RemoveAt(ch: seq<Option<Id>>, i: nat): (r: seq<Option<Id>>)
    requires i < |ch|
    ensures |r| == |ch| - 1
    ensures forall j :: 0 <= j < |r| ==> r[j] == (if j < i then ch[j] else ch[j + 1])
  {
    ch[..i] + ch[i + 1..]
  }

  /** Entry `i` of `p`'s list is not `c`. */
  ghost predicate Unlisted(m: map<Id, NodeData>, c: Id, p: Id, i: int) {
    p in m && 0 <= i < |m[p].children| ==> m[p].children[i] != Some(c)
  }

  /** No child list names `c`. */
  ghost predicate Orphan(m: map<Id, NodeData>, c: Id) {
    forall p, i :: Unlisted(m, c, p, i)
  }

  /** `c` leaves the child list of its parent, if it has one, and forgets that parent. */
  function Detached(m: map<Id, NodeData>, c: Id): (r: map<Id, NodeData>)
    requires c in m
    ensures r.Keys == m.Keys
    ensures r[c] == m[c].(parent := None)
  {
    var q := m[c].parent;
    if q.Some? && q.value in m && q.value != c && Some(c) in m[q.value].children then
      var ch := m[q.value].children;
      m[q.value := m[q.value].(children := RemoveAt(ch, IndexOf(ch, c)))][c := m[c].(parent := None)]
    else m[c := m[c].(parent := None)]
  }

  /** Detaching `c` leaves every other entry of every list in place. */
  lemma DetachedKeeps(m: map<Id, NodeData>, c: Id, p: Id, x: Option<Id>)
    requires c in m && p in m && x in m[p].children && x != Some(c)
    ensures x in Detached(m, c)[p].children
  {
    var q := m[c].parent;
    if q.Some? && q.value == p && p != c && Some(c) in m[p].children {
      var ch := m[p].children;
      var i := IndexOf(ch, c);
      var j :| 0 <= j < |ch| && ch[j] == x;
      if j < i {
        assert RemoveAt(ch, i)[j] == x;
      } else {
        assert RemoveAt(ch, i)[j - 1] == x;
      }
    }
  }

  /** `p.append(c, role)`: `c` moves to the end of `p`'s child list. */
  function Appended(m: map<Id, NodeData>, p: Id, c: Id, role: Option<string>): (r: map<Id, NodeData>)
    requires p in m && c in m && p != c
    ensures r.Keys == m.Keys
  {
    Attached(Detached(m, c), p, c, role)
  }

  /** The second half of `append`: the detached `c` joins the end of `p`'s list. */
  function Attached(d: map<Id, NodeData>, p: Id, c: Id, role: Option<string>): (r: map<Id, NodeData>)
    requires p in d && c in d && p != c
    ensures r.Keys == d.Keys
  {
    d[p := d[p].(children := d[p].children + [Some(c)])]
     [c := d[c].(parent := Some(p), rel := if role.Some? then role else d[c].rel)]
  }

  /** `p.append(None)`: a hole at the end of `p`'s child list. */
  function AppendedHole(m: map<Id, NodeData>, p: Id): (r: map<Id, NodeData>)
    requires p in m
    ensures r.Keys == m.Keys
  {
    m[p := m[p].(children := m[p].children + [None])]
  }

  /**
   * `p.replace(kid, repl)`: `repl` leaves its old place and takes `kid`'s
   * position and role in `p`; `kid` is left without parent and role.
   */
  function Replaced(m: map<Id, NodeData>, p: Id, kid: Id, repl: Id): (r: map<Id, NodeData>)
    requires p in m && kid in m && repl in m
    requires Some(kid) in m[p].children && kid != repl && repl != p && kid != p
    ensures r.Keys == m.Keys
  {
    DetachedKeeps(m, repl, p, Some(kid));
    Put(Detached(m, repl), p, kid, repl)
  }

  /** The second half of `replace`: the detached `repl` takes `kid`'s slot and role. */
  function Put(d: map<Id, NodeData>, p: Id, kid: Id, repl: Id): (r: map<Id, NodeData>)
    requires p in d && kid in d && repl in d
    requires Some(kid) in d[p].children && kid != repl && repl != p && kid != p
    ensures r.Keys == d.Keys
  {
    var i := IndexOf(d[p].children, kid);
    d[p := d[p].(children := d[p].children[i := Some(repl)])]
     [kid := d[kid].(parent := None, rel := None)]
     [repl := d[repl].(parent := Some(p), rel := d[kid].rel)]
  }

  // ---------------------------------------------------------------------
  // The edits keep the arena well formed
  // ---------------------------------------------------------------------

  lemma DistinctRemoveAt(ch: seq<Option<Id>>, k: nat)
    requires Distinct(ch) && k < |ch|
    ensures Distinct(RemoveAt(ch, k))
  {
    var r := RemoveAt(ch, k);
    forall i, j | 0 <= i < j < |r| && r[i].Some? ensures r[i] != r[j] {
      var i' := if i < k then i else i + 1;
      var j' := if j < k then j else j + 1;
      assert r[i] == ch[i'] && r[j] == ch[j'];
    }
  }

  lemma DistinctSnoc(ch: seq<Option<Id>>, e: Option<Id>)
    requires Distinct(ch) && (e.Some? ==> forall i :: 0 <= i < |ch| ==> ch[i] != e)
    ensures Distinct(ch + [e])
  {
  }

  lemma DistinctPut(ch: seq<Option<Id>>, k: nat, e: Id)
    requires Distinct(ch) && k < |ch| && forall i :: 0 <= i < |ch| ==> ch[i] != Some(e)
    ensures Distinct(ch[k := Some(e)])
  {
  }

  /** A well-formed arena lists a node only in its parent's list. */
  lemma ListedOnlyByParent(m: map<Id, NodeData>, rank: map<Id, int>, floor: int, c: Id, p: Id, i: nat)
    requires WellFormed(m, rank, floor) && p in m && i < |m[p].children| && m[p].children[i] == Some(c)
    ensures c in m && m[c].parent == Some(p)
  {
    assert LinkedEdge(m, p, i);
  }

  lemma ParentlessIsOrphan(m: map<Id, NodeData>, rank: map<Id, int>, floor: int, c: Id)
    requires WellFormed(m, rank, floor) && c in m && m[c].parent.None?
    ensures Orphan(m, c)
  {
    forall p, i ensures Unlisted(m, c, p, i) {
      assert LinkedEdge(m, p, i);
    }
  }

  lemma ParentIsNotSelf(m: map<Id, NodeData>, rank: map<Id, int>, floor: int, c: Id)
    requires WellFormed(m, rank, floor) && c in m && m[c].parent.Some?
    ensures m[c].parent.value in m && m[c].parent.value != c && Some(c) in m[m[c].parent.value].children
  {
    assert Backed(m, c);
    var q := m[c].parent.value;
    var i :| 0 <= i < |m[q].children| && m[q].children[i] == Some(c);
    assert RankedEdge(m, rank, q, i);
  }

  lemma DetachedWellFormed(m: map<Id, NodeData>, rank: map<Id, int>, floor: int, c: Id)
    requires WellFormed(m, rank, floor) && c in m
    ensures WellFormed(Detached(m, c), rank, floor)
    ensures Orphan(Detached(m, c), c)
  {
    if m[c].parent.None? {
      assert Detached(m, c) == m;
      ParentlessIsOrphan(m, rank, floor, c);
    } else {
      ParentIsNotSelf(m, rank, floor, c);
      DetachedLists(m, rank, floor, c);
      DetachedParents(m, rank, floor, c);
    }
  }

  /** Detaching `c` changes `c`'s parent link and its old parent's list, and nothing else. */
  lemma DetachedFrame(m: map<Id, NodeData>, rank: map<Id, int>, floor: int, c: Id)
    requires WellFormed(m, rank, floor) && c in m
    ensures forall j :: j in m && j != c && Some(j) != m[c].parent ==> Detached(m, c)[j] == m[j]
    ensures m[c].parent.Some? ==>
      var q := m[c].parent.value;
      q in m && q != c && Some(c) in m[q].children &&
      Detached(m, c)[q] == m[q].(children := RemoveAt(m[q].children, IndexOf(m[q].children, c)))
  {
    if m[c].parent.Some? {
      ParentIsNotSelf(m, rank, floor, c);
    }
  }

  /** Removing `c` from its parent's list: the lists stay ranked, linked, distinct, and none names `c`. */
  lemma DetachedLists(m: map<Id, NodeData>, rank: map<Id, int>, floor: int, c: Id)
    requires WellFormed(m, rank, floor) && c in m && m[c].parent.Some?
    requires m[c].parent.value in m && m[c].parent.value != c && Some(c) in m[m[c].parent.value].children
    ensures Ranked(Detached(m, c), rank, floor)
    ensures forall p, i :: LinkedEdge(Detached(m, c), p, i)
    ensures forall p :: DistinctList(Detached(m, c), p)
    ensures Orphan(Detached(m, c), c)
  {
    var r := Detached(m, c);
    var q := m[c].parent.value;
    var ch := m[q].children;
    var k := IndexOf(ch, c);
    assert r[q].children == RemoveAt(ch, k);
    assert DistinctList(m, q);
    forall p, i ensures RankedEdge(r, rank, p, i) && LinkedEdge(r, p, i) && Unlisted(r, c, p, i) {
      if p in r && 0 <= i < |r[p].children| {
        var j := if p == q && i >= k then i + 1 else i;
        assert r[p].children[i] == m[p].children[j];
        assert RankedEdge(m, rank, p, j) && LinkedEdge(m, p, j);
        assert p == q ==> j != k;
      }
    }
    forall n ensures RankedNode(r, rank, floor, n) {
      assert RankedNode(m, rank, floor, n);
    }
    forall p ensures DistinctList(r, p) {
      assert DistinctList(m, p);
      if p == q {
        DistinctRemoveAt(ch, k);
      }
    }
  }

  /** After removing `c` from its parent's list, every remaining parent link is backed by a list entry. */
  lemma DetachedParents(m: map<Id, NodeData>, rank: map<Id, int>, floor: int, c: Id)
    requires WellFormed(m, rank, floor) && c in m && m[c].parent.Some? && m[c].parent.value != c
    ensures forall x :: Backed(Detached(m, c), x)
  {
    var r := Detached(m, c);
    forall x ensures Backed(r, x) {
      if x in r && r[x].parent.Some? {
        assert Backed(m, x);
      }
    }
  }

  lemma AppendedWellFormed(m: map<Id, NodeData>, rank: map<Id, int>, floor: int, p: Id, c: Id, role: Option<string>)
    requires WellFormed(m, rank, floor) && p in m && c in m && rank[c] < rank[p]
    ensures WellFormed(Appended(m, p, c, role), rank, floor)
  {
    DetachedWellFormed(m, rank, floor, c);
    AttachedWellFormed(Detached(m, c), rank, floor, p, c, role);
  }

  lemma AttachedWellFormed(d: map<Id, NodeData>, rank: map<Id, int>, floor: int, p: Id, c: Id, role: Option<string>)
    requires WellFormed(d, rank, floor) && p in d && c in d && rank[c] < rank[p]
    requires Orphan(d, c) && d[c].parent.None?
    ensures WellFormed(Attached(d, p, c, role), rank, floor)
  {
    var r := Attached(d, p, c, role);
    var n := |d[p].children|;
    assert r[p].children == d[p].children + [Some(c)];
    forall x, i ensures RankedEdge(r, rank, x, i) && LinkedEdge(r, x, i) {
      if x in r && 0 <= i < |r[x].children| && !(x == p && i == n) {
        assert r[x].children[i] == d[x].children[i];
        assert RankedEdge(d, rank, x, i) && LinkedEdge(d, x, i) && Unlisted(d, c, x, i);
      }
    }
    forall x ensures Backed(r, x) {
      if x in r && x != c && r[x].parent.Some? {
        assert Backed(d, x);
        var y := d[x].parent.value;
        assert d[y].children <= r[y].children;
      }
    }
    forall x ensures RankedNode(r, rank, floor, x) {
      assert RankedNode(d, rank, floor, x);
    }
    forall x ensures DistinctList(r, x) {
      assert DistinctList(d, x);
      if x == p {
        forall i | 0 <= i < n ensures d[p].children[i] != Some(c) {
          assert Unlisted(d, c, p, i);
        }
        DistinctSnoc(d[p].children, Some(c));
      }
    }
  }

  /** Appending changes `p`'s list, `c`'s parent and role, and the list `c` leaves; nothing else. */
  lemma AppendedFrame(m: map<Id, NodeData>, rank: map<Id, int>, floor: int, p: Id, c: Id, role: Option<string>)
    requires WellFormed(m, rank, floor) && p in m && c in m && rank[c] < rank[p]
    ensures SameCore(Appended(m, p, c, role)[c], m[c])
    ensures forall j :: j in m && j != p && j != c && Some(j) != m[c].parent ==> Appended(m, p, c, role)[j] == m[j]
    ensures m[c].parent != Some(p) ==>
      Appended(m, p, c, role)[p] == m[p].(children := m[p].children + [Some(c)])
    ensures Appended(m, p, c, role)[c] == m[c].(parent := Some(p), rel := if role.Some? then role else m[c].rel)
    ensures m[c].parent.Some? && m[c].parent != Some(p) ==>
      var q := m[c].parent.value;
      q in m && Some(c) in m[q].children &&
      Appended(m, p, c, role)[q] == m[q].(children := RemoveAt(m[q].children, IndexOf(m[q].children, c)))
  {
    DetachedFrame(m, rank, floor, c);
    if m[c].parent.Some? {
      ParentIsNotSelf(m, rank, floor, c);
    }
  }

  /** Detaching shortens at most the list the node leaves. */
  lemma DetachedNoGrowth(m: map<Id, NodeData>, c: Id)
    requires c in m
    ensures NoGrowth(m, Detached(m, c))
  {
  }

  /** Replacing never lengthens a list. */
  lemma ReplacedNoGrowth(m: map<Id, NodeData>, p: Id, kid: Id, repl: Id)
    requires p in m && kid in m && repl in m
    requires Some(kid) in m[p].children && kid != repl && repl != p && kid != p
    ensures NoGrowth(m, Replaced(m, p, kid, repl))
  {
    var d := Detached(m, repl);
    DetachedNoGrowth(m, repl);
    DetachedKeeps(m, repl, p, Some(kid));
    assert forall j :: j in d ==> |Put(d, p, kid, repl)[j].children| == |d[j].children|;
  }

  lemma AppendedHoleWellFormed(m: map<Id, NodeData>, rank: map<Id, int>, floor: int, p: Id)
    requires WellFormed(m, rank, floor) && p in m
    ensures WellFormed(AppendedHole(m, p), rank, floor)
  {
    var r := AppendedHole(m, p);
    var n := |m[p].children|;
    forall x, i ensures RankedEdge(r, rank, x, i) && LinkedEdge(r, x, i) {
      if x in r && 0 <= i < |r[x].children| && !(x == p && i == n) {
        assert r[x].children[i] == m[x].children[i];
        assert RankedEdge(m, rank, x, i) && LinkedEdge(m, x, i);
      }
    }
    forall x ensures Backed(r, x) {
      if x in r && r[x].parent.Some? {
        assert Backed(m, x);
        var y := m[x].parent.value;
        assert m[y].children <= r[y].children;
      }
    }
    forall x ensures RankedNode(r, rank, floor, x) {
      assert RankedNode(m, rank, floor, x);
    }
    forall x ensures DistinctList(r, x) {
      assert DistinctList(m, x);
    }
  }

  lemma ReplacedWellFormed(m: map<Id, NodeData>, rank: map<Id, int>, floor: int, p: Id, kid: Id, repl: Id)
    requires WellFormed(m, rank, floor) && p in m && kid in m && repl in m
    requires Some(kid) in m[p].children && kid != repl && rank[repl] < rank[p]
    ensures kid != p
    ensures WellFormed(Replaced(m, p, kid, repl), rank, floor)
  {
    var i :| 0 <= i < |m[p].children| && m[p].children[i] == Some(kid);
    assert RankedEdge(m, rank, p, i) && LinkedEdge(m, p, i);
    DetachedWellFormed(m, rank, floor, repl);
    DetachedFrame(m, rank, floor, repl);
    var d := Detached(m, repl);
    PutWellFormed(d, rank, floor, p, kid, repl);
  }

  lemma PutWellFormed(d: map<Id, NodeData>, rank: map<Id, int>, floor: int, p: Id, kid: Id, repl: Id)
    requires WellFormed(d, rank, floor) && p in d && kid in d && repl in d
    requires Some(kid) in d[p].children && kid != repl && repl != p && kid != p && rank[repl] < rank[p]
    requires Orphan(d, repl) && d[repl].parent.None? && d[kid].parent == Some(p)
    ensures WellFormed(Put(d, p, kid, repl), rank, floor)
  {
    var r := Put(d, p, kid, repl);
    var k := IndexOf(d[p].children, kid);
    assert r[p].children == d[p].children[k := Some(repl)];
    assert DistinctList(d, p);
    forall x, i ensures RankedEdge(r, rank, x, i) && LinkedEdge(r, x, i) {
      if x in r && 0 <= i < |r[x].children| && !(x == p && i == k) {
        assert r[x].children[i] == d[x].children[i];
        assert RankedEdge(d, rank, x, i) && LinkedEdge(d, x, i) && Unlisted(d, repl, x, i);
        assert x == p ==> d[x].children[i] != Some(kid);
      }
    }
    forall x ensures Backed(r, x) {
      if x == repl {
        assert r[p].children[k] == Some(repl);
      } else if x in r && x != kid && r[x].parent.Some? {
        assert r[x].parent == d[x].parent;
        assert Backed(d, x);
        var y := d[x].parent.value;
        var j :| 0 <= j < |d[y].children| && d[y].children[j] == Some(x);
        assert y == p ==> j != k;
        assert r[y].children[j] == Some(x);
        assert Some(x) in r[y].children;
      }
    }
    forall x ensures RankedNode(r, rank, floor, x) {
      assert RankedNode(d, rank, floor, x);
    }
    forall x ensures DistinctList(r, x) {
      assert DistinctList(d, x);
      if x == p {
        forall i | 0 <= i < |d[p].children| ensures d[p].children[i] != Some(repl) {
          assert Unlisted(d, repl, p, i);
        }
        DistinctPut(d[p].children, k, repl);
      }
    }
  }

  /**
   * Replacing changes `p`'s list, the parent links and roles of `kid` and
   * `repl`, and the list `repl` leaves; nothing else.
   */
  lemma ReplacedFrame(m: map<Id, NodeData>, rank: map<Id, int>, floor: int, p: Id, kid: Id, repl: Id)
    requires WellFormed(m, rank, floor) && p in m && kid in m && repl in m
    requires Some(kid) in m[p].children && kid != repl && rank[repl] < rank[p]
    ensures kid != p
    ensures forall j :: j in m && j != p && j != kid && j != repl && Some(j) != m[repl].parent ==>
      Replaced(m, p, kid, repl)[j] == m[j]
    ensures forall j :: j in m && j != p && Some(j) != m[repl].parent ==>
      SameCore(Replaced(m, p, kid, repl)[j], m[j])
    ensures m[repl].parent != Some(p) ==>
      Replaced(m, p, kid, repl)[p] == m[p].(children := m[p].children[IndexOf(m[p].children, kid) := Some(repl)])
  {
    var i :| 0 <= i < |m[p].children| && m[p].children[i] == Some(kid);
    assert kid != p by {
      assert RankedEdge(m, rank, p, i);
    }
    var d := Detached(m, repl);
    var r := Put(d, p, kid, repl);
    assert Replaced(m, p, kid, repl) == r;
    assert forall j :: j in m && j != repl && Some(j) != m[repl].parent ==> d[j] == m[j] by {
      DetachedFrame(m, rank, floor, repl);
    }
    assert SameCore(d[repl], m[repl]);
    assert Some(kid) in d[p].children;
    assert forall j :: j in d && j != p && j != kid && j != repl ==> r[j] == d[j] by {
      PutFrame(d, p, kid, repl);
    }
    assert SameCore(r[kid], d[kid]) && SameCore(r[repl], d[repl]) by {
      PutFrame(d, p, kid, repl);
    }
    assert r[p] == d[p].(children := d[p].children[IndexOf(d[p].children, kid) := Some(repl)]) by {
      PutFrame(d, p, kid, repl);
    }
    forall j | j in m && j != p && j != kid && j != repl && Some(j) != m[repl].parent ensures r[j] == m[j] {
      assert r[j] == d[j];
    }
    forall j | j in m && j != p && Some(j) != m[repl].parent ensures SameCore(r[j], m[j]) {
      if j != kid && j != repl {
        assert r[j] == d[j];
      }
    }
  }

  /** After replacing, `repl` hangs under `p` in `kid`'s role and `kid` has no parent. */
  lemma ReplacedLinks(m: map<Id, NodeData>, rank: map<Id, int>, floor: int, p: Id, kid: Id, repl: Id)
    requires WellFormed(m, rank, floor) && p in m && kid in m && repl in m
    requires Some(kid) in m[p].children && kid != repl && kid != p && repl != p
    ensures Replaced(m, p, kid, repl)[repl].parent == Some(p)
    ensures Replaced(m, p, kid, repl)[repl].rel == m[kid].rel
    ensures Replaced(m, p, kid, repl)[kid].parent.None?
    ensures m[repl].parent.None? ==> Replaced(m, p, kid, repl)[kid] == m[kid].(parent := None, rel := None)
    ensures m[repl].parent.None? ==> Replaced(m, p, kid, repl)[repl] == m[repl].(parent := Some(p), rel := m[kid].rel)
  {
    var d := Detached(m, repl);
    assert d[kid].rel == m[kid].rel by {
      DetachedFrame(m, rank, floor, repl);
    }
    assert m[repl].parent.None? ==> d == m[repl := m[repl].(parent := None)];
    assert Some(kid) in d[p].children;
    PutFrame(d, p, kid, repl);
  }

  lemma PutFrame(d: map<Id, NodeData>, p: Id, kid: Id, repl: Id)
    requires p in d && kid in d && repl in d
    requires Some(kid) in d[p].children && kid != repl && repl != p && kid != p
    ensures SameCore(Put(d, p, kid, repl)[kid], d[kid]) && SameCore(Put(d, p, kid, repl)[repl], d[repl])
    ensures forall j :: j in d && j != p && j != kid && j != repl ==> Put(d, p, kid, repl)[j] == d[j]
    ensures Put(d, p, kid, repl)[p] == d[p].(children := d[p].children[IndexOf(d[p].children, kid) := Some(repl)])
    ensures Put(d, p, kid, repl)[repl].parent == Some(p)
    ensures Put(d, p, kid, repl)[repl].rel == d[kid].rel
    ensures Put(d, p, kid, repl)[kid].parent.None?
  {
  }

  /**
   * A subtree keeps its shape when every record that changed, among those
   * the first arena had, ranks at least as high as its root and is not the root.
   */
  lemma ViewKept(m1: map<Id, NodeData>, r1: map<Id, int>, f1: int,
                 m2: map<Id, NodeData>, r2: map<Id, int>, f2: int, k: Id, changed: set<Id>)
    requires Ranked(m1, r1, f1) && Ranked(m2, r2, f2) && k in m1 && k !in changed
    requires forall j :: j in m1 && j !in changed ==> j in m2 && SameCore(m1[j], m2[j])
    requires forall j :: j in changed && j in m1 ==> r1[k] <= r1[j]
    ensures ViewOf(m1, r1, f1, k) == ViewOf(m2, r2, f2, k)
  {
    ViewFrame(m1, r1, f1, m2, r2, f2, k);
  }

  /**
   * `n`, which had no parent, holds `kid`'s slot and role in `kid`'s old
   * parent; `kid` has neither; no other record changed.
   */
  ghost predicate Substituted(m1: map<Id, NodeData>, m2: map<Id, NodeData>, kid: Id, n: Id) {
    kid in m1 && n in m1 && n != kid && m1[kid].parent.Some? && m1[n].parent.None? && m2.Keys == m1.Keys &&
    var p := m1[kid].parent.value;
    p in m1 && p != kid && p != n && Some(kid) in m1[p].children &&
    m2[p] == m1[p].(children := m1[p].children[IndexOf(m1[p].children, kid) := Some(n)]) &&
    m2[n] == m1[n].(parent := Some(p), rel := m1[kid].rel) &&
    m2[kid] == m1[kid].(parent := None, rel := None) &&
    forall j :: j in m1 && j != kid && j != n && j != p ==> m2[j] == m1[j]
  }

  /**
   * `kid` has left its parent's list for `n`: `n` holds `kid`'s slot and
   * role and `kid` has no parent.
   */
  ghost predicate Placed(m1: map<Id, NodeData>, m2: map<Id, NodeData>, kid: Id, n: Id) {
    kid in m1 && m1[kid].parent.Some? && m1[kid].parent.value in m1 &&
    var p := m1[kid].parent.value;
    Some(kid) in m1[p].children && p in m2 && kid in m2 && n in m2 &&
    m2[p] == m1[p].(children := m1[p].children[IndexOf(m1[p].children, kid) := Some(n)]) &&
    m2[n].parent == Some(p) && m2[n].rel == m1[kid].rel && m2[kid].parent.None?
  }

  /** Replacing `kid` by `n`, a child of a record ranked below `kid`: the whole effect. */
  lemma ReplacedListed(m: map<Id, NodeData>, rank: map<Id, int>, floor: int, p: Id, kid: Id, n: Id)
    requires WellFormed(m, rank, floor) && kid in m && n in m && m[kid].parent == Some(p)
    requires m[n].parent.Some? && m[n].parent.value in rank && rank[m[n].parent.value] < rank[kid]
    ensures p in m && Some(kid) in m[p].children && p != kid && n != kid && p != n
    ensures WellFormed(Replaced(m, p, kid, n), rank, floor) && Replaced(m, p, kid, n).Keys == m.Keys
    ensures NoGrowth(m, Replaced(m, p, kid, n))
    ensures Placed(m, Replaced(m, p, kid, n), kid, n)
    ensures ViewOf(Replaced(m, p, kid, n), rank, floor, n) == ViewOf(m, rank, floor, n)
  {
    ParentRanksAbove(m, rank, floor, kid);
    ParentRanksAbove(m, rank, floor, n);
    var q := m[n].parent.value;
    var r := Replaced(m, p, kid, n);
    assert WellFormed(r, rank, floor) by {
      ReplacedWellFormed(m, rank, floor, p, kid, n);
    }
    assert forall j :: j in m && j != p && j != q ==> j in r && SameCore(m[j], r[j]) by {
      ReplacedFrame(m, rank, floor, p, kid, n);
    }
    assert r[p] == m[p].(children := m[p].children[IndexOf(m[p].children, kid) := Some(n)]) by {
      ReplacedFrame(m, rank, floor, p, kid, n);
    }
    ReplacedLinks(m, rank, floor, p, kid, n);
    ReplacedNoGrowth(m, p, kid, n);
    ViewKept(m, rank, floor, r, rank, floor, n, {p, q});
  }

  /** Replacing `kid` by a parentless `n` ranked like it: the whole effect. */
  lemma ReplacedParentless(m: map<Id, NodeData>, rank: map<Id, int>, floor: int, p: Id, kid: Id, n: Id)
    requires WellFormed(m, rank, floor) && kid in m && n in m && n != kid
    requires m[n].parent.None? && rank[n] == rank[kid] && m[kid].parent == Some(p)
    ensures p in m && Some(kid) in m[p].children && p != kid && p != n
    ensures WellFormed(Replaced(m, p, kid, n), rank, floor)
    ensures NoGrowth(m, Replaced(m, p, kid, n))
    ensures Substituted(m, Replaced(m, p, kid, n), kid, n)
    ensures ViewOf(Replaced(m, p, kid, n), rank, floor, n) == ViewOf(m, rank, floor, n)
  {
    ParentRanksAbove(m, rank, floor, kid);
    var r := Replaced(m, p, kid, n);
    assert WellFormed(r, rank, floor) by {
      ReplacedWellFormed(m, rank, floor, p, kid, n);
    }
    assert forall j :: j in m && j != p ==> j in r && SameCore(m[j], r[j]) by {
      ReplacedFrame(m, rank, floor, p, kid, n);
    }
    assert forall j :: j in m && j != kid && j != n && j != p ==> r[j] == m[j] by {
      ReplacedFrame(m, rank, floor, p, kid, n);
    }
    assert r[p] == m[p].(children := m[p].children[IndexOf(m[p].children, kid) := Some(n)]) by {
      ReplacedFrame(m, rank, floor, p, kid, n);
    }
    ReplacedLinks(m, rank, floor, p, kid, n);
    ReplacedNoGrowth(m, p, kid, n);
    ViewKeptOne(m, rank, floor, r, rank, floor, n, p);
  }

  /** `ViewKept` for one changed record `q` ranked no lower than `k`. */
  lemma ViewKeptOne(m1: map<Id, NodeData>, r1: map<Id, int>, f1: int,
                    m2: map<Id, NodeData>, r2: map<Id, int>, f2: int, k: Id, q: Id)
    requires Ranked(m1, r1, f1) && Ranked(m2, r2, f2) && k in m1 && k != q
    requires forall j :: j in m1 && j != q ==> j in m2 && SameCore(m1[j], m2[j])
    requires q in m1 ==> r1[k] <= r1[q]
    ensures ViewOf(m1, r1, f1, k) == ViewOf(m2, r2, f2, k)
  {
    ViewFrame(m1, r1, f1, m2, r2, f2, k);
  }

  /**
   * The shape of `p` after one entry joined the end of its list, when no
   * other record of the first arena changed what a shape depends on.
   */
  lemma ViewGrows(m1: map<Id, NodeData>, r1: map<Id, int>, f1: int,
                  m2: map<Id, NodeData>, r2: map<Id, int>, f2: int, p: Id, e: Option<Id>)
    requires Ranked(m1, r1, f1) && Ranked(m2, r2, f2) && p in m1 && p in m2
    requires forall j :: j in m1 && j != p ==> j in m2 && SameCore(m1[j], m2[j])
    requires SameCore(m2[p], m1[p].(children := m1[p].children + [e]))
    ensures e.Some? ==> e.value in m2
    ensures ViewOf(m2, r2, f2, p) == ViewOf(m1, r1, f1, p).(children := ViewOf(m1, r1, f1, p).children +
      [if e.Some? then Some(ViewOf(m2, r2, f2, e.value)) else None])
  {
    var ch := m1[p].children;
    assert m2[p].children[|ch|] == e;
    assert RankedEdge(m2, r2, p, |ch|);
    forall k | 0 <= k < |ch| && ch[k].Some? ensures ch[k].value in m1 && r1[ch[k].value] < r1[p] {
      assert RankedEdge(m1, r1, p, k);
    }
    forall k | 0 <= k < |ch| && ch[k].Some?
      ensures ch[k].value in m2 && ViewOf(m2, r2, f2, ch[k].value) == ViewOf(m1, r1, f1, ch[k].value)
    {
      assert m2[p].children[k] == ch[k];
      assert RankedEdge(m2, r2, p, k);
      ViewKept(m1, r1, f1, m2, r2, f2, ch[k].value, {p});
    }
  }

  /**
   * `ViewGrows` when one more record `q`, ranked no lower than any of
   * `p`'s children, changed too.
   */
  lemma ViewGrowsBeside(m1: map<Id, NodeData>, r1: map<Id, int>, f1: int,
                        m2: map<Id, NodeData>, r2: map<Id, int>, f2: int, p: Id, e: Option<Id>, q: Id)
    requires Ranked(m1, r1, f1) && Ranked(m2, r2, f2) && p in m1 && p in m2 && p != q
    requires forall j :: j in m1 && j != p && j != q ==> j in m2 && SameCore(m1[j], m2[j])
    requires Some(q) !in m1[p].children
    requires q in m1 ==> q in r1 && forall k :: 0 <= k < |m1[p].children| && m1[p].children[k].Some? ==>
      m1[p].children[k].value in r1 && r1[m1[p].children[k].value] <= r1[q]
    requires SameCore(m2[p], m1[p].(children := m1[p].children + [e]))
    ensures e.Some? ==> e.value in m2
    ensures ViewOf(m2, r2, f2, p) == ViewOf(m1, r1, f1, p).(children := ViewOf(m1, r1, f1, p).children +
      [if e.Some? then Some(ViewOf(m2, r2, f2, e.value)) else None])
  {
    var ch := m1[p].children;
    assert m2[p].children[|ch|] == e;
    assert RankedEdge(m2, r2, p, |ch|);
    forall k | 0 <= k < |ch| && ch[k].Some? ensures ch[k].value in m1 && r1[ch[k].value] < r1[p] {
      assert RankedEdge(m1, r1, p, k);
    }
    forall k | 0 <= k < |ch| && ch[k].Some?
      ensures ch[k].value in m2 && ViewOf(m2, r2, f2, ch[k].value) == ViewOf(m1, r1, f1, ch[k].value)
    {
      assert m2[p].children[k] == ch[k];
      assert RankedEdge(m2, r2, p, k);
      ViewKept(m1, r1, f1, m2, r2, f2, ch[k].value, {p, q});
    }
  }

  /**
   * Appending `c`, listed under `q`, to `p`: the whole effect, when `q`
   * ranks no lower than any of `p`'s children.
   */
  lemma AppendedMoved(m: map<Id, NodeData>, rank: map<Id, int>, floor: int, p: Id, c: Id, role: Option<string>)
    requires WellFormed(m, rank, floor) && p in m && c in m && rank[c] < rank[p]
    requires m[c].parent.Some? && m[c].parent != Some(p)
    requires var q := m[c].parent.value;
      q in rank && Some(q) !in m[p].children && forall k :: 0 <= k < |m[p].children| && m[p].children[k].Some? ==>
        m[p].children[k].value in rank && rank[m[p].children[k].value] <= rank[q]
    ensures p != c && WellFormed(Appended(m, p, c, role), rank, floor)
    ensures var r := Appended(m, p, c, role);
      var q := m[c].parent.value;
      q in m && Some(c) in m[q].children && q != p && q != c &&
      r[p] == m[p].(children := m[p].children + [Some(c)]) &&
      r[c] == m[c].(parent := Some(p), rel := if role.Some? then role else m[c].rel) &&
      r[q] == m[q].(children := RemoveAt(m[q].children, IndexOf(m[q].children, c))) &&
      (forall j :: j in m && j != p && j != c && j != q ==> r[j] == m[j]) &&
      ViewOf(r, rank, floor, c) == ViewOf(m, rank, floor, c) &&
      ViewOf(r, rank, floor, p) == ViewOf(m, rank, floor, p).(children := ViewOf(m, rank, floor, p).children + [Some(ViewOf(m, rank, floor, c))])
  {
    ParentRanksAbove(m, rank, floor, c);
    var q := m[c].parent.value;
    AppendedWellFormed(m, rank, floor, p, c, role);
    AppendedFrame(m, rank, floor, p, c, role);
    var r := Appended(m, p, c, role);
    ViewKept(m, rank, floor, r, rank, floor, c, {p, q});
    ViewGrowsBeside(m, rank, floor, r, rank, floor, p, Some(c), q);
  }

  /** A fresh record with no children and no parent keeps the arena well formed. */
  lemma FreshWellFormed(m: map<Id, NodeData>, rank: map<Id, int>, floor: int, id: Id, d: NodeData, r: int)
    requires WellFormed(m, rank, floor) && id !in m && d.children == [] && d.parent.None?
    ensures WellFormed(m[id := d], rank[id := r], if r < floor then r else floor)
  {
    var m2, r2, f2 := m[id := d], rank[id := r], if r < floor then r else floor;
    forall p, i ensures RankedEdge(m2, r2, p, i) && LinkedEdge(m2, p, i) {
      assert RankedEdge(m, rank, p, i) && LinkedEdge(m, p, i);
    }
    forall x ensures Backed(m2, x) && DistinctList(m2, x) && RankedNode(m2, r2, f2, x) {
      assert Backed(m, x) && DistinctList(m, x) && RankedNode(m, rank, floor, x);
    }
  }

  /** Changing a record's attributes, but not its links, keeps the arena well formed. */
  lemma RelabelWellFormed(m: map<Id, NodeData>, rank: map<Id, int>, floor: int, k: Id, d: NodeData)
    requires WellFormed(m, rank, floor) && k in m && d.children == m[k].children && d.parent == m[k].parent
    ensures WellFormed(m[k := d], rank, floor)
  {
    var m2 := m[k := d];
    forall p, i ensures RankedEdge(m2, rank, p, i) && LinkedEdge(m2, p, i) {
      assert RankedEdge(m, rank, p, i) && LinkedEdge(m, p, i);
    }
    forall x ensures Backed(m2, x) && DistinctList(m2, x) && RankedNode(m2, rank, floor, x) {
      assert Backed(m, x) && DistinctList(m, x) && RankedNode(m, rank, floor, x);
    }
  }

  /** A parent ranks above its child and lists it. */
  lemma ParentRanksAbove(m: map<Id, NodeData>, rank: map<Id, int>, floor: int, c: Id)
    requires WellFormed(m, rank, floor) && c in m && m[c].parent.Some?
    ensures m[c].parent.value in m && Some(c) in m[m[c].parent.value].children
    ensures rank[c] < rank[m[c].parent.value]
  {
    assert Backed(m, c);
    var q := m[c].parent.value;
    var i :| 0 <= i < |m[q].children| && m[q].children[i] == Some(c);
    assert RankedEdge(m, rank, q, i);
  }

  /** New attributes for `k`, with the same children, give `k` a shape with the same children. */
  lemma ViewRelabel(m: map<Id, NodeData>, rank: map<Id, int>, floor: int, k: Id, d: NodeData)
    requires Ranked(m, rank, floor) && k in m && d.children == m[k].children
    ensures Ranked(m[k := d], rank, floor)
    ensures ViewOf(m[k := d], rank, floor, k) ==
      Shape(d.kind, d.value, d.line, d.parenthesized, ViewOf(m, rank, floor, k).children)
  {
    var m2 := m[k := d];
    forall p, i ensures RankedEdge(m2, rank, p, i) {
      assert RankedEdge(m, rank, p, i);
    }
    forall x ensures RankedNode(m2, rank, floor, x) {
      assert RankedNode(m, rank, floor, x);
    }
    var ch := m[k].children;
    forall i | 0 <= i < |ch| && ch[i].Some? ensures ch[i].value in m {
      assert RankedEdge(m, rank, k, i);
    }
    forall i | 0 <= i < |ch| && ch[i].Some?
      ensures ViewOf(m2, rank, floor, ch[i].value) == ViewOf(m, rank, floor, ch[i].value)
    {
      assert RankedEdge(m, rank, k, i);
      ViewKept(m, rank, floor, m2, rank, floor, ch[i].value, {k});
    }
  }

  /**
   * New attributes for `q` leave the shape of `k` alone when `k` ranks below
   * `q`'s parent and is not `q`: such a `k` cannot have `q` below it.
   */
  lemma {:induction false} ViewRelabelOutside(m: map<Id, NodeData>, rank: map<Id, int>, floor: int, k: Id, q: Id, d: NodeData)
    requires WellFormed(m, rank, floor) && k in m && q in m && k != q
    requires m[q].parent.Some? && m[q].parent.value in rank && rank[k] < rank[m[q].parent.value]
    requires d.children == m[q].children
    ensures Ranked(m[q := d], rank, floor)
    ensures ViewOf(m[q := d], rank, floor, k) == ViewOf(m, rank, floor, k)
    decreases rank[k] - floor
  {
    var m2 := m[q := d];
    forall p, i ensures RankedEdge(m2, rank, p, i) {
      assert RankedEdge(m, rank, p, i);
    }
    forall x ensures RankedNode(m2, rank, floor, x) {
      assert RankedNode(m, rank, floor, x);
    }
    var ch := m[k].children;
    forall i | 0 <= i < |ch| && ch[i].Some? ensures ch[i].value in m {
      assert RankedEdge(m, rank, k, i);
    }
    forall i | 0 <= i < |ch| && ch[i].Some?
      ensures ViewOf(m2, rank, floor, ch[i].value) == ViewOf(m, rank, floor, ch[i].value)
    {
      assert RankedEdge(m, rank, k, i) && LinkedEdge(m, k, i) && RankedNode(m, rank, floor, k);
      ViewRelabelOutside(m, rank, floor, ch[i].value, q, d);
    }
  }

  /**
   * The shape of `k` survives changes to a record `q` that no list names:
   * such a `q` is not below `k`.
   */
  lemma {:induction false} ViewAvoids(m1: map<Id, NodeData>, r1: map<Id, int>, f1: int,
                                      m2: map<Id, NodeData>, r2: map<Id, int>, f2: int, k: Id, q: Id)
    requires Ranked(m1, r1, f1) && Ranked(m2, r2, f2) && k in m1 && k != q && Orphan(m1, q)
    requires forall j :: j in m1 && j != q ==> j in m2 && SameCore(m1[j], m2[j])
    ensures ViewOf(m1, r1, f1, k) == ViewOf(m2, r2, f2, k)
    decreases r1[k] - f1
  {
    var ch := m1[k].children;
    forall i | 0 <= i < |ch| && ch[i].Some? ensures ch[i].value in m1 && ch[i].value != q {
      assert RankedEdge(m1, r1, k, i) && Unlisted(m1, q, k, i);
    }
    forall i | 0 <= i < |ch| && ch[i].Some?
      ensures ViewOf(m1, r1, f1, ch[i].value) == ViewOf(m2, r2, f2, ch[i].value)
    {
      assert RankedEdge(m1, r1, k, i) && RankedNode(m1, r1, f1, k);
      ViewAvoids(m1, r1, f1, m2, r2, f2, ch[i].value, q);
    }
  }

  /** No record of `m1` has a longer child list in `m2`. */
  ghost predicate NoGrowth(m1: map<Id, NodeData>, m2: map<Id, NodeData>) {
    forall j :: j in m1 ==> j in m2 && |m2[j].children| <= |m1[j].children|
  }

  /** The records of `m1` are still in `m2`, with the same ranks. */
  ghost predicate Extends(m1: map<Id, NodeData>, r1: map<Id, int>, m2: map<Id, NodeData>, r2: map<Id, int>) {
    m1.Keys <= m2.Keys && forall j :: j in r1 ==> j in r2 && r2[j] == r1[j]
  }

  /** The record `j` of `m1`, if there is one, is in `m2` as it was. */
  ghost predicate SameRecord(m1: map<Id, NodeData>, m2: map<Id, NodeData>, j: Id) {
    j in m1 ==> j in m2 && m2[j] == m1[j]
  }

  /**
   * Every record of `m1` outside `changed` is in `m2` as it was.  The
   * quantifier fires only on `SameRecord` terms, so a frame in scope costs
   * nothing until a proof asks about one record.
   */
  ghost predicate KeptOutside(m1: map<Id, NodeData>, m2: map<Id, NodeData>, changed: set<Id>) {
    forall j {:trigger SameRecord(m1, m2, j)} :: j !in changed ==> SameRecord(m1, m2, j)
  }

  /** What a frame says about one record. */
  lemma KeptAt(m1: map<Id, NodeData>, m2: map<Id, NodeData>, changed: set<Id>, j: Id)
    requires KeptOutside(m1, m2, changed) && j in m1 && j !in changed
    ensures j in m2 && m2[j] == m1[j]
  {
    assert SameRecord(m1, m2, j);
  }

  /** A frame may name more records than changed. */
  lemma KeptMore(m1: map<Id, NodeData>, m2: map<Id, NodeData>, a: set<Id>, b: set<Id>)
    requires KeptOutside(m1, m2, a) && a <= b
    ensures KeptOutside(m1, m2, b)
  {
  }

  /**
   * Two steps in a row change no record outside `target` when `target`
   * holds what the first step changed, and what the second changed among
   * the records the first started from.
   */
  lemma KeptThen(m0: map<Id, NodeData>, m1: map<Id, NodeData>, m2: map<Id, NodeData>, a: set<Id>, b: set<Id>, target: set<Id>)
    requires KeptOutside(m0, m1, a) && KeptOutside(m1, m2, b) && a <= target
    requires forall j :: j in b && j !in target ==> j !in m0
    ensures KeptOutside(m0, m2, target)
  {
    forall j | j !in target ensures SameRecord(m0, m2, j) {
      if j in m0 {
        assert SameRecord(m0, m1, j) && j !in b;
        assert SameRecord(m1, m2, j);
      }
    }
  }

  /** A substitution changes the replaced node, the new one and the parent, and nothing else. */
  lemma SubstitutedKept(m1: map<Id, NodeData>, m2: map<Id, NodeData>, kid: Id, n: Id)
    requires Substituted(m1, m2, kid, n)
    ensures KeptOutside(m1, m2, {kid, n} + IdsOf(m1[kid].parent))
  {
  }

  /** The node an optional link or list entry names, as a set. */
  function IdsOf(o: Option<Id>): (r: set<Id>)
    ensures o.Some? ==> o.value in r
    ensures o.None? ==> r == {}
    ensures |r| <= 1
  {
    if o.Some? then {o.value} else {}
  }

  /** A record made by `Node(None, kind)`: no value, no line, no children, no parent. */
  function Blank(kind: string): (d: NodeData)
    ensures d.children == [] && d.parent.None?
  {
    NodeData(kind, NoValue, None, false, [], None, None)
  }

  // ---------------------------------------------------------------------
  // The arena
  // ---------------------------------------------------------------------

  class Arena {
    var nodes: map<Id, NodeData>
    var next: Id
    ghost var rank: map<Id, int>
    ghost var floor: int

    ghost predicate Valid()
      reads this
    {
      WellFormed(nodes, rank, floor) && rank.Keys == nodes.Keys &&
      forall k :: k in nodes ==> k < next
    }

    /** The shape of the subtree under `k`. */
    ghost function View(k: Id): Shape
      reads this
      requires Valid() && k in nodes
    {
      ViewOf(nodes, rank, floor, k)
    }

    constructor ()
      ensures Valid() && nodes == map[]
    {
      nodes := map[];
      next := 0;
      rank := map[];
      floor := 0;
    }

    /** `Node(None, kind)`: a fresh record, ranked `r`. */
    method NewNode(kind: string, ghost r: int) returns (id: Id)
      requires Valid()
      modifies this
      ensures Valid()
      ensures id !in old(nodes) && nodes == old(nodes)[id := Blank(kind)]
      ensures rank == old(rank)[id := r] && floor == (if r < old(floor) then r else old(floor))
      ensures Extends(old(nodes), old(rank), nodes, rank)
    {
      id := next;
      FreshWellFormed(nodes, rank, floor, id, Blank(kind), r);
      next := next + 1;
      nodes := nodes[id := Blank(kind)];
      rank := rank[id := r];
      floor := if r < floor then r else floor;
    }

    /** A fresh record with the given attributes and no children (the start of a deep copy). */
    method NewCopy(d: NodeData, ghost r: int) returns (id: Id)
      requires Valid()
      modifies this
      ensures Valid()
      ensures id !in old(nodes) && nodes == old(nodes)[id := d.(children := [], parent := None)]
      ensures rank == old(rank)[id := r] && floor <= old(floor)
      ensures Extends(old(nodes), old(rank), nodes, rank)
    {
      id := next;
      FreshWellFormed(nodes, rank, floor, id, d.(children := [], parent := None), r);
      next := next + 1;
      nodes := nodes[id := d.(children := [], parent := None)];
      rank := rank[id := r];
      floor := if r < floor then r else floor;
    }

    /** `k.value = v`. */
    method SetValue(k: Id, v: Value)
      requires Valid() && k in nodes
      modifies this
      ensures Valid()
      ensures nodes == old(nodes)[k := old(nodes)[k].(value := v)]
      ensures rank == old(rank) && floor == old(floor)
    {
      RelabelWellFormed(nodes, rank, floor, k, nodes[k].(value := v));
      nodes := nodes[k := nodes[k].(value := v)];
    }

    /** `k.parenthesized = True`. */
    method SetParenthesized(k: Id)
      requires Valid() && k in nodes
      modifies this
      ensures Valid()
      ensures nodes == old(nodes)[k := old(nodes)[k].(parenthesized := true)]
      ensures rank == old(rank) && floor == old(floor)
    {
      RelabelWellFormed(nodes, rank, floor, k, nodes[k].(parenthesized := true));
      nodes := nodes[k := nodes[k].(parenthesized := true)];
    }

    /** `p.append(c, role)`. */
    method Append(p: Id, c: Id, role: Option<string>)
      requires Valid() && p in nodes && c in nodes && rank[c] < rank[p]
      modifies this
      ensures Valid()
      ensures nodes == Appended(old(nodes), p, c, role)
      ensures rank == old(rank) && floor == old(floor)
      ensures forall j :: j in old(nodes) && j != p && Some(j) != old(nodes[c].parent) ==> SameCore(nodes[j], old(nodes[j]))
      ensures forall j :: j in old(nodes) && j != p && j != c && Some(j) != old(nodes[c].parent) ==> nodes[j] == old(nodes[j])
      ensures old(nodes[c].parent) != Some(p) ==> nodes[p] == old(nodes[p]).(children := old(nodes[p].children) + [Some(c)])
      ensures nodes[c].parent == Some(p) && nodes[c].rel == (if role.Some? then role else old(nodes[c].rel))
      ensures old(nodes[c].parent).Some? && old(nodes[c].parent) != Some(p) ==>
        var q := old(nodes[c].parent.value);
        q in old(nodes) && Some(c) in old(nodes[q].children) &&
        nodes[q] == old(nodes[q]).(children := RemoveAt(old(nodes[q].children), IndexOf(old(nodes[q].children), c)))
      ensures forall j :: j in old(nodes) && j != p ==> |nodes[j].children| <= |old(nodes[j].children)|
    {
      AppendedWellFormed(nodes, rank, floor, p, c, role);
      AppendedFrame(nodes, rank, floor, p, c, role);
      nodes := Appended(nodes, p, c, role);
    }

    /**
     * `p.append(c)` for a `c` without parent: `p`'s shape gains `c`'s shape
     * as its last child, and only `p`'s list and `c`'s parent link change.
     */
    method Adopt(p: Id, c: Id, role: Option<string>)
      requires Valid() && p in nodes && c in nodes && rank[c] < rank[p] && nodes[c].parent.None?
      modifies this
      ensures Valid() && nodes.Keys == old(nodes).Keys && rank == old(rank) && floor == old(floor)
      ensures forall j :: j in old(nodes) && j != p && j != c ==> nodes[j] == old(nodes[j])
      ensures nodes[p] == old(nodes[p]).(children := old(nodes[p].children) + [Some(c)])
      ensures nodes[c] == old(nodes[c]).(parent := Some(p), rel := if role.Some? then role else old(nodes[c].rel))
      ensures View(c) == old(View(c))
      ensures View(p) == old(View(p)).(children := old(View(p)).children + [Some(old(View(c)))])
    {
      ghost var m1, r1, f1 := nodes, rank, floor;
      Append(p, c, role);
      assert View(c) == ViewOf(m1, r1, f1, c) by {
        ViewKept(m1, r1, f1, nodes, rank, floor, c, {p});
      }
      assert View(p) == ViewOf(m1, r1, f1, p).(children := ViewOf(m1, r1, f1, p).children + [Some(View(c))]) by {
        ViewGrows(m1, r1, f1, nodes, rank, floor, p, Some(c));
      }
    }

    /** `p.append(None)`. */
    method AppendHole(p: Id)
      requires Valid() && p in nodes
      modifies this
      ensures Valid()
      ensures nodes == AppendedHole(old(nodes), p)
      ensures rank == old(rank) && floor == old(floor)
    {
      AppendedHoleWellFormed(nodes, rank, floor, p);
      nodes := AppendedHole(nodes, p);
    }

    /** `p.replace(kid, repl)`. */
    method Replace(p: Id, kid: Id, repl: Id)
      requires Valid() && p in nodes && kid in nodes && repl in nodes
      requires Some(kid) in nodes[p].children && kid != repl && rank[repl] < rank[p]
      modifies this
      ensures Valid()
      ensures kid != p && nodes == Replaced(old(nodes), p, kid, repl)
      ensures rank == old(rank) && floor == old(floor)
      ensures forall j :: j in old(nodes) && j != p && Some(j) != old(nodes[repl].parent) ==> SameCore(nodes[j], old(nodes[j]))
      ensures forall j :: j in old(nodes) && j != p && j != kid && j != repl && Some(j) != old(nodes[repl].parent) ==>
        nodes[j] == old(nodes[j])
      ensures old(nodes[repl].parent) != Some(p) ==>
        nodes[p] == old(nodes[p]).(children := old(nodes[p].children)[IndexOf(old(nodes[p].children), kid) := Some(repl)])
      ensures nodes[repl].parent == Some(p) && nodes[repl].rel == old(nodes[kid].rel)
      ensures nodes[kid].parent.None?
      ensures old(nodes[repl].parent).None? ==> nodes[kid] == old(nodes[kid]).(parent := None, rel := None)
      ensures old(nodes[repl].parent).None? ==> nodes[repl] == old(nodes[repl]).(parent := Some(p), rel := old(nodes[kid].rel))
      ensures NoGrowth(old(nodes), nodes)
    {
      ReplacedWellFormed(nodes, rank, floor, p, kid, repl);
      ReplacedNoGrowth(nodes, p, kid, repl);
      ReplacedFrame(nodes, rank, floor, p, kid, repl);
      ReplacedLinks(nodes, rank, floor, p, kid, repl);
      nodes := Replaced(nodes, p, kid, repl);
    }
  
    /**
     * `kid.parent.replace(kid, n)` for a parentless `n` ranked like `kid`:
     * `false` when `kid` has no parent (the source then fails); otherwise
     * `n`, with its shape, takes `kid`'s slot and role.
     */
    method PutInPlace(kid: Id, n: Id) returns (ok: bool)
      requires Valid() && kid in nodes && n in nodes && n != kid
      requires nodes[n].parent.None? && rank[n] == rank[kid]
      modifies this
      ensures Valid() && nodes.Keys == old(nodes).Keys && rank == old(rank) && floor == old(floor)
      ensures NoGrowth(old(nodes), nodes)
      ensures ok == old(nodes[kid].parent).Some?
      ensures !ok ==> nodes == old(nodes)
      ensures ok ==> Substituted(old(nodes), nodes, kid, n)
      ensures ok ==> View(n) == old(View(n))
    {
      if nodes[kid].parent.None? {
        return false;
      }
      var p := nodes[kid].parent.value;
      ReplacedParentless(nodes, rank, floor, p, kid, n);
      nodes := Replaced(nodes, p, kid, n);
      return true;
    }

    /**
     * `kid.parent.replace(kid, n)` for an `n` listed under a record ranked
     * below `kid`: `false` when `kid` has no parent (the source then fails);
     * otherwise `n`, with its shape, moves into `kid`'s slot and role.
     */
    method Promote(kid: Id, n: Id) returns (ok: bool)
      requires Valid() && kid in nodes && n in nodes && nodes[n].parent.Some?
      requires nodes[n].parent.value in rank && rank[nodes[n].parent.value] < rank[kid]
      modifies this
      ensures Valid() && nodes.Keys == old(nodes).Keys && rank == old(rank) && floor == old(floor)
      ensures NoGrowth(old(nodes), nodes)
      ensures ok == old(nodes[kid].parent).Some?
      ensures !ok ==> nodes == old(nodes)
      ensures ok ==> Placed(old(nodes), nodes, kid, n) && View(n) == old(View(n))
      ensures ok ==> KeptOutside(old(nodes), nodes, {kid, n} + IdsOf(old(nodes[kid].parent)) + IdsOf(old(nodes[n].parent)))
    {
      if nodes[kid].parent.None? {
        return false;
      }
      var p := nodes[kid].parent.value;
      ReplacedListed(nodes, rank, floor, p, kid, n);
      ParentRanksAbove(nodes, rank, floor, kid);
      ParentRanksAbove(nodes, rank, floor, n);
      ReplacedFrame(nodes, rank, floor, p, kid, n);
      nodes := Replaced(nodes, p, kid, n);
      return true;
    }

    /**
     * `p.append(c, role)` for a `c` listed under another record `q` that
     * ranks no lower than any of `p`'s children: `c` moves, with its shape,
     * from `q`'s list to the end of `p`'s.
     */
    method AppendMoved(p: Id, c: Id, role: Option<string>)
      requires Valid() && p in nodes && c in nodes && rank[c] < rank[p]
      requires nodes[c].parent.Some? && nodes[c].parent != Some(p)
      requires var q := nodes[c].parent.value;
        q in rank && Some(q) !in nodes[p].children && forall k :: 0 <= k < |nodes[p].children| && nodes[p].children[k].Some? ==>
          nodes[p].children[k].value in rank && rank[nodes[p].children[k].value] <= rank[q]
      modifies this
      ensures Valid() && nodes.Keys == old(nodes).Keys && rank == old(rank) && floor == old(floor)
      ensures nodes[p] == old(nodes[p]).(children := old(nodes[p].children) + [Some(c)])
      ensures nodes[c] == old(nodes[c]).(parent := Some(p), rel := if role.Some? then role else old(nodes[c].rel))
      ensures var q := old(nodes[c].parent.value);
        q in old(nodes) && Some(c) in old(nodes[q].children) &&
        nodes[q] == old(nodes[q]).(children := RemoveAt(old(nodes[q].children), IndexOf(old(nodes[q].children), c)))
      ensures forall j :: j in old(nodes) && j != p && j != c && j != old(nodes[c].parent.value) ==> nodes[j] == old(nodes[j])
      ensures View(c) == old(View(c))
      ensures View(p) == old(View(p)).(children := old(View(p)).children + [Some(old(View(c)))])
    {
      AppendedMoved(nodes, rank, floor, p, c, role);
      nodes := Appended(nodes, p, c, role);
    }

    /**
     * `copy.deepcopy(x)`: fresh records reproducing the subtree under `x`,
     * role names and holes included; the copy has no parent.  The copy's
     * root is ranked `r`, its descendants lower; `s`, the shape being
     * copied, measures the recursion.
     */
    method Clone(x: Id, ghost r: int, ghost s: Shape) returns (copy: Id)
      requires Valid() && x in nodes && s == View(x)
      modifies this
      ensures Valid() && Extends(old(nodes), old(rank), nodes, rank)
      ensures forall j :: j in old(nodes) ==> nodes[j] == old(nodes[j])
      ensures copy in nodes && copy !in old(nodes) && rank[copy] == r
      ensures nodes[copy].parent.None? && nodes[copy].rel == old(nodes[x].rel)
      ensures View(copy) == s
      decreases s, 2
    {
      var d := nodes[x];
      copy := NewCopy(d, r);
      ViewFrame(nodes, rank, floor, nodes, rank, floor, copy);
      var i := 0;
      while i < |d.children|
        invariant 0 <= i <= |d.children|
        invariant Valid() && Extends(old(nodes), old(rank), nodes, rank)
        invariant forall j :: j in old(nodes) ==> nodes[j] == old(nodes[j])
        invariant copy in nodes && copy !in old(nodes) && rank[copy] == r
        invariant nodes[copy] == d.(children := nodes[copy].children, parent := None)
        invariant View(copy) == s.(children := s.children[..i])
      {
        assert View(x) == s by {
          ViewKept(old(nodes), old(rank), old(floor), nodes, rank, floor, x, {});
        }
        CloneChild(copy, x, i, r, s);
        assert View(copy) == s.(children := s.children[..i + 1]) by {
          ShapePrefix(s, i);
        }
        i := i + 1;
      }
      assert s.children[..i] == s.children;
    }

    /** The copy of `x`'s `i`-th child (or a hole) joins the end of `copy`'s list. */
    method CloneChild(copy: Id, x: Id, i: nat, ghost r: int, ghost s: Shape)
      requires Valid() && copy in nodes && x in nodes && copy != x && rank[copy] == r
      requires s == View(x) && i < |nodes[x].children|
      requires nodes[copy].parent.None?
      modifies this
      ensures Valid() && Extends(old(nodes), old(rank), nodes, rank)
      ensures forall j :: j in old(nodes) && j != copy ==> nodes[j] == old(nodes[j])
      ensures nodes[copy] == old(nodes[copy]).(children := nodes[copy].children)
      ensures View(copy) == old(View(copy)).(children := old(View(copy)).children + [s.children[i]])
      decreases s, 1
    {
      ghost var m1, r1, f1 := nodes, rank, floor;
      if nodes[x].children[i].None? {
        AppendHole(copy);
        ViewGrows(m1, r1, f1, nodes, rank, floor, copy, None);
      } else {
        CloneInto(copy, x, i, r, s);
      }
    }

    /** The copy of `x`'s `i`-th child joins the end of `copy`'s list. */
    method CloneInto(copy: Id, x: Id, i: nat, ghost r: int, ghost s: Shape)
      requires Valid() && copy in nodes && x in nodes && copy != x && rank[copy] == r
      requires s == View(x) && i < |nodes[x].children| && nodes[x].children[i].Some?
      requires nodes[copy].parent.None?
      modifies this
      ensures Valid() && Extends(old(nodes), old(rank), nodes, rank)
      ensures forall j :: j in old(nodes) && j != copy ==> nodes[j] == old(nodes[j])
      ensures nodes[copy] == old(nodes[copy]).(children := nodes[copy].children)
      ensures View(copy) == old(View(copy)).(children := old(View(copy)).children + [s.children[i]])
      decreases s, 0
    {
      var c := nodes[x].children[i].value;
      assert c in nodes && rank[c] < rank[x] && s.children[i] == Some(View(c)) by {
        assert RankedEdge(nodes, rank, x, i);
      }
      ghost var m1, r1, f1 := nodes, rank, floor;
      var cc := Clone(c, r - 1, s.children[i].value);
      assert View(copy) == ViewOf(m1, r1, f1, copy) by {
        ViewKept(m1, r1, f1, nodes, rank, floor, copy, {});
      }
      Adopt(copy, cc, None);
    }
  }

  /** One more child of `s` in the prefix. */
  lemma ShapePrefix(s: Shape, i: nat)
    requires i < |s.children|
    ensures s.(children := s.children[..i]).(children := s.children[..i] + [s.children[i]]) == s.(children := s.children[..i + 1])
  {
    assert s.children[..i + 1] == s.children[..i] + [s.children[i]];
  }
}
