/**
 * The rewrite pass of lib/jasy/core/Translation.py: a `Translation` holds a
 * locale and a message table and rewrites, in a tree of nodes, every call
 * to `tr`, `trc` or `trn` into the translated text, a concatenation of text
 * pieces and argument copies, or a conditional choosing the singular or
 * plural text.
 */
module Translation {
  import opened Wrappers
  import opened Placeholders
  import opened Nodes
  import opened Templates
  import opened Catalog
  import opened Calls

  /** Every argument that is not a hole is a node of `m`. */
  ghost predicate ArgsIn(m: map<Id, NodeData>, args: seq<Option<Id>>) {
    forall i :: 0 <= i < |args| && args[i].Some? ==> args[i].value in m
  }

  /** `q` is none of the arguments. */
  ghost predicate NotArg(args: seq<Option<Id>>, q: Id) {
    forall i :: 0 <= i < |args| ==> args[i] != Some(q)
  }

  /** The shapes of the arguments, `None` for a hole. */
  ghost function ArgViews(m: map<Id, NodeData>, rank: map<Id, int>, floor: int, args: seq<Option<Id>>): (r: seq<Option<Shape>>)
    requires Ranked(m, rank, floor) && ArgsIn(m, args)
    ensures |r| == |args|
  {
    seq(|args|, i requires 0 <= i < |args| =>
      if args[i].Some? then Some(ViewOf(m, rank, floor, args[i].value)) else None)
  }

  /** Argument shapes survive any change that keeps every old record. */
  lemma ArgViewsKept(m1: map<Id, NodeData>, r1: map<Id, int>, f1: int,
                     m2: map<Id, NodeData>, r2: map<Id, int>, f2: int, args: seq<Option<Id>>)
    requires Ranked(m1, r1, f1) && Ranked(m2, r2, f2) && ArgsIn(m1, args)
    requires forall j :: j in m1 ==> j in m2 && SameCore(m1[j], m2[j])
    ensures ArgsIn(m2, args) && ArgViews(m2, r2, f2, args) == ArgViews(m1, r1, f1, args)
  {
    forall i | 0 <= i < |args| && args[i].Some?
      ensures ViewOf(m2, r2, f2, args[i].value) == ViewOf(m1, r1, f1, args[i].value)
    {
      ViewKept(m1, r1, f1, m2, r2, f2, args[i].value, {});
    }
  }

  /** Once a prefix of the pieces fails, the whole list fails with the same error. */
  lemma {:induction false} LeavesForPrefixErr(a: seq<string>, b: seq<string>, text: string, args: seq<Option<Shape>>)
    requires LeavesFor(a, text, args).Err?
    ensures LeavesFor(a + b, text, args) == LeavesFor(a, text, args)
    decreases |b|
  {
    if b == [] {
      assert a + b == a;
    } else {
      LeavesForPrefixErr(a, b[..|b| - 1], text, args);
      assert (a + b)[..|a + b| - 1] == a + b[..|b| - 1];
    }
  }

  /** One more entry of the split: the pieces grow by it when it is present and non-empty. */
  lemma PresentStep(splits: seq<Option<string>>, n: nat)
    requires n < |splits|
    ensures splits[n].Some? && splits[n].value != "" ==> Present(splits[..n + 1]) == Present(splits[..n]) + [splits[n].value]
    ensures !(splits[n].Some? && splits[n].value != "") ==> Present(splits[..n + 1]) == Present(splits[..n])
  {
    assert splits[..n + 1] == splits[..n] + [splits[n]];
    PresentAppend(splits[..n], [splits[n]]);
    if splits[n].Some? && splits[n].value != "" {
      assert Present([splits[n]]) == [splits[n].value];
    } else {
      assert Present([splits[n]]) == [];
      assert Present(splits[..n]) + [] == Present(splits[..n]);
    }
  }

  /** A failure among the first `n` entries is the failure of the whole split. */
  lemma FirstErrorWins(splits: seq<Option<string>>, n: nat, text: string, args: seq<Option<Shape>>)
    requires n <= |splits| && LeavesFor(Present(splits[..n]), text, args).Err?
    ensures LeavesFor(Present(splits), text, args) == LeavesFor(Present(splits[..n]), text, args)
  {
    LeavesForPrefixErr(Present(splits[..n]), Present(splits[n..]), text, args);
    assert splits[..n] + splits[n..] == splits;
    PresentAppend(splits[..n], splits[n..]);
  }

  /** The leaves of one more piece, when all succeed. */
  lemma LeavesForSnoc(ps: seq<string>, x: string, text: string, args: seq<Option<Shape>>)
    requires LeavesFor(ps, text, args).Ok?
    ensures LeafFor(x, text, args).Err? ==> LeavesFor(ps + [x], text, args) == Err(LeafFor(x, text, args).error)
    ensures LeafFor(x, text, args).Ok? ==>
      LeavesFor(ps + [x], text, args) == Ok(LeavesFor(ps, text, args).value + [LeafFor(x, text, args).value])
  {
    assert (ps + [x])[..|ps|] == ps;
  }

  /** One more leaf at the end of a `plus` node's list. */
  lemma PlusSnoc(xs: seq<Shape>, x: Shape)
    ensures Plus(xs).(children := Plus(xs).children + [Some(x)]) == Plus(xs + [x])
  {
    assert Plus(xs).children + [Some(x)] == Plus(xs + [x]).children;
  }

  /** The chain of one more leaf, from a chain of fewer than two (Translation.py:97, 102). */
  lemma ChainSnocShort(xs: seq<Shape>, x: Shape)
    requires |xs| < 2
    ensures Chain(xs).(children := Chain(xs).children + [Some(x)]) == Chain(xs + [x])
  {
    PlusSnoc(xs, x);
  }

  /** The chain of one more leaf, from a full chain wrapped in a new `plus` node (Translation.py:79-82). */
  lemma ChainSnocLong(xs: seq<Shape>, x: Shape)
    requires |xs| >= 2
    ensures Plus([Chain(xs)]).(children := Plus([Chain(xs)]).children + [Some(x)]) == Chain(xs + [x])
  {
    var ys := xs + [x];
    assert ys[..|ys| - 1] == xs && ys[|ys| - 1] == x;
    PlusSnoc([Chain(xs)], x);
    assert [Chain(xs)] + [x] == [Chain(ys[..|ys| - 1]), ys[|ys| - 1]];
  }

  /** Argument shapes survive changes to a node that no list names and that is not an argument. */
  lemma ArgViewsAvoid(m1: map<Id, NodeData>, r1: map<Id, int>, f1: int,
                      m2: map<Id, NodeData>, r2: map<Id, int>, f2: int, args: seq<Option<Id>>, q: Id)
    requires WellFormed(m1, r1, f1) && Ranked(m2, r2, f2) && ArgsIn(m1, args) && q in m1 && m1[q].parent.None?
    requires NotArg(args, q)
    requires forall j :: j in m1 && j != q ==> j in m2 && SameCore(m1[j], m2[j])
    ensures ArgsIn(m2, args) && ArgViews(m2, r2, f2, args) == ArgViews(m1, r1, f1, args)
  {
    ParentlessIsOrphan(m1, r1, f1, q);
    forall i | 0 <= i < |args| && args[i].Some?
      ensures ViewOf(m2, r2, f2, args[i].value) == ViewOf(m1, r1, f1, args[i].value)
    {
      ViewAvoids(m1, r1, f1, m2, r2, f2, args[i].value, q);
    }
  }

  /** Every argument that is not a hole ranks below `q`. */
  ghost predicate Below(rank: map<Id, int>, args: seq<Option<Id>>, q: Id) {
    q in rank && forall i :: 0 <= i < |args| && args[i].Some? ==> args[i].value in rank && rank[args[i].value] < rank[q]
  }

  /** The entries of an argument list `x[1]` are the shapes of the list's children. */
  lemma ParamShapes(m: map<Id, NodeData>, rank: map<Id, int>, floor: int, x: Id, params: Id)
    requires WellFormed(m, rank, floor) && x in m && |m[x].children| >= 2 && m[x].children[1] == Some(params)
    ensures params in m && m[params].parent == Some(x) && rank[params] < rank[x]
    ensures ArgsIn(m, m[params].children)
    ensures ViewOf(m, rank, floor, x).children[1] == Some(ViewOf(m, rank, floor, params))
    ensures ViewOf(m, rank, floor, params).children == ArgViews(m, rank, floor, m[params].children)
  {
    ViewChild(m, rank, floor, x, 1);
    assert RankedEdge(m, rank, x, 1) && LinkedEdge(m, x, 1);
    var ch := m[params].children;
    forall i | 0 <= i < |ch| && ch[i].Some? ensures ch[i].value in m {
      assert RankedEdge(m, rank, params, i);
    }
    forall i | 0 <= i < |ch|
      ensures ViewOf(m, rank, floor, params).children[i] == ArgViews(m, rank, floor, ch)[i]
    {
      ViewChild(m, rank, floor, params, i);
    }
  }

  /**
   * The children of `q` from index `k` on are in the arena, rank below `q`,
   * differ from the children before `k`, and have the shapes the whole
   * list gives them.
   */
  lemma ChildArgs(m: map<Id, NodeData>, rank: map<Id, int>, floor: int, q: Id, k: nat)
    requires WellFormed(m, rank, floor) && q in m && k <= |m[q].children|
    ensures ArgsIn(m, m[q].children) && ArgsIn(m, m[q].children[k..]) && Below(rank, m[q].children[k..], q)
    ensures forall j :: 0 <= j < k && m[q].children[j].Some? ==> NotArg(m[q].children[k..], m[q].children[j].value)
    ensures ArgViews(m, rank, floor, m[q].children)[k..] == ArgViews(m, rank, floor, m[q].children[k..])
  {
    var ch := m[q].children;
    forall i | 0 <= i < |ch| && ch[i].Some? ensures ch[i].value in m && ch[i].value in rank && rank[ch[i].value] < rank[q] {
      assert RankedEdge(m, rank, q, i);
    }
    assert DistinctList(m, q);
    forall j | 0 <= j < k && ch[j].Some? ensures NotArg(ch[k..], ch[j].value) {
      forall i | 0 <= i < |ch[k..]| ensures ch[k..][i] != ch[j] {
        assert ch[k..][i] == ch[k + i];
      }
    }
  }

  /** Argument shapes survive new attributes for `q` when each argument ranks below `q`'s parent and is not `q`. */
  lemma ArgViewsRelabelled(m: map<Id, NodeData>, rank: map<Id, int>, floor: int, args: seq<Option<Id>>, q: Id, d: NodeData)
    requires WellFormed(m, rank, floor) && q in m && m[q].parent.Some? && d.children == m[q].children
    requires ArgsIn(m, args) && NotArg(args, q) && Below(rank, args, m[q].parent.value)
    ensures Ranked(m[q := d], rank, floor) && ArgsIn(m[q := d], args)
    ensures ArgViews(m[q := d], rank, floor, args) == ArgViews(m, rank, floor, args)
  {
    ViewRelabel(m, rank, floor, q, d);
    forall i | 0 <= i < |args| && args[i].Some?
      ensures ViewOf(m[q := d], rank, floor, args[i].value) == ViewOf(m, rank, floor, args[i].value)
    {
      ViewRelabelOutside(m, rank, floor, args[i].value, q, d);
    }
  }

  /** Argument shapes survive changes to `q` alone, when every argument ranks below `q`. */
  lemma ArgViewsBelow(m1: map<Id, NodeData>, r1: map<Id, int>, f1: int,
                      m2: map<Id, NodeData>, r2: map<Id, int>, f2: int, args: seq<Option<Id>>, q: Id)
    requires Ranked(m1, r1, f1) && Ranked(m2, r2, f2) && ArgsIn(m1, args) && Below(r1, args, q)
    requires forall j :: j in m1 && j != q ==> j in m2 && SameCore(m1[j], m2[j])
    ensures ArgsIn(m2, args) && ArgViews(m2, r2, f2, args) == ArgViews(m1, r1, f1, args)
  {
    forall i | 0 <= i < |args| && args[i].Some?
      ensures args[i].value in m2 && ViewOf(m2, r2, f2, args[i].value) == ViewOf(m1, r1, f1, args[i].value)
    {
      ViewKept(m1, r1, f1, m2, r2, f2, args[i].value, {q});
    }
  }

  /**
   * `n`, a node `m0` did not have, holds `kid`'s slot and role in `kid`'s
   * old parent; `kid` has neither; no other record of `m0` changed.
   */
  ghost predicate Grafted(m0: map<Id, NodeData>, m2: map<Id, NodeData>, kid: Id, n: Id) {
    kid in m0 && n !in m0 && n in m2 && m0.Keys <= m2.Keys && m0[kid].parent.Some? &&
    var p := m0[kid].parent.value;
    p in m0 && p != kid && Some(kid) in m0[p].children &&
    m2[p] == m0[p].(children := m0[p].children[IndexOf(m0[p].children, kid) := Some(n)]) &&
    m2[kid] == m0[kid].(parent := None, rel := None) &&
    m2[n].parent == Some(p) && m2[n].rel == m0[kid].rel &&
    forall j :: j in m0 && j != kid && j != p ==> m2[j] == m0[j]
  }

  /** A substitution after changes that only added records is a graft. */
  lemma GraftedAfter(m0: map<Id, NodeData>, m1: map<Id, NodeData>, m2: map<Id, NodeData>, kid: Id, n: Id)
    requires forall j :: j in m0 ==> j in m1 && m1[j] == m0[j]
    requires kid in m0 && Backed(m0, kid) && n !in m0 && Substituted(m1, m2, kid, n)
    ensures Grafted(m0, m2, kid, n) && NoGrowth(m0, m2)
  {
    var p := m1[kid].parent.value;
    assert m0[kid] == m1[kid];
    forall j | j in m0 && j != kid && j != p ensures m2[j] == m0[j] {
      assert j != n;
    }
  }

  /** A graft changes the replaced node and its parent, and no other record it started from. */
  lemma GraftedKept(m0: map<Id, NodeData>, m2: map<Id, NodeData>, kid: Id, n: Id)
    requires Grafted(m0, m2, kid, n)
    ensures KeptOutside(m0, m2, {kid} + IdsOf(m0[kid].parent))
  {
  }

  /** The first three entries `a`, `b`, `c` of `params`' list: its children, ranked below it, and no two the same. */
  lemma FirstThree(m: map<Id, NodeData>, rank: map<Id, int>, floor: int, params: Id, a: Id, b: Id, c: Option<Id>)
    requires WellFormed(m, rank, floor) && params in m && |m[params].children| >= 3
    requires m[params].children[0] == Some(a) && m[params].children[1] == Some(b) && m[params].children[2] == c
    ensures a in m && b in m && a != b && a != params && b != params && params in rank
    ensures m[a].parent == Some(params) && m[b].parent == Some(params) && rank[a] < rank[params] && rank[b] < rank[params]
    ensures c.Some? ==> c.value in m && c.value != a && c.value != b && c.value != params && rank[c.value] < rank[params]
  {
    assert RankedEdge(m, rank, params, 0) && LinkedEdge(m, params, 0);
    assert RankedEdge(m, rank, params, 1) && LinkedEdge(m, params, 1);
    assert RankedEdge(m, rank, params, 2);
    assert DistinctList(m, params);
  }

  /** No list of `m0` grew, when none grew before the step and the step grew only `added`'s, a record `m0` did not have. */
  lemma NoGrowthThen(m0: map<Id, NodeData>, m1: map<Id, NodeData>, m2: map<Id, NodeData>, added: Id)
    requires NoGrowth(m0, m1) && added !in m0
    requires forall j :: j in m1 && j != added ==> j in m2 && |m2[j].children| <= |m1[j].children|
    ensures NoGrowth(m0, m2)
  {
  }

  /** In a list that names no node twice, a node's first index is its index. */
  lemma IndexOfDistinct(ch: seq<Option<Id>>, i: nat, k: Id)
    requires Distinct(ch) && i < |ch| && ch[i] == Some(k)
    ensures IndexOf(ch, k) == i
  {
  }

  /** `x` and its parent, when it has one, rank above `r`. */
  ghost predicate Above(m: map<Id, NodeData>, rank: map<Id, int>, x: Id, r: int) {
    x in m && x in rank && rank[x] > r &&
    (m[x].parent.Some? ==> m[x].parent.value in m && m[x].parent.value in rank && rank[m[x].parent.value] > r)
  }

  /** `x` and its parent, when it has one, are the same records in `m1` as in `m0`. */
  ghost predicate SameAt(m0: map<Id, NodeData>, m1: map<Id, NodeData>, x: Id) {
    x in m0 && x in m1 && m1[x] == m0[x] &&
    (m0[x].parent.Some? ==> m0[x].parent.value in m0 && m0[x].parent.value in m1 && m1[m0[x].parent.value] == m0[m0[x].parent.value])
  }

  /** A substitution for `x` after changes that left `x` and its parent alone places the new node in `x`'s slot. */
  lemma PlacedAfter(m0: map<Id, NodeData>, mb: map<Id, NodeData>, m2: map<Id, NodeData>, x: Id, n: Id)
    requires x in m0 && x in mb && mb[x] == m0[x] && m0[x].parent.Some?
    requires m0[x].parent.value in m0 && m0[x].parent.value in mb && mb[m0[x].parent.value] == m0[m0[x].parent.value]
    requires Substituted(mb, m2, x, n)
    ensures Placed(m0, m2, x, n)
  {
  }

  /** `res`, the outcome of a rewrite that left the arena `m`, read on shapes, is `want`. */
  ghost predicate Yields(m: map<Id, NodeData>, rank: map<Id, int>, floor: int,
                         res: Result<Option<Id>, Error>, want: Result<Option<Shape>, Error>)
    requires Ranked(m, rank, floor)
  {
    match res
    case Err(e) => want == Err(e)
    case Ok(None) => want == Ok(None)
    case Ok(Some(n)) => n in m && want == Ok(Some(ViewOf(m, rank, floor, n)))
  }

  /**
   * New attributes for the `i`-th entry `k` of `q`'s list: `k`'s shape
   * changes only in them, and the shapes of the other entries before `from`
   * and of the entries from `from` on stay as they were.
   */
  lemma RelabelledEntry(m: map<Id, NodeData>, rank: map<Id, int>, floor: int, q: Id, i: nat, from: nat, d: NodeData)
    requires WellFormed(m, rank, floor) && q in m && i < from <= |m[q].children| && m[q].children[i].Some?
    requires m[q].children[i].value in m && d.children == m[m[q].children[i].value].children
    ensures var k := m[q].children[i].value;
      k != q && Ranked(m[k := d], rank, floor) && ArgsIn(m, m[q].children) &&
      ViewOf(m[k := d], rank, floor, k) == Shape(d.kind, d.value, d.line, d.parenthesized, ViewOf(m, rank, floor, k).children)
    ensures var k := m[q].children[i].value;
      ArgViews(m[k := d], rank, floor, m[q].children[from..]) == ArgViews(m, rank, floor, m[q].children)[from..]
    ensures var k := m[q].children[i].value;
      forall j :: 0 <= j < from && j != i && m[q].children[j].Some? ==>
        m[q].children[j].value in m && ViewOf(m[k := d], rank, floor, m[q].children[j].value) == ViewOf(m, rank, floor, m[q].children[j].value)
  {
    var ch := m[q].children;
    var k := ch[i].value;
    assert RankedEdge(m, rank, q, i) && LinkedEdge(m, q, i);
    ChildArgs(m, rank, floor, q, from);
    ViewRelabel(m, rank, floor, k, d);
    assert NotArg(ch[from..], k);
    ArgViewsRelabelled(m, rank, floor, ch[from..], k, d);
    forall j | 0 <= j < from && j != i && ch[j].Some?
      ensures ch[j].value in m && ViewOf(m[k := d], rank, floor, ch[j].value) == ViewOf(m, rank, floor, ch[j].value)
    {
      assert RankedEdge(m, rank, q, j) && DistinctList(m, q);
      ViewRelabelOutside(m, rank, floor, ch[j].value, k, d);
    }
  }

  /**
   * What `tr` promises on the arena after its message `p0`, the first entry
   * of the list `params`, got its translation `d`.
   */
  lemma TrPlanned(m: map<Id, NodeData>, rank: map<Id, int>, floor: int, params: Id, p0: Id,
                  line: Option<nat>, hasParent: bool, table: map<string, string>)
    requires WellFormed(m, rank, floor) && params in m && ArgsIn(m, m[params].children)
    requires |m[params].children| >= 1 && m[params].children[0] == Some(p0)
    ensures var d := m[p0].(value := Translated(table, m[p0].value, m[p0].value));
      Ranked(m[p0 := d], rank, floor) && p0 in m && ArgsIn(m[p0 := d], m[params].children[1..]) &&
      TrArgs(ArgViews(m, rank, floor, m[params].children), line, table, hasParent) ==
      if |m[params].children| == 1 then Moved(ViewOf(m[p0 := d], rank, floor, p0), hasParent)
      else Spliced(d.value, line, ArgViews(m[p0 := d], rank, floor, m[params].children[1..]), hasParent)
  {
    var d := m[p0].(value := Translated(table, m[p0].value, m[p0].value));
    RelabelledEntry(m, rank, floor, params, 0, 1, d);
  }

  /**
   * What `trc` promises on the arena after its message `p1`, the second
   * entry of the list `params`, got the translation `d` of its hint `p0`.
   */
  lemma TrcPlanned(m: map<Id, NodeData>, rank: map<Id, int>, floor: int, params: Id, p0: Id, p1: Id,
                   line: Option<nat>, hasParent: bool, table: map<string, string>)
    requires WellFormed(m, rank, floor) && params in m && ArgsIn(m, m[params].children)
    requires |m[params].children| >= 2 && m[params].children[0] == Some(p0) && m[params].children[1] == Some(p1)
    ensures var d := m[p1].(value := Translated(table, m[p0].value, m[p1].value));
      Ranked(m[p1 := d], rank, floor) && p0 in m && p1 in m && ArgsIn(m[p1 := d], m[params].children[2..]) &&
      TrcArgs(ArgViews(m, rank, floor, m[params].children), line, table, hasParent) ==
      if |m[params].children| == 2 then Moved(ViewOf(m[p1 := d], rank, floor, p1), hasParent)
      else Spliced(d.value, line, ArgViews(m[p1 := d], rank, floor, m[params].children[2..]), hasParent)
  {
    var d := m[p1].(value := Translated(table, m[p0].value, m[p1].value));
    RelabelledEntry(m, rank, floor, params, 1, 2, d);
  }

  /**
   * `cond.append(c)` for the count `c`, the third entry of the list
   * `params`, and a new empty `cond` ranked like `params`: the whole effect.
   */
  lemma CountTaken(m: map<Id, NodeData>, rank: map<Id, int>, floor: int, cond: Id, params: Id, c: Id)
    requires WellFormed(m, rank, floor) && params in m && |m[params].children| >= 3 && m[params].children[2] == Some(c)
    requires cond in m && cond != params && m[cond] == Blank("le") && rank[cond] == rank[params]
    ensures c in m && c != cond && rank[c] < rank[cond] && WellFormed(Appended(m, cond, c, None), rank, floor)
    ensures var r := Appended(m, cond, c, None);
      r[cond].parent.None? &&
      ViewOf(r, rank, floor, cond) == Shape("le", NoValue, None, false, [Some(ViewOf(m, rank, floor, c))]) &&
      r[params] == m[params].(children := RemoveAt(m[params].children, 2)) &&
      (forall j :: j in m && j != params && j != cond && j != c ==> r[j] == m[j]) &&
      SameCore(r[c], m[c])
  {
    assert RankedEdge(m, rank, params, 2) && LinkedEdge(m, params, 2) && DistinctList(m, params);
    assert IndexOf(m[params].children, c) == 2;
    AppendedWellFormed(m, rank, floor, cond, c, None);
    AppendedFrame(m, rank, floor, cond, c, None);
    var r := Appended(m, cond, c, None);
    ViewKept(m, rank, floor, r, rank, floor, c, {params, cond});
    ViewChild(r, rank, floor, cond, 0);
  }

  /**
   * `condition = Node(None, "le")` and `condition.append(params[2])`
   * (Translation.py:186-187): a new `le` node ranked like `params` with the
   * count, or a hole, as its only child.
   */
  lemma LeStarted(m: map<Id, NodeData>, rank: map<Id, int>, floor: int, params: Id, count: Option<Id>, cond: Id)
    requires WellFormed(m, rank, floor) && params in m && |m[params].children| >= 3 && m[params].children[2] == count
    requires cond !in m && (count.Some? ==> count.value in m)
    ensures var m1 := m[cond := Blank("le")];
      var m2 := if count.Some? then Appended(m1, cond, count.value, None) else AppendedHole(m1, cond);
      var rank1 := rank[cond := rank[params]];
      var floor1 := if rank[params] < floor then rank[params] else floor;
      WellFormed(m2, rank1, floor1) && m2.Keys == m.Keys + {cond} && m2[cond].parent.None? &&
      ViewOf(m2, rank1, floor1, cond) ==
        Shape("le", NoValue, None, false, [if count.Some? then Some(ViewOf(m, rank, floor, count.value)) else None]) &&
      m2[params] == m[params].(children := if count.Some? then RemoveAt(m[params].children, 2) else m[params].children) &&
      (forall j :: j in m && j != params && Some(j) != count ==> m2[j] == m[j]) &&
      (count.Some? ==> SameCore(m2[count.value], m[count.value]))
  {
    var rank1 := rank[cond := rank[params]];
    var floor1 := if rank[params] < floor then rank[params] else floor;
    var m1 := m[cond := Blank("le")];
    FreshWellFormed(m, rank, floor, cond, Blank("le"), rank[params]);
    if count.Some? {
      CountTaken(m1, rank1, floor1, cond, params, count.value);
      ViewKept(m, rank, floor, m1, rank1, floor1, count.value, {});
    } else {
      AppendedHoleWellFormed(m1, rank1, floor1, cond);
      ViewChild(AppendedHole(m1, cond), rank1, floor1, cond, 0);
    }
  }

  /**
   * A rewrite that follows new attributes for `q` keeps what it keeps
   * relative to the arena before them: its records, its ranks, its list
   * lengths, and the slot facts about a node other than `q` whose parent
   * is not `q`.
   */
  lemma AfterRelabel(m0: map<Id, NodeData>, q: Id, d: NodeData, r: map<Id, int>,
                     m2: map<Id, NodeData>, r2: map<Id, int>, x: Id, n: Option<Id>)
    requires q in m0 && d.children == m0[q].children
    requires Extends(m0[q := d], r, m2, r2) && NoGrowth(m0[q := d], m2)
    requires x in m0 && x != q && m0[x].parent != Some(q)
    requires n.Some? ==> Placed(m0[q := d], m2, x, n.value)
    ensures Extends(m0, r, m2, r2) && NoGrowth(m0, m2)
    ensures n.Some? ==> Placed(m0, m2, x, n.value)
  {
    var m1 := m0[q := d];
    forall j | j in m0 ensures j in m2 && |m2[j].children| <= |m0[j].children| {
      assert j in m1 && |m1[j].children| == |m0[j].children|;
    }
    if n.Some? {
      assert m1[x] == m0[x];
      assert m1[m1[x].parent.value] == m0[m0[x].parent.value];
    }
  }

  /**
   * A text of `trn` whose slot now holds `n`, every other record kept:
   * the other text, the count and the arguments after it keep their shapes.
   */
  lemma LegKept(m0: map<Id, NodeData>, r0: map<Id, int>, f0: int, m2: map<Id, NodeData>, r2: map<Id, int>, f2: int,
                params: Id, i: nat, k: Id, n: Id, other: Id, count: Option<Id>)
    requires WellFormed(m0, r0, f0) && WellFormed(m2, r2, f2) && Extends(m0, r0, m2, r2)
    requires params in m0 && |m0[params].children| >= 3 && i < 2
    requires m0[params].children[i] == Some(k) && m0[params].children[1 - i] == Some(other) && m0[params].children[2] == count
    requires params in m2 && m2[params].children == m0[params].children[i := Some(n)] && n in m2
    requires forall j :: j in m0 && j != params && j != k ==> m2[j] == m0[j]
    requires k in m0 && k in m2 && SameCore(m2[k], m0[k])
    ensures ArgsIn(m2, m2[params].children) && ArgsIn(m0, m0[params].children[3..])
    ensures ArgViews(m2, r2, f2, m2[params].children[3..]) == ArgViews(m0, r0, f0, m0[params].children[3..])
    ensures other in m0 && ViewOf(m2, r2, f2, other) == ViewOf(m0, r0, f0, other)
    ensures count.Some? ==> count.value in m0 && ViewOf(m2, r2, f2, count.value) == ViewOf(m0, r0, f0, count.value)
  {
    var ch := m0[params].children;
    ChildArgs(m0, r0, f0, params, 3);
    if i == 0 {
      FirstThree(m0, r0, f0, params, k, other, count);
    } else {
      FirstThree(m0, r0, f0, params, other, k, count);
    }
    assert m2[params].children[3..] == ch[3..];
    assert forall j :: j in m0 && j != params ==> j in m2 && SameCore(m0[j], m2[j]);
    ArgViewsBelow(m0, r0, f0, m2, r2, f2, ch[3..], params);
    ViewKeptOne(m0, r0, f0, m2, r2, f2, other, params);
    if count.Some? {
      ViewKeptOne(m0, r0, f0, m2, r2, f2, count.value, params);
    }
  }

  /** A rewrite that put a new node in the call's place. */
  predicate Replacing(res: Result<Option<Id>, Error>) {
    res.Ok? && res.value.Some?
  }

  /** Entry `i` of a child list, as a set: empty for a hole or a list that is too short. */
  function Slot(ch: seq<Option<Id>>, i: nat): set<Id> {
    if i < |ch| then IdsOf(ch[i]) else {}
  }

  /**
   * The argument list `x[1]` of the call `x` and its first three entries:
   * the records the rewrite of `x` edits below it.
   */
  ghost function ArgFootprint(m: map<Id, NodeData>, x: Id): set<Id>
    requires x in m
  {
    var ch := m[x].children;
    if |ch| < 2 || ch[1].None? then {}
    else
      var params := ch[1].value;
      {params} + if params !in m then {} else Slot(m[params].children, 0) + Slot(m[params].children, 1) + Slot(m[params].children, 2)
  }

  /** The footprint of a call whose argument list is `params`. */
  lemma FootprintOf(m: map<Id, NodeData>, x: Id, params: Id)
    requires x in m && params in m && |m[x].children| >= 2 && m[x].children[1] == Some(params)
    ensures ArgFootprint(m, x) ==
      {params} + Slot(m[params].children, 0) + Slot(m[params].children, 1) + Slot(m[params].children, 2)
  {
  }

  /** The records `tr` or `trc` changes lie in the call's footprint, and so do `trn`'s. */
  lemma TextKept(m0: map<Id, NodeData>, m2: map<Id, NodeData>, x: Id, params: Id, q: Id, i: nat, replaced: bool)
    requires x in m0 && params in m0 && |m0[x].children| >= 2 && m0[x].children[1] == Some(params)
    requires i < 2 && i < |m0[params].children| && m0[params].children[i] == Some(q)
    requires KeptOutside(m0, m2, {q} + if replaced then {x, params} + IdsOf(m0[x].parent) else {})
    ensures KeptOutside(m0, m2, ArgFootprint(m0, x) + if replaced then {x} + IdsOf(m0[x].parent) else {})
  {
    FootprintOf(m0, x, params);
    assert q in Slot(m0[params].children, i);
    forall j | j !in ArgFootprint(m0, x) + if replaced then {x} + IdsOf(m0[x].parent) else {}
      ensures SameRecord(m0, m2, j)
    {
      assert j !in {q} + if replaced then {x, params} + IdsOf(m0[x].parent) else {};
    }
  }

  /** See `TextKept`. */
  lemma PluralKept(m0: map<Id, NodeData>, m2: map<Id, NodeData>, x: Id, params: Id, p0: Id, p1: Id, replaced: bool)
    requires x in m0 && params in m0 && |m0[x].children| >= 2 && m0[x].children[1] == Some(params)
    requires |m0[params].children| >= 2 && m0[params].children[0] == Some(p0) && m0[params].children[1] == Some(p1)
    requires KeptOutside(m0, m2,
      {params, p0, p1} + Slot(m0[params].children, 2) + if replaced then {x} + IdsOf(m0[x].parent) else {})
    ensures KeptOutside(m0, m2, ArgFootprint(m0, x) + if replaced then {x} + IdsOf(m0[x].parent) else {})
  {
    FootprintOf(m0, x, params);
    assert p0 in Slot(m0[params].children, 0) && p1 in Slot(m0[params].children, 1);
    forall j | j !in ArgFootprint(m0, x) + if replaced then {x} + IdsOf(m0[x].parent) else {}
      ensures SameRecord(m0, m2, j)
    {
      assert j !in {params, p0, p1} + Slot(m0[params].children, 2) + if replaced then {x} + IdsOf(m0[x].parent) else {};
    }
  }

  /**
   * The text `q` relabelled, then placed by a rewrite of `x` whose
   * argument list is `params`: `q` changed, and `x`, `params` and `x`'s
   * parent when a node took `x`'s place.
   */
  lemma RelabelKept(m0: map<Id, NodeData>, q: Id, d: NodeData, m2: map<Id, NodeData>, x: Id, params: Id, replaced: bool)
    requires q in m0 && x in m0 && x != q
    requires KeptOutside(m0[q := d], m2, if replaced then {x, params, q} + IdsOf(m0[q := d][x].parent) else {})
    ensures KeptOutside(m0, m2, {q} + if replaced then {x, params} + IdsOf(m0[x].parent) else {})
  {
    var m1 := m0[q := d];
    assert m1[x] == m0[x];
    forall j | j !in {q} + if replaced then {x, params} + IdsOf(m0[x].parent) else {}
      ensures SameRecord(m0, m2, j)
    {
      assert SameRecord(m1, m2, j);
    }
  }

  /** The records ranked no higher than `r`: among them, every record of the subtree of a node ranked `r`. */
  ghost function RankedUpTo(m: map<Id, NodeData>, rank: map<Id, int>, r: int): set<Id> {
    set j | j in m && j in rank && rank[j] <= r
  }

  /** The footprint of the rewrite of `x`, and `x` itself, lie below `x`'s rank. */
  lemma FootprintBelow(m: map<Id, NodeData>, rank: map<Id, int>, floor: int, x: Id)
    requires WellFormed(m, rank, floor) && x in m
    ensures ArgFootprint(m, x) + {x} <= RankedUpTo(m, rank, rank[x])
  {
    var ch := m[x].children;
    if |ch| >= 2 && ch[1].Some? {
      var params := ch[1].value;
      assert RankedEdge(m, rank, x, 1);
      forall i | 0 <= i < 3 && i < |m[params].children| && m[params].children[i].Some?
        ensures m[params].children[i].value in RankedUpTo(m, rank, rank[x])
      {
        assert RankedEdge(m, rank, params, i);
      }
    }
  }

  /**
   * The record of `p` in `m2` is the one in `m0` but for the entries of its
   * list that named `x`: the list keeps its length and its other entries.
   */
  ghost predicate SlotsKept(m0: map<Id, NodeData>, m2: map<Id, NodeData>, p: Id, x: Id) {
    p in m0 ==>
      p in m2 && m2[p] == m0[p].(children := m2[p].children) && |m2[p].children| == |m0[p].children| &&
      forall k :: 0 <= k < |m0[p].children| && m0[p].children[k] != Some(x) ==> m2[p].children[k] == m0[p].children[k]
  }

  /**
   * The rewrite of `x` itself, as the walk's first step: records ranked
   * above `x` are kept, and so is `x`'s parent unless a node took `x`'s
   * place in it, which changes only the slot that held `x`.
   */
  lemma OwnStepKept(m0: map<Id, NodeData>, r0: map<Id, int>, f0: int, m1: map<Id, NodeData>, x: Id,
                    res: Result<Option<Id>, Error>)
    requires WellFormed(m0, r0, f0) && x in m0
    requires KeptOutside(m0, m1, ArgFootprint(m0, x) + if Replacing(res) then {x} + IdsOf(m0[x].parent) else {})
    requires Replacing(res) ==> Placed(m0, m1, x, res.value.value)
    ensures KeptOutside(m0, m1, RankedUpTo(m0, r0, r0[x]) + if Replacing(res) then IdsOf(m0[x].parent) else {})
    ensures m0[x].parent.Some? ==> SlotsKept(m0, m1, m0[x].parent.value, x)
  {
    FootprintBelow(m0, r0, f0, x);
    KeptMore(m0, m1, ArgFootprint(m0, x) + (if Replacing(res) then {x} + IdsOf(m0[x].parent) else {}),
             RankedUpTo(m0, r0, r0[x]) + if Replacing(res) then IdsOf(m0[x].parent) else {});
    if m0[x].parent.Some? && !Replacing(res) {
      var p := m0[x].parent.value;
      ParentRanksAbove(m0, r0, f0, x);
      assert p !in RankedUpTo(m0, r0, r0[x]);
      KeptAt(m0, m1, ArgFootprint(m0, x), p);
    }
  }

  /**
   * `x`'s record in `m2` is the one in `m0` but for the entries of its list,
   * which keeps its length and its holes.
   */
  ghost predicate ListKept(m0: map<Id, NodeData>, m2: map<Id, NodeData>, x: Id) {
    x in m0 ==>
      x in m2 && m2[x] == m0[x].(children := m2[x].children) && |m2[x].children| == |m0[x].children| &&
      forall k :: 0 <= k < |m0[x].children| && m0[x].children[k].None? ==> m2[x].children[k].None?
  }

  /**
   * The walk of the child `c` at entry `i` of `x`'s list changes only
   * records ranked no higher than `c`, and `x` only where `c` was: all
   * ranked no higher than `x`.
   */
  lemma ChildWalkKept(m1: map<Id, NodeData>, r1: map<Id, int>, f1: int, m2: map<Id, NodeData>, x: Id, i: nat, c: Id)
    requires WellFormed(m1, r1, f1) && x in m1 && i < |m1[x].children| && m1[x].children[i] == Some(c) && c in m1 && c in r1
    requires KeptOutside(m1, m2, RankedUpTo(m1, r1, r1[c]) + IdsOf(m1[c].parent))
    requires m1[c].parent.Some? ==> SlotsKept(m1, m2, m1[c].parent.value, c)
    ensures KeptOutside(m1, m2, RankedUpTo(m1, r1, r1[x])) && ListKept(m1, m2, x)
  {
    assert RankedEdge(m1, r1, x, i) && LinkedEdge(m1, x, i);
    KeptMore(m1, m2, RankedUpTo(m1, r1, r1[c]) + IdsOf(m1[c].parent), RankedUpTo(m1, r1, r1[x]));
    forall k | 0 <= k < |m1[x].children| && m1[x].children[k].None?
      ensures m2[x].children[k].None?
    {
      assert m1[x].children[k] != Some(c);
    }
  }

  /** One turn of the loop over `x`'s list, after the turns before it. */
  lemma LoopStepKept(m0: map<Id, NodeData>, r0: map<Id, int>, m1: map<Id, NodeData>, r1: map<Id, int>,
                     m2: map<Id, NodeData>, x: Id)
    requires x in m0 && m0.Keys <= r0.Keys && Extends(m0, r0, m1, r1)
    requires KeptOutside(m0, m1, RankedUpTo(m0, r0, r0[x])) && ListKept(m0, m1, x)
    requires KeptOutside(m1, m2, RankedUpTo(m1, r1, r1[x])) && ListKept(m1, m2, x)
    ensures KeptOutside(m0, m2, RankedUpTo(m0, r0, r0[x])) && ListKept(m0, m2, x)
  {
    var u := RankedUpTo(m0, r0, r0[x]);
    KeptThen(m0, m1, m2, u, RankedUpTo(m1, r1, r1[x]), u);
  }

  /**
   * The first step of the walk, then the walks of the children: nothing
   * ranked above `x` changes but, through the first step, `x`'s parent.
   */
  lemma WalkKept(m0: map<Id, NodeData>, r0: map<Id, int>, f0: int, m1: map<Id, NodeData>, r1: map<Id, int>,
                 m2: map<Id, NodeData>, x: Id, parent: set<Id>)
    requires WellFormed(m0, r0, f0) && x in m0 && Extends(m0, r0, m1, r1) && m1.Keys <= r1.Keys
    requires KeptOutside(m0, m1, RankedUpTo(m0, r0, r0[x]) + parent)
    requires m0[x].parent.Some? ==> SlotsKept(m0, m1, m0[x].parent.value, x)
    requires KeptOutside(m1, m2, RankedUpTo(m1, r1, r1[x]))
    ensures KeptOutside(m0, m2, RankedUpTo(m0, r0, r0[x]) + parent)
    ensures m0[x].parent.Some? ==> SlotsKept(m0, m2, m0[x].parent.value, x)
  {
    var u := RankedUpTo(m0, r0, r0[x]) + parent;
    KeptThen(m0, m1, m2, u, RankedUpTo(m1, r1, r1[x]), u);
    if m0[x].parent.Some? {
      var p := m0[x].parent.value;
      ParentRanksAbove(m0, r0, f0, x);
      assert SameRecord(m1, m2, p);
    }
  }

  /** `Translation(locale, files, table)`: a locale and the message table built from the seed and the catalogs. */
  class Translation {
    const locale: string
    var table: map<string, string>

    /**
     * `__init__` (Translation.py:18-35): the seed entries, then every
     * catalog entry with a non-empty translation whose key is not yet present.
     */
    constructor (locale: string, files: seq<seq<Entry>>, seed: map<string, string>)
      ensures this.locale == locale && table == BuildTable(seed, files)
    {
      this.locale := locale;
      table := map[];
      new;
      table := table + seed;
      assert table == BuildTable(seed, []);
      var f := 0;
      while f < |files|
        invariant 0 <= f <= |files|
        invariant table == BuildTable(seed, files[..f])
      {
        var entries := files[f];
        var j := 0;
        while j < |entries|
          invariant 0 <= j <= |entries|
          invariant table == Merge(BuildTable(seed, files[..f]), entries[..j])
        {
          var (msgid, msgstr) := entries[j];
          if msgstr != "" && msgid !in table {
            table := table[msgid := msgstr];
          }
          assert entries[..j + 1][..j] == entries[..j];
          j := j + 1;
        }
        assert entries[..j] == entries;
        assert files[..f + 1][..f] == files[..f];
        f := f + 1;
      }
      assert files[..f] == files;
    }

    /** `__str__` (Translation.py:51-52): the locale, wrapped so that it can be read back. */
    function ToString(): (r: string)
      reads this
      ensures |r| == |locale| + 13 && r[..12] == "Translation(" && r[|r| - 1] == ')'
      ensures r[12..|r| - 1] == locale
    {
      "Translation(" + locale + ")"
    }

    /**
     * The leaf for one piece of the split (Translation.py:84-102): a fresh
     * copy of the selected argument, parenthesized, or a fresh `string`
     * node; ranked `r`.
     */
    method MakeLeaf(t: Arena, entry: string, text: string, args: seq<Option<Id>>, ghost r: int)
      returns (res: Result<Id, Error>)
      requires t.Valid() && ArgsIn(t.nodes, args) && entry != ""
      modifies t
      ensures t.Valid() && Extends(old(t.nodes), old(t.rank), t.nodes, t.rank)
      ensures forall j :: j in old(t.nodes) ==> t.nodes[j] == old(t.nodes[j])
      ensures res.Err? ==> LeafFor(entry, text, old(ArgViews(t.nodes, t.rank, t.floor, args))) == Err(res.error)
      ensures res.Ok? ==>
        res.value in t.nodes && res.value !in old(t.nodes) && t.rank[res.value] == r &&
        t.nodes[res.value].parent.None? &&
        LeafFor(entry, text, old(ArgViews(t.nodes, t.rank, t.floor, args))) == Ok(t.View(res.value))
    {
      if MatchLen(entry, 0) > 0 {
        var pos := Position(entry);
        if pos.None? {
          return Err(NotAnInteger(entry));
        }
        if !(0 <= pos.value < |args|) {
          return Err(InvalidPosition(entry, text));
        }
        if args[pos.value].None? {
          return Err(Malformed);
        }
        var a := args[pos.value].value;
        var copied := t.Clone(a, r, t.View(a));
        ghost var m1, r1, f1 := t.nodes, t.rank, t.floor;
        t.SetParenthesized(copied);
        ViewRelabel(m1, r1, f1, copied, m1[copied].(parenthesized := true));
        return Ok(copied);
      } else {
        var child := t.NewNode("string", r);
        t.SetValue(child, Text(entry));
        return Ok(child);
      }
    }

    /**
     * A full `plus` node becomes the first child of a new one
     * (Translation.py:79-82), ranked one above it.
     */
    method Wrap(t: Arena, pair: Id, ghost leaves: seq<Shape>) returns (outer: Id)
      requires t.Valid() && pair in t.nodes && t.nodes[pair].parent.None?
      requires t.View(pair) == Chain(leaves)
      modifies t
      ensures t.Valid() && Extends(old(t.nodes), old(t.rank), t.nodes, t.rank)
      ensures forall j :: j in old(t.nodes) && j != pair ==> t.nodes[j] == old(t.nodes[j])
      ensures SameCore(t.nodes[pair], old(t.nodes[pair]))
      ensures outer in t.nodes && outer !in old(t.nodes) && t.nodes[outer].parent.None?
      ensures t.rank[outer] == old(t.rank[pair]) + 1
      ensures t.View(outer) == Plus([Chain(leaves)])
    {
      outer := t.NewNode("plus", t.rank[pair] + 1);
      assert t.View(pair) == Chain(leaves) by {
        ViewKept(old(t.nodes), old(t.rank), old(t.floor), t.nodes, t.rank, t.floor, pair, {});
      }
      t.Adopt(outer, pair, None);
      assert Plus([Chain(leaves)]).children == [Some(Chain(leaves))];
    }

    /**
     * Room for one more leaf (Translation.py:79-82): a full `plus` node is
     * wrapped as the first child of a new one, ranked one above it.
     */
    method MakeRoom(t: Arena, pair: Id, args: seq<Option<Id>>, ghost leaves: seq<Shape>, ghost av: seq<Option<Shape>>)
      returns (top: Id)
      requires t.Valid() && ArgsIn(t.nodes, args) && ArgViews(t.nodes, t.rank, t.floor, args) == av
      requires pair in t.nodes && t.nodes[pair].parent.None? && t.View(pair) == Chain(leaves)
      requires NotArg(args, pair)
      modifies t
      ensures t.Valid() && Extends(old(t.nodes), old(t.rank), t.nodes, t.rank)
      ensures forall j :: j in old(t.nodes) && j != pair ==> t.nodes[j] == old(t.nodes[j])
      ensures ArgsIn(t.nodes, args) && ArgViews(t.nodes, t.rank, t.floor, args) == av
      ensures top in t.nodes && (top == pair || top !in old(t.nodes)) && t.nodes[top].parent.None?
      ensures NotArg(args, top)
      ensures |leaves| < 2 ==> top == pair && t.View(top) == Chain(leaves)
      ensures |leaves| >= 2 ==> t.rank[top] == old(t.rank[pair]) + 1 && t.View(top) == Plus([Chain(leaves)])
    {
      top := pair;
      if |t.nodes[pair].children| == 2 {
        ghost var m0, r0, f0 := t.nodes, t.rank, t.floor;
        top := Wrap(t, pair, leaves);
        ArgViewsKept(m0, r0, f0, t.nodes, t.rank, t.floor, args);
      }
    }

    /**
     * One piece of the split joins the chain (Translation.py:79-102): room
     * is made, then the piece's leaf is appended.  `top` is the node now at
     * the top of the chain.
     */
    method AddPiece(t: Arena, pair: Id, entry: string, text: string, args: seq<Option<Id>>,
                    ghost leaves: seq<Shape>, ghost av: seq<Option<Shape>>)
      returns (res: Result<Id, Error>)
      requires t.Valid() && ArgsIn(t.nodes, args) && ArgViews(t.nodes, t.rank, t.floor, args) == av && entry != ""
      requires pair in t.nodes && t.nodes[pair].parent.None? && t.View(pair) == Chain(leaves)
      requires NotArg(args, pair)
      modifies t
      ensures t.Valid() && Extends(old(t.nodes), old(t.rank), t.nodes, t.rank)
      ensures forall j :: j in old(t.nodes) && j != pair ==> t.nodes[j] == old(t.nodes[j])
      ensures ArgsIn(t.nodes, args) && ArgViews(t.nodes, t.rank, t.floor, args) == av
      ensures res.Err? ==> LeafFor(entry, text, av) == Err(res.error)
      ensures res.Ok? ==>
        LeafFor(entry, text, av).Ok? &&
        res.value in t.nodes && (res.value == pair || res.value !in old(t.nodes)) &&
        t.nodes[res.value].parent.None? &&
        t.rank[res.value] == old(t.rank[pair]) + (if |leaves| >= 2 then 1 else 0) &&
        t.View(res.value) == Chain(leaves + [LeafFor(entry, text, av).value])
    {
      var top := MakeRoom(t, pair, args, leaves, av);
      ghost var m1, r1, f1 := t.nodes, t.rank, t.floor;
      ghost var v1 := t.View(top);
      var leaf := MakeLeaf(t, entry, text, args, t.rank[top] - 1);
      assert ArgsIn(t.nodes, args) && ArgViews(t.nodes, t.rank, t.floor, args) == av by {
        ArgViewsKept(m1, r1, f1, t.nodes, t.rank, t.floor, args);
      }
      if leaf.Err? {
        return Err(leaf.error);
      }
      ghost var l := t.View(leaf.value);
      assert t.View(top) == v1 by {
        ViewKept(m1, r1, f1, t.nodes, t.rank, t.floor, top, {});
      }
      ghost var m2 := t.nodes;
      Attach(t, top, leaf.value, args, av);
      assert Extends(old(t.nodes), old(t.rank), t.nodes, t.rank) by {
        forall j | j in old(t.rank) ensures j in t.rank && t.rank[j] == old(t.rank[j]) {
          assert j in r1;
        }
      }
      assert forall j :: j in old(t.nodes) && j != pair ==> t.nodes[j] == old(t.nodes[j]) by {
        forall j | j in old(t.nodes) && j != pair ensures t.nodes[j] == old(t.nodes[j]) {
          assert j in m1 && j != top && j != leaf.value && m2[j] == m1[j];
        }
      }
      assert v1.(children := v1.children + [Some(l)]) == Chain(leaves + [l]) by {
        if |leaves| < 2 {
          ChainSnocShort(leaves, l);
        } else {
          ChainSnocLong(leaves, l);
        }
      }
      return Ok(top);
    }

    /** `pair.append(child)` for a parentless `pair` and a fresh `child` (Translation.py:97, 102). */
    method Attach(t: Arena, pair: Id, child: Id, args: seq<Option<Id>>, ghost av: seq<Option<Shape>>)
      requires t.Valid() && pair in t.nodes && child in t.nodes && pair != child
      requires t.nodes[pair].parent.None? && t.nodes[child].parent.None? && t.rank[child] < t.rank[pair]
      requires ArgsIn(t.nodes, args) && ArgViews(t.nodes, t.rank, t.floor, args) == av
      requires NotArg(args, pair)
      modifies t
      ensures t.Valid() && t.rank == old(t.rank) && t.nodes.Keys == old(t.nodes.Keys)
      ensures forall j :: j in old(t.nodes) && j != pair && j != child ==> t.nodes[j] == old(t.nodes[j])
      ensures t.nodes[pair].parent.None?
      ensures t.View(pair) == old(t.View(pair)).(children := old(t.View(pair)).children + [Some(old(t.View(child)))])
      ensures ArgsIn(t.nodes, args) && ArgViews(t.nodes, t.rank, t.floor, args) == av
    {
      ghost var m0, r0, f0 := t.nodes, t.rank, t.floor;
      t.Adopt(pair, child, None);
      assert ArgsIn(t.nodes, args) && ArgViews(t.nodes, t.rank, t.floor, args) == av by {
        ArgViewsAvoid(m0, r0, f0, t.nodes, t.rank, t.floor, args, pair);
      }
    }

    /**
     * The state of the loop of `__rebuildAsSplitted` after `n` entries of
     * `splits`: the records of `m0` are untouched, the argument shapes are
     * still `av`, and `pair` is the top of a fresh chain over the leaves of
     * the first `n` entries, ranked so that the final chain's top is `top`.
     */
    ghost predicate Building(t: Arena, m0: map<Id, NodeData>, r0: map<Id, int>, splits: seq<Option<string>>, n: nat,
                             text: string, args: seq<Option<Id>>, av: seq<Option<Shape>>,
                             pair: Id, leaves: seq<Shape>, top: int)
      reads t
    {
      n <= |splits| &&
      t.Valid() && Extends(m0, r0, t.nodes, t.rank) &&
      (forall j :: j in m0 ==> t.nodes[j] == m0[j]) &&
      ArgsIn(t.nodes, args) && ArgViews(t.nodes, t.rank, t.floor, args) == av &&
      pair in t.nodes && pair !in m0 && t.nodes[pair].parent.None? && NotArg(args, pair) &&
      LeavesFor(Present(splits[..n]), text, av) == Ok(leaves) && t.View(pair) == Chain(leaves) &&
      t.rank[pair] == top - ChainHeight(|Present(splits)|) + ChainHeight(|leaves|)
    }

    /**
     * The loop of `__rebuildAsSplitted` (Translation.py:73-104): a fresh
     * chain of `plus` nodes over the leaves of the present pieces of
     * `splits`, ranked `top`, or the error of the first piece that fails;
     * no old node changes.
     */
    method BuildChain(t: Arena, splits: seq<Option<string>>, text: string, args: seq<Option<Id>>,
                      ghost top: int, ghost av: seq<Option<Shape>>)
      returns (res: Result<Id, Error>)
      requires t.Valid() && ArgsIn(t.nodes, args) && ArgViews(t.nodes, t.rank, t.floor, args) == av
      modifies t
      ensures t.Valid() && Extends(old(t.nodes), old(t.rank), t.nodes, t.rank)
      ensures forall j :: j in old(t.nodes) ==> t.nodes[j] == old(t.nodes[j])
      ensures res.Err? ==> LeavesFor(Present(splits), text, av) == Err(res.error)
      ensures res.Ok? ==>
        LeavesFor(Present(splits), text, av).Ok? &&
        res.value in t.nodes && res.value !in old(t.nodes) && t.nodes[res.value].parent.None? &&
        t.rank[res.value] == top && t.View(res.value) == Chain(LeavesFor(Present(splits), text, av).value)
    {
      ghost var m0, r0 := t.nodes, t.rank;
      var pair := t.NewNode("plus", top - ChainHeight(|Present(splits)|) + 1);
      ghost var leaves: seq<Shape> := [];
      var n := 0;
      assert Building(t, m0, r0, splits, n, text, args, av, pair, leaves, top) by {
        ArgViewsKept(old(t.nodes), old(t.rank), old(t.floor), t.nodes, t.rank, t.floor, args);
        assert splits[..0] == [];
      }
      while n < |splits|
        invariant Building(t, m0, r0, splits, n, text, args, av, pair, leaves, top)
      {
        var step;
        step, leaves := Step(t, m0, r0, splits, n, text, args, pair, leaves, av, top);
        if step.Err? {
          return Err(step.error);
        }
        pair := step.value;
        n := n + 1;
      }
      assert LeavesFor(Present(splits), text, av) == Ok(leaves) && t.View(pair) == Chain(leaves) &&
        t.rank[pair] == top by {
        assert splits[..n] == splits;
      }
      return Ok(pair);
    }

    /**
     * One entry of the split in the loop of Translation.py:75-102: an absent
     * or empty entry is skipped, any other adds its leaf to the chain.
     */
    method Step(t: Arena, ghost m0: map<Id, NodeData>, ghost r0: map<Id, int>, splits: seq<Option<string>>, n: nat,
                text: string, args: seq<Option<Id>>, pair: Id, ghost leaves: seq<Shape>, ghost av: seq<Option<Shape>>,
                ghost top: int)
      returns (res: Result<Id, Error>, ghost leaves2: seq<Shape>)
      requires n < |splits| && Building(t, m0, r0, splits, n, text, args, av, pair, leaves, top)
      modifies t
      ensures res.Err? ==>
        t.Valid() && Extends(m0, r0, t.nodes, t.rank) && (forall j :: j in m0 ==> t.nodes[j] == m0[j]) &&
        LeavesFor(Present(splits), text, av) == Err(res.error)
      ensures res.Ok? ==> Building(t, m0, r0, splits, n + 1, text, args, av, res.value, leaves2, top)
    {
      var entry := splits[n];
      leaves2 := leaves;
      if entry.Some? && entry.value != "" {
        var added := AddPiece(t, pair, entry.value, text, args, leaves, av);
        assert Extends(m0, r0, t.nodes, t.rank) && forall j :: j in m0 ==> t.nodes[j] == m0[j] by {
          forall j | j in r0 ensures j in t.rank && t.rank[j] == r0[j] {
            assert j in old(t.rank);
          }
          forall j | j in m0 ensures t.nodes[j] == m0[j] {
            assert j in old(t.nodes) && j != pair;
          }
        }
        if added.Err? {
          assert LeavesFor(Present(splits), text, av) == Err(added.error) by {
            PresentStep(splits, n);
            LeavesForSnoc(Present(splits[..n]), entry.value, text, av);
            FirstErrorWins(splits, n + 1, text, av);
          }
          return Err(added.error), leaves2;
        }
        leaves2 := leaves + [LeafFor(entry.value, text, av).value];
        assert LeavesFor(Present(splits[..n + 1]), text, av) == Ok(leaves2) by {
          PresentStep(splits, n);
          LeavesForSnoc(Present(splits[..n]), entry.value, text, av);
        }
        assert NotArg(args, added.value);
        return Ok(added.value), leaves2;
      }
      assert Present(splits[..n + 1]) == Present(splits[..n]) by {
        PresentStep(splits, n);
      }
      return Ok(pair), leaves2;
    }

    /**
     * `__rebuildAsSplitted(value, mapper)` (Translation.py:65-104): `None`
     * when the pattern splits nothing off, otherwise a fresh chain of
     * `plus` nodes over the leaves of the pieces, ranked `top`; no old node
     * changes.
     */
    method RebuildAsSplit(t: Arena, value: Value, args: seq<Option<Id>>, ghost top: int)
      returns (res: Result<Option<Id>, Error>)
      requires t.Valid() && ArgsIn(t.nodes, args)
      modifies t
      ensures t.Valid() && Extends(old(t.nodes), old(t.rank), t.nodes, t.rank)
      ensures forall j :: j in old(t.nodes) ==> t.nodes[j] == old(t.nodes[j])
      ensures res.Err? ==> SplitShape(value, old(ArgViews(t.nodes, t.rank, t.floor, args))) == Err(res.error)
      ensures res == Ok(None) ==>
        t.nodes == old(t.nodes) && SplitShape(value, old(ArgViews(t.nodes, t.rank, t.floor, args))) == Ok(None)
      ensures res.Ok? && res.value.Some? ==>
        var pair := res.value.value;
        pair in t.nodes && pair !in old(t.nodes) && t.nodes[pair].parent.None? && t.rank[pair] == top &&
        SplitShape(value, old(ArgViews(t.nodes, t.rank, t.floor, args))) == Ok(Some(t.View(pair)))
    {
      if !value.Text? {
        return Err(Malformed);
      }
      var splits := ReSplit(value.text);
      if |splits| == 1 {
        return Ok(None);
      }
      var chain := BuildChain(t, splits, value.text, args, top, ArgViews(t.nodes, t.rank, t.floor, args));
      if chain.Err? {
        return Err(chain.error);
      }
      return Ok(Some(chain.value));
    }

    /**
     * `__splitTemplate(replaceNode, patchParam, valueParams)`
     * (Translation.py:107-118): the text of `patch` is split with copies of
     * `args`; a splitter error is re-raised with `replaceNode`'s line, and a
     * chain, when there is one, takes `replaceNode`'s place in its parent.
     */
    method SplitTemplate(t: Arena, replaceNode: Id, patch: Id, args: seq<Option<Id>>)
      returns (res: Result<Option<Id>, Error>)
      requires t.Valid() && replaceNode in t.nodes && patch in t.nodes && ArgsIn(t.nodes, args)
      modifies t
      ensures t.Valid() && Extends(old(t.nodes), old(t.rank), t.nodes, t.rank) && NoGrowth(old(t.nodes), t.nodes)
      ensures res.Ok? && res.value.Some? ==>
        Grafted(old(t.nodes), t.nodes, replaceNode, res.value.value) && t.rank[res.value.value] == old(t.rank[replaceNode])
      ensures res.Err? ==>
        Spliced(old(t.nodes[patch].value), old(t.nodes[replaceNode].line), old(ArgViews(t.nodes, t.rank, t.floor, args)),
                old(t.nodes[replaceNode].parent).Some?) == Err(res.error)
      ensures res.Ok? ==>
        Spliced(old(t.nodes[patch].value), old(t.nodes[replaceNode].line), old(ArgViews(t.nodes, t.rank, t.floor, args)),
                old(t.nodes[replaceNode].parent).Some?) == Ok(if res.value.Some? then Some(t.View(res.value.value)) else None)
      ensures res.Err? ==> forall j :: j in old(t.nodes) ==> t.nodes[j] == old(t.nodes[j])
      ensures res == Ok(None) ==> t.nodes == old(t.nodes)
    {
      var pair := RebuildAsSplit(t, t.nodes[patch].value, args, t.rank[replaceNode]);
      if pair.Err? {
        return Err(WithLine(pair.error, t.nodes[replaceNode].line));
      }
      if pair.value.None? {
        return Ok(None);
      }
      var n := pair.value.value;
      ghost var m1, r1 := t.nodes, t.rank;
      var ok := t.PutInPlace(replaceNode, n);
      if !ok {
        return Err(Malformed);
      }
      assert Grafted(old(t.nodes), t.nodes, replaceNode, n) && NoGrowth(old(t.nodes), t.nodes) by {
        assert Backed(old(t.nodes), replaceNode);
        GraftedAfter(old(t.nodes), m1, t.nodes, replaceNode, n);
      }
      return Ok(Some(n));
    }

    /**
     * `p.value = table[key]` on the text parameter `k`
     * (Translation.py:145-147, 157-159, 169-177): only `k` changes.
     */
    method Retext(t: Arena, k: Id, key: Value)
      requires t.Valid() && k in t.nodes
      modifies t
      ensures t.Valid() && t.rank == old(t.rank) && t.floor == old(t.floor)
      ensures t.nodes == old(t.nodes)[k := old(t.nodes[k]).(value := Translated(table, key, old(t.nodes[k].value)))]
    {
      if key.Text? && key.text in table {
        t.SetValue(k, Text(table[key.text]));
      } else {
        assert t.nodes == t.nodes[k := t.nodes[k]];
      }
    }

    /**
     * The last step of `tr` and `trc` (Translation.py:149-151, 161-163): the
     * translated text parameter `k` of the call `x` takes the call's place
     * when no argument follows it, and is split with the arguments from
     * `from` on otherwise.
     */
    method PlaceText(t: Arena, x: Id, params: Id, k: Id, from: nat) returns (res: Result<Option<Id>, Error>)
      requires t.Valid() && x in t.nodes && params in t.nodes && t.nodes[params].parent == Some(x)
      requires ArgsIn(t.nodes, t.nodes[params].children) && 0 < from <= |t.nodes[params].children|
      requires k in t.nodes && t.nodes[k].parent == Some(params)
      modifies t
      ensures t.Valid() && Extends(old(t.nodes), old(t.rank), t.nodes, t.rank) && NoGrowth(old(t.nodes), t.nodes)
      ensures Yields(t.nodes, t.rank, t.floor, res,
        if from == old(|t.nodes[params].children|) then Moved(old(t.View(k)), old(t.nodes[x].parent).Some?)
        else Spliced(old(t.nodes[k].value), old(t.nodes[x].line),
                     old(ArgViews(t.nodes, t.rank, t.floor, t.nodes[params].children[from..])), old(t.nodes[x].parent).Some?))
      ensures res.Ok? && res.value.Some? ==> Placed(old(t.nodes), t.nodes, x, res.value.value)
      ensures res == Ok(None) ==> t.nodes == old(t.nodes)
      ensures KeptOutside(old(t.nodes), t.nodes, if Replacing(res) then {x, params, k} + IdsOf(old(t.nodes[x].parent)) else {})
    {
      assert t.rank[params] < t.rank[x] by {
        ParentRanksAbove(t.nodes, t.rank, t.floor, params);
      }
      ghost var m0 := t.nodes;
      if |t.nodes[params].children| == from {
        var ok := t.Promote(x, k);
        if !ok {
          return Err(Malformed);
        }
        KeptMore(m0, t.nodes, {x, k} + IdsOf(m0[x].parent) + IdsOf(m0[k].parent), {x, params, k} + IdsOf(m0[x].parent));
        return Ok(Some(k));
      }
      res := SplitTemplate(t, x, k, t.nodes[params].children[from..]);
      if Replacing(res) {
        GraftedKept(m0, t.nodes, x, res.value.value);
        KeptMore(m0, t.nodes, {x} + IdsOf(m0[x].parent), {x, params, k} + IdsOf(m0[x].parent));
      }
    }

    /**
     * `tr(msg, arg1, ...)` (Translation.py:143-151) on the call `x`, whose
     * argument list is `params` and whose message is `p0`: the message is
     * translated, then either takes the call's place or is split with the
     * remaining arguments.
     */
    method RewriteTr(t: Arena, x: Id, params: Id, p0: Id) returns (res: Result<Option<Id>, Error>)
      requires t.Valid() && x in t.nodes && params in t.nodes && t.nodes[params].parent == Some(x)
      requires ArgsIn(t.nodes, t.nodes[params].children)
      requires |t.nodes[params].children| >= 1 && t.nodes[params].children[0] == Some(p0)
      modifies t
      ensures t.Valid() && Extends(old(t.nodes), old(t.rank), t.nodes, t.rank) && NoGrowth(old(t.nodes), t.nodes)
      ensures Yields(t.nodes, t.rank, t.floor, res,
        TrArgs(old(ArgViews(t.nodes, t.rank, t.floor, t.nodes[params].children)), old(t.nodes[x].line), table,
               old(t.nodes[x].parent).Some?))
      ensures res.Ok? && res.value.Some? ==> Placed(old(t.nodes), t.nodes, x, res.value.value)
      ensures res == Ok(None) ==>
        t.nodes == old(t.nodes)[p0 := old(t.nodes[p0]).(value := Translated(table, old(t.nodes[p0].value), old(t.nodes[p0].value)))]
      ensures KeptOutside(old(t.nodes), t.nodes, {p0} + if Replacing(res) then {x, params} + IdsOf(old(t.nodes[x].parent)) else {})
    {
      ghost var m0 := t.nodes;
      assert p0 != x && p0 != params && m0[x].parent != Some(p0) && m0[p0].parent == Some(params) by {
        ParentRanksAbove(t.nodes, t.rank, t.floor, params);
        assert RankedEdge(t.nodes, t.rank, params, 0) && LinkedEdge(t.nodes, params, 0);
        if t.nodes[x].parent.Some? {
          ParentRanksAbove(t.nodes, t.rank, t.floor, x);
        }
      }
      ghost var r0, f0 := t.rank, t.floor;
      ghost var d := m0[p0].(value := Translated(table, m0[p0].value, m0[p0].value));
      TrPlanned(m0, r0, f0, params, p0,  m0[x].line, m0[x].parent.Some?, table);
      Retext(t, p0, t.nodes[p0].value);
      res := PlaceText(t, x, params, p0, 1);
      AfterRelabel(m0, p0, d, r0, t.nodes, t.rank, x, if res.Ok? then res.value else None);
      RelabelKept(m0, p0, d, t.nodes, x, params, Replacing(res));
    }

    /**
     * `trc(hint, msg, arg1, ...)` (Translation.py:155-163) on the call `x`:
     * the hint `p0` is the key, the message `p1` gets the translation, then
     * takes the call's place or is split with the remaining arguments.
     */
    method RewriteTrc(t: Arena, x: Id, params: Id, p0: Id, p1: Id) returns (res: Result<Option<Id>, Error>)
      requires t.Valid() && x in t.nodes && params in t.nodes && t.nodes[params].parent == Some(x)
      requires ArgsIn(t.nodes, t.nodes[params].children) && |t.nodes[params].children| >= 2
      requires t.nodes[params].children[0] == Some(p0) && t.nodes[params].children[1] == Some(p1)
      modifies t
      ensures t.Valid() && Extends(old(t.nodes), old(t.rank), t.nodes, t.rank) && NoGrowth(old(t.nodes), t.nodes)
      ensures Yields(t.nodes, t.rank, t.floor, res,
        TrcArgs(old(ArgViews(t.nodes, t.rank, t.floor, t.nodes[params].children)), old(t.nodes[x].line), table,
                old(t.nodes[x].parent).Some?))
      ensures res.Ok? && res.value.Some? ==> Placed(old(t.nodes), t.nodes, x, res.value.value)
      ensures res == Ok(None) ==>
        t.nodes == old(t.nodes)[p1 := old(t.nodes[p1]).(value := Translated(table, old(t.nodes[p0].value), old(t.nodes[p1].value)))]
      ensures KeptOutside(old(t.nodes), t.nodes, {p1} + if Replacing(res) then {x, params} + IdsOf(old(t.nodes[x].parent)) else {})
    {
      ghost var m0 := t.nodes;
      assert p1 != x && p1 != params && m0[x].parent != Some(p1) && m0[p1].parent == Some(params) by {
        ParentRanksAbove(t.nodes, t.rank, t.floor, params);
        assert RankedEdge(t.nodes, t.rank, params, 1) && LinkedEdge(t.nodes, params, 1);
        if t.nodes[x].parent.Some? {
          ParentRanksAbove(t.nodes, t.rank, t.floor, x);
        }
      }
      ghost var r0, f0 := t.rank, t.floor;
      ghost var d := m0[p1].(value := Translated(table, m0[p0].value, m0[p1].value));
      TrcPlanned(m0, r0, f0, params, p0, p1, m0[x].line, m0[x].parent.Some?, table);
      Retext(t, p1, t.nodes[p0].value);
      res := PlaceText(t, x, params, p1, 2);
      AfterRelabel(m0, p1, d, r0, t.nodes, t.rank, x, if res.Ok? then res.value else None);
      RelabelKept(m0, p1, d, t.nodes, x, params, Replacing(res));
    }

    /** `number = Node(None, "number")`, `number.value = 1` (Translation.py:188-189), ranked `r`. */
    method NewNumber(t: Arena, ghost r: int) returns (number: Id)
      requires t.Valid()
      modifies t
      ensures t.Valid() && Extends(old(t.nodes), old(t.rank), t.nodes, t.rank)
      ensures number !in old(t.nodes) && t.nodes == old(t.nodes)[number := Blank("number").(value := Number(1))]
      ensures t.rank == old(t.rank)[number := r] && t.floor == (if r < old(t.floor) then r else old(t.floor))
    {
      number := t.NewNode("number", r);
      t.SetValue(number, Number(1));
    }

    /**
     * `condition = Node(None, "le")` and `condition.append(params[2])`
     * (Translation.py:186-187): a new `le` node ranked like `params` whose
     * only child is the count, or a hole when the list has one there.
     */
    method LeWithCount(t: Arena, params: Id, count: Option<Id>) returns (cond: Id)
      requires t.Valid() && params in t.nodes && |t.nodes[params].children| >= 3 && t.nodes[params].children[2] == count
      requires count.Some? ==> count.value in t.nodes
      modifies t
      ensures t.Valid() && Extends(old(t.nodes), old(t.rank), t.nodes, t.rank)
      ensures cond in t.nodes && cond !in old(t.nodes) && t.nodes[cond].parent.None? && t.rank[cond] == old(t.rank[params])
      ensures t.View(cond) == Shape("le", NoValue, None, false, [if count.Some? then Some(old(t.View(count.value))) else None])
      ensures t.nodes[params] ==
        old(t.nodes[params]).(children := if count.Some? then RemoveAt(old(t.nodes[params].children), 2) else old(t.nodes[params].children))
      ensures forall j :: j in old(t.nodes) && j != params && Some(j) != count ==> t.nodes[j] == old(t.nodes[j])
      ensures count.Some? ==> SameCore(t.nodes[count.value], old(t.nodes[count.value]))
    {
      ghost var m0, r0, f0 := t.nodes, t.rank, t.floor;
      cond := t.NewNode("le", t.rank[params]);
      if count.Some? {
        assert t.rank[count.value] < t.rank[cond] by {
          assert RankedEdge(m0, r0, params, 2);
        }
        t.Append(cond, count.value, None);
      } else {
        t.AppendHole(cond);
      }
      LeStarted(m0, r0, f0, params, count, cond);
    }

    /**
     * `number = Node(None, "number")`, `number.value = 1` and
     * `condition.append(number)` (Translation.py:188-190): the number 1
     * joins the end of `cond`'s list.
     */
    method JoinNumber(t: Arena, cond: Id)
      requires t.Valid() && cond in t.nodes
      modifies t
      ensures t.Valid() && Extends(old(t.nodes), old(t.rank), t.nodes, t.rank)
      ensures forall j :: j in old(t.nodes) && j != cond ==> t.nodes[j] == old(t.nodes[j])
      ensures t.nodes[cond].parent == old(t.nodes[cond].parent)
      ensures t.View(cond) == old(t.View(cond)).(children := old(t.View(cond)).children + [Some(NumberOne())])
    {
      ghost var m2, r2, f2 := t.nodes, t.rank, t.floor;
      var number := NewNumber(t, t.rank[cond] - 1);
      assert t.View(number) == NumberOne() by {
        assert t.View(number).children == [];
      }
      assert t.View(cond) == ViewOf(m2, r2, f2, cond) by {
        ViewKept(m2, r2, f2, t.nodes, t.rank, t.floor, cond, {});
      }
      t.Adopt(cond, number, None);
    }

    /**
     * `condition = Node(None, "le")`, `condition.append(params[2])` and the
     * `number` node holding 1 after it (Translation.py:186-190): a new `le`
     * node ranked like `params` over the count and the number 1.
     */
    method MakeCondition(t: Arena, params: Id, count: Option<Id>) returns (cond: Id)
      requires t.Valid() && params in t.nodes && |t.nodes[params].children| >= 3 && t.nodes[params].children[2] == count
      requires count.Some? ==> count.value in t.nodes
      modifies t
      ensures t.Valid() && Extends(old(t.nodes), old(t.rank), t.nodes, t.rank)
      ensures cond in t.nodes && cond !in old(t.nodes) && t.nodes[cond].parent.None? && t.rank[cond] == old(t.rank[params])
      ensures t.View(cond) ==
        Shape("le", NoValue, None, false, [if count.Some? then Some(old(t.View(count.value))) else None, Some(NumberOne())])
      ensures t.nodes[params] ==
        old(t.nodes[params]).(children := if count.Some? then RemoveAt(old(t.nodes[params].children), 2) else old(t.nodes[params].children))
      ensures forall j :: j in old(t.nodes) && j != params && Some(j) != count ==> t.nodes[j] == old(t.nodes[j])
      ensures count.Some? ==> SameCore(t.nodes[count.value], old(t.nodes[count.value]))
    {
      cond := LeWithCount(t, params, count);
      JoinNumber(t, cond);
    }
  

    /** `hook = Node(None, "hook")` and `hook.parenthesized = True` (Translation.py:184-185), ranked `r`. */
    method NewHook(t: Arena, ghost r: int) returns (hook: Id)
      requires t.Valid()
      modifies t
      ensures t.Valid() && Extends(old(t.nodes), old(t.rank), t.nodes, t.rank)
      ensures hook !in old(t.nodes) && t.nodes == old(t.nodes)[hook := Blank("hook").(parenthesized := true)]
      ensures t.rank == old(t.rank)[hook := r]
    {
      hook := t.NewNode("hook", r);
      t.SetParenthesized(hook);
    }

    /**
     * `hook = Node(None, "hook")`, `hook.parenthesized = True` and
     * `hook.append(condition, "condition")` (Translation.py:184-185, 192)
     * for a condition `cond` with no parent: a new hook, ranked `r`, over it.
     */
    method Crown(t: Arena, cond: Id, ghost r: int) returns (hook: Id)
      requires t.Valid() && cond in t.nodes && t.nodes[cond].parent.None? && t.rank[cond] < r
      modifies t
      ensures t.Valid() && Extends(old(t.nodes), old(t.rank), t.nodes, t.rank)
      ensures hook in t.nodes && hook !in old(t.nodes) && t.rank[hook] == r
      ensures t.nodes[hook] == Blank("hook").(parenthesized := true, children := [Some(cond)])
      ensures t.nodes[cond] == old(t.nodes[cond]).(parent := Some(hook), rel := Some("condition"))
      ensures forall j :: j in old(t.nodes) && j != cond ==> t.nodes[j] == old(t.nodes[j])
      ensures t.View(hook) == Shape("hook", NoValue, None, true, [Some(old(t.View(cond)))])
    {
      ghost var m1, r1, f1 := t.nodes, t.rank, t.floor;
      hook := NewHook(t, r);
      assert t.View(cond) == ViewOf(m1, r1, f1, cond) by {
        ViewKept(m1, r1, f1, t.nodes, t.rank, t.floor, cond, {});
      }
      assert t.View(hook).children == [];
      t.Adopt(hook, cond, Some("condition"));
    }

    /**
     * The hook with its condition (Translation.py:184-192): a new
     * parenthesized `hook`, ranked `r`, whose one child, in the role
     * `condition`, is `le(count, 1)`.
     */
    method HookWithCondition(t: Arena, params: Id, count: Option<Id>, ghost r: int) returns (hook: Id, cond: Id)
      requires t.Valid() && params in t.nodes && |t.nodes[params].children| >= 3 && t.nodes[params].children[2] == count
      requires count.Some? ==> count.value in t.nodes
      requires t.rank[params] < r
      modifies t
      ensures t.Valid() && Extends(old(t.nodes), old(t.rank), t.nodes, t.rank)
      ensures hook in t.nodes && hook !in old(t.nodes) && cond !in old(t.nodes)
      ensures t.nodes[hook].parent.None? && t.nodes[hook].children == [Some(cond)]
      ensures t.rank[hook] == r && cond in t.rank && t.rank[cond] == old(t.rank[params])
      ensures t.View(hook) == Shape("hook", NoValue, None, true,
        [Some(Shape("le", NoValue, None, false, [if count.Some? then Some(old(t.View(count.value))) else None, Some(NumberOne())]))])
      ensures t.nodes[params] ==
        old(t.nodes[params]).(children := if count.Some? then RemoveAt(old(t.nodes[params].children), 2) else old(t.nodes[params].children))
      ensures forall j :: j in old(t.nodes) && j != params && Some(j) != count ==> t.nodes[j] == old(t.nodes[j])
      ensures count.Some? ==> SameCore(t.nodes[count.value], old(t.nodes[count.value]))
      ensures NoGrowth(old(t.nodes), t.nodes)
    {
      cond := MakeCondition(t, params, count);
      hook := Crown(t, cond, r);
    }
  
    /**
     * `hook.append(params[1], "elsePart")` (Translation.py:193): the plural
     * text leaves `q`'s list for the end of `hook`'s, after the condition
     * `e`; the singular text `keep` keeps its place and its shape.
     */
    method AddPlural(t: Arena, hook: Id, q: Id, plural: Id, keep: Id, ghost e: Option<Id>, ghost x: Id)
      requires t.Valid() && hook in t.nodes && plural in t.nodes && keep in t.nodes && plural != keep
      requires t.nodes[plural].parent == Some(q) && t.nodes[keep].parent == Some(q) && q != hook
      requires q in t.rank && t.rank[plural] < t.rank[q] && t.rank[keep] < t.rank[q] && t.rank[q] < t.rank[hook]
      requires t.nodes[hook].children == [e] && (e.Some? ==> e.value != q && e.value in t.rank && t.rank[e.value] <= t.rank[q])
      requires Above(t.nodes, t.rank, x, t.rank[q]) && x != hook && (t.nodes[x].parent.Some? ==> t.nodes[x].parent.value != hook)
      modifies t
      ensures t.Valid() && t.nodes.Keys == old(t.nodes).Keys && t.rank == old(t.rank) && t.floor == old(t.floor)
      ensures forall j :: j in old(t.nodes) && j != hook ==> |t.nodes[j].children| <= |old(t.nodes[j].children)|
      ensures t.nodes[hook].parent == old(t.nodes[hook].parent) && t.nodes[hook].children == [e, Some(plural)]
      ensures SameAt(old(t.nodes), t.nodes, x)
      ensures t.nodes[keep].parent == Some(q) && t.View(keep) == old(t.View(keep))
      ensures t.View(hook) == old(t.View(hook)).(children := old(t.View(hook)).children + [Some(old(t.View(plural)))])
      ensures KeptOutside(old(t.nodes), t.nodes, {hook, q, plural})
    {
      ghost var m1, r1, f1 := t.nodes, t.rank, t.floor;
      t.AppendMoved(hook, plural, Some("elsePart"));
      assert KeptOutside(m1, t.nodes, {hook, q, plural}) by {
        forall j | j !in {hook, q, plural} ensures SameRecord(m1, t.nodes, j) {
        }
      }
      assert t.View(keep) == ViewOf(m1, r1, f1, keep) by {
        assert SameCore(t.nodes[plural], m1[plural]);
        ViewKept(m1, r1, f1, t.nodes, t.rank, t.floor, keep, {hook, q});
      }
    }

    /** `hook.append(params[0], "thenPart")` (Translation.py:194): the singular text joins `hook` after the plural one. */
    method AddSingular(t: Arena, hook: Id, q: Id, singular: Id, ghost e: Option<Id>, ghost plural: Id, ghost x: Id)
      requires t.Valid() && hook in t.nodes && singular in t.nodes && t.nodes[singular].parent == Some(q) && q != hook
      requires q in t.rank && t.rank[singular] < t.rank[q] && t.rank[q] < t.rank[hook]
      requires t.nodes[hook].children == [e, Some(plural)] && plural != q && plural in t.rank && t.rank[plural] <= t.rank[q]
      requires e.Some? ==> e.value != q && e.value in t.rank && t.rank[e.value] <= t.rank[q]
      requires Above(t.nodes, t.rank, x, t.rank[q]) && x != hook && (t.nodes[x].parent.Some? ==> t.nodes[x].parent.value != hook)
      modifies t
      ensures t.Valid() && t.nodes.Keys == old(t.nodes).Keys && t.rank == old(t.rank) && t.floor == old(t.floor)
      ensures forall j :: j in old(t.nodes) && j != hook ==> |t.nodes[j].children| <= |old(t.nodes[j].children)|
      ensures t.nodes[hook].parent == old(t.nodes[hook].parent)
      ensures t.View(hook) == old(t.View(hook)).(children := old(t.View(hook)).children + [Some(old(t.View(singular)))])
      ensures SameAt(old(t.nodes), t.nodes, x)
      ensures KeptOutside(old(t.nodes), t.nodes, {hook, q, singular})
    {
      t.AppendMoved(hook, singular, Some("thenPart"));
    }

    /**
     * `hook.append(params[1], "elsePart")` and `hook.append(params[0],
     * "thenPart")` (Translation.py:193-194): the plural and then the
     * singular text leave `q`'s list for the end of `hook`'s.
     */
    method AddBranches(t: Arena, hook: Id, q: Id, plural: Id, singular: Id, ghost e: Option<Id>, ghost x: Id)
      requires t.Valid() && hook in t.nodes && plural in t.nodes && singular in t.nodes && plural != singular
      requires t.nodes[plural].parent == Some(q) && t.nodes[singular].parent == Some(q) && q != hook
      requires q in t.rank && t.rank[plural] < t.rank[q] && t.rank[singular] < t.rank[q] && t.rank[q] < t.rank[hook]
      requires Above(t.nodes, t.rank, x, t.rank[q]) && x != hook && (t.nodes[x].parent.Some? ==> t.nodes[x].parent.value != hook)
      requires t.nodes[hook].children == [e] && (e.Some? ==> e.value != q && e.value in t.rank && t.rank[e.value] <= t.rank[q])
      modifies t
      ensures t.Valid() && t.nodes.Keys == old(t.nodes).Keys && t.rank == old(t.rank) && t.floor == old(t.floor)
      ensures forall j :: j in old(t.nodes) && j != hook ==> |t.nodes[j].children| <= |old(t.nodes[j].children)|
      ensures t.nodes[hook].parent == old(t.nodes[hook].parent)
      ensures t.View(hook) ==
        old(t.View(hook)).(children := old(t.View(hook)).children + [Some(old(t.View(plural))), Some(old(t.View(singular)))])
      ensures SameAt(old(t.nodes), t.nodes, x)
      ensures KeptOutside(old(t.nodes), t.nodes, {hook, q, plural, singular})
    {
      ghost var m0 := t.nodes;
      AddPlural(t, hook, q, plural, singular, e, x);
      ghost var m1 := t.nodes;
      AddSingular(t, hook, q, singular, e, plural, x);
      KeptThen(m0, m1, t.nodes, {hook, q, plural}, {hook, q, singular}, {hook, q, plural, singular});
    }

    /**
     * `HookWithCondition` on the argument list of a plural call, with what
     * it keeps of the two texts: their place in `params` and their shapes.
     */
    method StartHook(t: Arena, params: Id, singular: Id, plural: Id, count: Option<Id>, ghost r: int, ghost x: Id)
      returns (hook: Id, cond: Id)
      requires t.Valid() && params in t.nodes && |t.nodes[params].children| >= 3 && Above(t.nodes, t.rank, x, t.rank[params])
      requires t.nodes[params].children[0] == Some(singular) && t.nodes[params].children[1] == Some(plural)
      requires t.nodes[params].children[2] == count && t.rank[params] < r
      modifies t
      ensures t.Valid() && Extends(old(t.nodes), old(t.rank), t.nodes, t.rank) && NoGrowth(old(t.nodes), t.nodes)
      ensures hook in t.nodes && hook !in old(t.nodes) && cond !in old(t.nodes) && params in old(t.nodes)
      ensures t.nodes[hook].parent.None? && t.nodes[hook].children == [Some(cond)]
      ensures t.rank[hook] == r && cond in t.rank && t.rank[cond] == old(t.rank[params])
      ensures count.Some? ==> count.value in old(t.nodes)
      ensures t.View(hook) == Shape("hook", NoValue, None, true,
        [Some(Shape("le", NoValue, None, false, [if count.Some? then Some(old(t.View(count.value))) else None, Some(NumberOne())]))])
      ensures singular in old(t.nodes) && plural in old(t.nodes) && singular != plural
      ensures t.nodes[singular].parent == Some(params) && t.nodes[plural].parent == Some(params)
      ensures t.rank[singular] < t.rank[params] && t.rank[plural] < t.rank[params]
      ensures t.View(singular) == old(t.View(singular)) && t.View(plural) == old(t.View(plural))
      ensures SameAt(old(t.nodes), t.nodes, x) && Above(t.nodes, t.rank, x, t.rank[params])
      ensures KeptOutside(old(t.nodes), t.nodes, {params} + IdsOf(count))
    {
      ghost var m0, r0, f0 := t.nodes, t.rank, t.floor;
      FirstThree(m0, r0, f0, params, singular, plural, count);
      hook, cond := HookWithCondition(t, params, count, r);
      ViewKeptOne(m0, r0, f0, t.nodes, t.rank, t.floor, plural, params);
      ViewKeptOne(m0, r0, f0, t.nodes, t.rank, t.floor, singular, params);
    }

    /**
     * The hook of a plural call (Translation.py:184-194): `le(count, 1)`,
     * then the plural text and the singular text, each taken out of the
     * argument list `params`, under a new parenthesized hook ranked `r`.
     */
    method BuildHook(t: Arena, params: Id, singular: Id, plural: Id, count: Option<Id>, ghost r: int, ghost x: Id) returns (hook: Id)
      requires t.Valid() && params in t.nodes && |t.nodes[params].children| >= 3 && Above(t.nodes, t.rank, x, t.rank[params])
      requires t.nodes[params].children[0] == Some(singular) && t.nodes[params].children[1] == Some(plural)
      requires t.nodes[params].children[2] == count && t.rank[params] < r
      modifies t
      ensures t.Valid() && Extends(old(t.nodes), old(t.rank), t.nodes, t.rank)
      ensures hook in t.nodes && hook !in old(t.nodes) && t.nodes[hook].parent.None? && t.rank[hook] == r
      ensures count.Some? ==> count.value in old(t.nodes)
      ensures singular in old(t.nodes) && plural in old(t.nodes) && NoGrowth(old(t.nodes), t.nodes)
      ensures t.View(hook) ==
        HookShape(if count.Some? then Some(old(t.View(count.value))) else None, old(t.View(plural)), old(t.View(singular)))
      ensures SameAt(old(t.nodes), t.nodes, x)
      ensures KeptOutside(old(t.nodes), t.nodes, {params, singular, plural} + IdsOf(count))
    {
      ghost var m0 := t.nodes;
      var cond;
      hook, cond := StartHook(t, params, singular, plural, count, r, x);
      ghost var m1 := t.nodes;
      ghost var hv, pv, sv := t.View(hook), t.View(plural), t.View(singular);
      AddBranches(t, hook, params, plural, singular, Some(cond), x);
      assert t.View(hook) == hv.(children := hv.children + [Some(pv), Some(sv)]);
      assert NoGrowth(m0, t.nodes) by { NoGrowthThen(m0, m1, t.nodes, hook); }
      assert KeptOutside(m0, t.nodes, {params, singular, plural} + IdsOf(count)) by {
        KeptThen(m0, m1, t.nodes, {params} + IdsOf(count), {hook, params, plural, singular}, {params, singular, plural} + IdsOf(count));
      }
    }
  
    /**
     * `self.__splitTemplate(params[i], params[i], params[3:])`
     * (Translation.py:179-181) on the text `k` at index `i` of `params`:
     * its chain takes its slot, or it stays when there is nothing to split.
     */
    method SplitLeg(t: Arena, params: Id, i: nat, k: Id) returns (res: Result<Id, Error>)
      requires t.Valid() && params in t.nodes && 3 <= |t.nodes[params].children| && i < 3
      requires t.nodes[params].children[i] == Some(k) && ArgsIn(t.nodes, t.nodes[params].children[3..])
      modifies t
      ensures t.Valid() && Extends(old(t.nodes), old(t.rank), t.nodes, t.rank) && NoGrowth(old(t.nodes), t.nodes)
      ensures k in old(t.nodes)
      ensures res.Err? ==> Leg(old(t.View(k)), old(ArgViews(t.nodes, t.rank, t.floor, t.nodes[params].children[3..]))) == Err(res.error)
      ensures res.Ok? ==> (res.value in t.nodes &&
        Leg(old(t.View(k)), old(ArgViews(t.nodes, t.rank, t.floor, t.nodes[params].children[3..]))) == Ok(t.View(res.value)))
      ensures res.Ok? ==> (t.nodes[params].children == old(t.nodes[params].children)[i := Some(res.value)] &&
        t.nodes[res.value].parent == Some(params) && t.rank[res.value] == old(t.rank[k]))
      ensures forall j :: j in old(t.nodes) && j != params && j != k ==> t.nodes[j] == old(t.nodes[j])
      ensures SameCore(t.nodes[k], old(t.nodes[k]))
      ensures res.Ok? ==> res.value == k || res.value !in old(t.nodes)
    {
      assert k in t.nodes && t.nodes[k].parent == Some(params) && Distinct(t.nodes[params].children) by {
        assert RankedEdge(t.nodes, t.rank, params, i) && LinkedEdge(t.nodes, params, i) && DistinctList(t.nodes, params);
      }
      IndexOfDistinct(t.nodes[params].children, i, k);
      var r := SplitTemplate(t, k, k, t.nodes[params].children[3..]);
      if r.Err? {
        return Err(r.error);
      } else if r.value.None? {
        ViewKept(old(t.nodes), old(t.rank), old(t.floor), t.nodes, t.rank, t.floor, k, {});
        return Ok(k);
      }
      return Ok(r.value.value);
    }
  
    /**
     * `SplitLeg`, with what the split keeps: the shapes of the other
     * entries of `params` and of the arguments after the count.
     */
    method SplitText(t: Arena, params: Id, i: nat, k: Id, ghost other: Id, ghost count: Option<Id>, ghost x: Id)
      returns (res: Result<Id, Error>)
      requires t.Valid() && params in t.nodes && 3 <= |t.nodes[params].children| && i < 2
      requires t.nodes[params].children[i] == Some(k) && ArgsIn(t.nodes, t.nodes[params].children)
      requires t.nodes[params].children[1 - i] == Some(other) && t.nodes[params].children[2] == count
      requires Above(t.nodes, t.rank, x, t.rank[params])
      modifies t
      ensures t.Valid() && Extends(old(t.nodes), old(t.rank), t.nodes, t.rank) && NoGrowth(old(t.nodes), t.nodes)
      ensures k in old(t.nodes) && ArgsIn(old(t.nodes), old(t.nodes[params].children[3..]))
      ensures res.Err? ==> Leg(old(t.View(k)), old(ArgViews(t.nodes, t.rank, t.floor, t.nodes[params].children[3..]))) == Err(res.error)
      ensures res.Ok? ==> (res.value in t.nodes &&
        Leg(old(t.View(k)), old(ArgViews(t.nodes, t.rank, t.floor, t.nodes[params].children[3..]))) == Ok(t.View(res.value)))
      ensures res.Ok? ==> (t.nodes[params].children == old(t.nodes[params].children)[i := Some(res.value)] &&
        ArgsIn(t.nodes, t.nodes[params].children) &&
        ArgViews(t.nodes, t.rank, t.floor, t.nodes[params].children[3..]) == old(ArgViews(t.nodes, t.rank, t.floor, t.nodes[params].children[3..])))
      ensures other in old(t.nodes) && (count.Some? ==> count.value in old(t.nodes))
      ensures res.Ok? ==> t.View(other) == old(t.View(other))
      ensures res.Ok? && count.Some? ==> t.View(count.value) == old(t.View(count.value))
      ensures res.Ok? ==> t.rank[res.value] < t.rank[params]
      ensures SameAt(old(t.nodes), t.nodes, x)
      ensures KeptOutside(old(t.nodes), t.nodes, {params, k}) && (res.Ok? ==> res.value == k || res.value !in old(t.nodes))
    {
      ghost var m0, r0, f0 := t.nodes, t.rank, t.floor;
      ghost var ch := t.nodes[params].children;
      ChildArgs(m0, r0, f0, params, 3);
      FirstThree(m0, r0, f0, params, ch[0].value, ch[1].value, count);
      assert r0[k] < r0[params] by {
        assert RankedEdge(m0, r0, params, i);
      }
      res := SplitLeg(t, params, i, k);
      if res.Ok? {
        LegKept(m0, r0, f0, t.nodes, t.rank, t.floor, params, i, k, res.value, other, count);
      }
    }

    /**
     * `self.__splitTemplate(params[0], params[0], params[3:])` and then
     * the same for `params[1]` (Translation.py:179-181): each text's chain
     * takes its slot in `params`.
     */
    method SplitLegs(t: Arena, params: Id, p0: Id, p1: Id, ghost x: Id) returns (res: Result<(Id, Id), Error>)
      requires t.Valid() && params in t.nodes && 3 <= |t.nodes[params].children| && ArgsIn(t.nodes, t.nodes[params].children)
      requires Above(t.nodes, t.rank, x, t.rank[params])
      requires t.nodes[params].children[0] == Some(p0) && t.nodes[params].children[1] == Some(p1)
      modifies t
      ensures t.Valid() && Extends(old(t.nodes), old(t.rank), t.nodes, t.rank) && NoGrowth(old(t.nodes), t.nodes)
      ensures p0 in old(t.nodes) && p1 in old(t.nodes) && ArgsIn(old(t.nodes), old(t.nodes[params].children[3..]))
      ensures res.Ok? ==> (res.value.0 in t.nodes && res.value.1 in t.nodes &&
        t.nodes[params].children == old(t.nodes[params].children)[0 := Some(res.value.0)][1 := Some(res.value.1)])
      ensures Legs(old(t.View(p0)), old(t.View(p1)), old(ArgViews(t.nodes, t.rank, t.floor, t.nodes[params].children[3..]))) ==
        if res.Ok? then Ok((t.View(res.value.0), t.View(res.value.1))) else Err(res.error)
      ensures res.Ok? ==> t.rank[res.value.0] < t.rank[params] && t.rank[res.value.1] < t.rank[params]
      ensures SameAt(old(t.nodes), t.nodes, x)
      ensures var c := old(t.nodes[params].children[2]);
        c.Some? ==> c.value in old(t.nodes) && (res.Ok? ==> t.View(c.value) == old(t.View(c.value)))
      ensures KeptOutside(old(t.nodes), t.nodes, {params, p0, p1})
      ensures res.Ok? ==> (res.value.0 == p0 || res.value.0 !in old(t.nodes)) && (res.value.1 == p1 || res.value.1 !in old(t.nodes))
    {
      ghost var ch := t.nodes[params].children;
      ChildArgs(t.nodes, t.rank, t.floor, params, 3);
      assert RankedEdge(t.nodes, t.rank, params, 2);
      ghost var args := ArgViews(t.nodes, t.rank, t.floor, ch[3..]);
      ghost var v0, v1 := t.View(p0), t.View(p1);
      ghost var vc := if ch[2].Some? then Some(t.View(ch[2].value)) else None;
      ghost var m0 := t.nodes;
      var s := SplitText(t, params, 0, p0, p1, ch[2], x);
      if s.Err? {
        assert Leg(v0, args) == Err(s.error);
        KeptMore(m0, t.nodes, {params, p0}, {params, p0, p1});
        return Err(s.error);
      }
      ghost var m1 := t.nodes;
      ghost var vs := t.View(s.value);
      assert Leg(v0, args) == Ok(vs);
      assert t.View(p1) == v1 && t.nodes[params].children[1] == Some(p1) && t.nodes[params].children[2] == ch[2];
      assert vc == if ch[2].Some? then Some(t.View(ch[2].value)) else None;
      var p := SplitText(t, params, 1, p1, s.value, ch[2], x);
      KeptThen(m0, m1, t.nodes, {params, p0}, {params, p1}, {params, p0, p1});
      if p.Err? {
        assert Leg(v1, args) == Err(p.error);
        return Err(p.error);
      }
      assert Leg(v1, args) == Ok(t.View(p.value));
      assert t.View(s.value) == vs;
      assert vc == if ch[2].Some? then Some(t.View(ch[2].value)) else None;
      return Ok((s.value, p.value));
    }
  
    /**
     * `keyX = params[i].value` and `if keyX in table: params[i].value =
     * table[keyX]` (Translation.py:169-175) on the text `k` of a plural
     * call: only its value changes, and the shapes of the other text and of
     * the entries from the count on stay as they were.
     */
    method RetextText(t: Arena, params: Id, i: nat, k: Id, ghost x: Id) returns (ghost other: Id)
      requires t.Valid() && params in t.nodes && |t.nodes[params].children| >= 2 && i < 2
      requires Above(t.nodes, t.rank, x, t.rank[params])
      requires t.nodes[params].children[i] == Some(k) && t.nodes[params].children[1 - i].Some?
      modifies t
      ensures t.Valid() && t.rank == old(t.rank) && t.floor == old(t.floor)
      ensures k in old(t.nodes) && k != params && ArgsIn(old(t.nodes), old(t.nodes[params].children))
      ensures t.nodes == old(t.nodes)[k := old(t.nodes[k]).(value := Translated(table, old(t.nodes[k].value), old(t.nodes[k].value)))]
      ensures t.View(k) == old(t.View(k)).(value := Translated(table, old(t.nodes[k].value), old(t.nodes[k].value)))
      ensures other == old(t.nodes[params].children[1 - i].value) && other in old(t.nodes) && t.View(other) == old(t.View(other))
      ensures SameAt(old(t.nodes), t.nodes, x)
      ensures ArgsIn(t.nodes, t.nodes[params].children[2..]) &&
        ArgViews(t.nodes, t.rank, t.floor, t.nodes[params].children[2..]) == old(ArgViews(t.nodes, t.rank, t.floor, t.nodes[params].children))[2..]
    {
      ghost var m0, r0, f0 := t.nodes, t.rank, t.floor;
      assert k in m0 && r0[k] < r0[params] by {
        assert RankedEdge(m0, r0, params, i);
      }
      ghost var d := m0[k].(value := Translated(table, m0[k].value, m0[k].value));
      other := m0[params].children[1 - i].value;
      RelabelledEntry(m0, r0, f0, params, i, 2, d);
      Retext(t, k, t.nodes[k].value);
    }

    /**
     * Both texts of a plural call translated (Translation.py:169-175): the
     * shapes of the entries of `params` change only in the two values.
     */
    method RetextBoth(t: Arena, params: Id, p0: Id, p1: Id, ghost x: Id)
      requires t.Valid() && params in t.nodes && |t.nodes[params].children| >= 2
      requires Above(t.nodes, t.rank, x, t.rank[params])
      requires t.nodes[params].children[0] == Some(p0) && t.nodes[params].children[1] == Some(p1)
      modifies t
      ensures t.Valid() && t.rank == old(t.rank) && t.floor == old(t.floor) && t.nodes.Keys == old(t.nodes).Keys
      ensures NoGrowth(old(t.nodes), t.nodes) && t.nodes[params] == old(t.nodes[params])
      ensures KeptOutside(old(t.nodes), t.nodes, {p0, p1})
      ensures SameAt(old(t.nodes), t.nodes, x)
      ensures ArgsIn(old(t.nodes), old(t.nodes[params].children)) && ArgsIn(t.nodes, t.nodes[params].children)
      ensures var ps := old(ArgViews(t.nodes, t.rank, t.floor, t.nodes[params].children));
        t.View(p0) == ps[0].value.(value := Translated(table, ps[0].value.value, ps[0].value.value)) &&
        t.View(p1) == ps[1].value.(value := Translated(table, ps[1].value.value, ps[1].value.value)) &&
        ArgViews(t.nodes, t.rank, t.floor, t.nodes[params].children[2..]) == ps[2..]
    {
      ChildArgs(t.nodes, t.rank, t.floor, params, 0);
      ghost var ps := ArgViews(t.nodes, t.rank, t.floor, t.nodes[params].children);
      ghost var m0, ch := t.nodes, t.nodes[params].children;
      ghost var _ := RetextText(t, params, 0, p0, x);
      ghost var v1 := t.View(p0);
      assert ArgViews(t.nodes, t.rank, t.floor, ch)[2..] == ps[2..] by {
        ChildArgs(t.nodes, t.rank, t.floor, params, 2);
      }
      ghost var _ := RetextText(t, params, 1, p1, x);
      assert t.View(p0) == v1;
      assert KeptOutside(m0, t.nodes, {p0, p1}) by {
        forall j | j !in {p0, p1} ensures SameRecord(m0, t.nodes, j) { }
      }
    }

    /**
     * The texts of `trn(singular, plural, count, arg1, ...)`
     * (Translation.py:169-181): both are translated, a call without a count
     * fails, then both are split with the arguments after the count.
     */
    method PrepareTexts(t: Arena, params: Id, p0: Id, p1: Id, ghost x: Id) returns (res: Result<(Id, Id), Error>)
      requires t.Valid() && params in t.nodes && |t.nodes[params].children| >= 2 && ArgsIn(t.nodes, t.nodes[params].children)
      requires Above(t.nodes, t.rank, x, t.rank[params])
      requires t.nodes[params].children[0] == Some(p0) && t.nodes[params].children[1] == Some(p1)
      modifies t
      ensures t.Valid() && Extends(old(t.nodes), old(t.rank), t.nodes, t.rank) && NoGrowth(old(t.nodes), t.nodes)
      ensures res.Ok? ==> (res.value.0 in t.nodes && res.value.1 in t.nodes && old(|t.nodes[params].children|) >= 3 &&
        t.nodes[params].children == old(t.nodes[params].children)[0 := Some(res.value.0)][1 := Some(res.value.1)])
      ensures TrnTexts(old(ArgViews(t.nodes, t.rank, t.floor, t.nodes[params].children)), table) ==
        if res.Ok? then Ok((t.View(res.value.0), t.View(res.value.1))) else Err(res.error)
      ensures res.Ok? ==> var c := old(t.nodes[params].children[2]);
        c.None? || (c.value in t.nodes && old(ArgViews(t.nodes, t.rank, t.floor, t.nodes[params].children))[2] == Some(t.View(c.value)))
      ensures res.Ok? ==> t.rank[res.value.0] < t.rank[params] && t.rank[res.value.1] < t.rank[params]
      ensures SameAt(old(t.nodes), t.nodes, x)
      ensures KeptOutside(old(t.nodes), t.nodes, {params, p0, p1})
      ensures res.Ok? ==> (res.value.0 == p0 || res.value.0 !in old(t.nodes)) && (res.value.1 == p1 || res.value.1 !in old(t.nodes))
    {
      ghost var ch := t.nodes[params].children;
      assert t.rank[p0] < t.rank[params] && t.rank[p1] < t.rank[params] by {
        assert RankedEdge(t.nodes, t.rank, params, 0) && RankedEdge(t.nodes, t.rank, params, 1);
      }
      ghost var ps := ArgViews(t.nodes, t.rank, t.floor, ch);
      ghost var m0 := t.nodes;
      RetextBoth(t, params, p0, p1, x);
      if |t.nodes[params].children| < 3 {
        KeptMore(m0, t.nodes, {p0, p1}, {params, p0, p1});
        return Err(Malformed);
      }
      assert ArgViews(t.nodes, t.rank, t.floor, ch[3..]) == ps[3..] by {
        ChildArgs(t.nodes, t.rank, t.floor, params, 2);
        ChildArgs(t.nodes, t.rank, t.floor, params, 3);
      }
      ghost var m1 := t.nodes;
      res := SplitLegs(t, params, p0, p1, x);
      KeptThen(m0, m1, t.nodes, {p0, p1}, {params, p0, p1}, {params, p0, p1});
    }
  
    /** The records the hook for a plural call changes: its argument list, texts and count. */
    lemma HookKept(m0: map<Id, NodeData>, m1: map<Id, NodeData>, m2: map<Id, NodeData>,
                   params: Id, p0: Id, p1: Id, l0: Id, l1: Id, count: Option<Id>)
      requires params in m0 && |m0[params].children| >= 3
      requires params in m1 && m1[params].children == m0[params].children[0 := Some(l0)][1 := Some(l1)]
      requires count == m1[params].children[2]
      requires KeptOutside(m0, m1, {params, p0, p1}) && KeptOutside(m1, m2, {params, l0, l1} + IdsOf(count))
      requires (l0 == p0 || l0 !in m0) && (l1 == p1 || l1 !in m0)
      ensures KeptOutside(m0, m2, {params, p0, p1} + Slot(m0[params].children, 2))
    {
      assert IdsOf(count) == Slot(m0[params].children, 2);
      KeptThen(m0, m1, m2, {params, p0, p1}, {params, l0, l1} + IdsOf(count), {params, p0, p1} + Slot(m0[params].children, 2));
    }

    /**
     * The hook for the plural call `x` (Translation.py:169-195): its two
     * texts translated and split, under a new hook ranked like `x`; `x` and
     * its parent stay as they were.
     */
    method HookFor(t: Arena, x: Id, params: Id, p0: Id, p1: Id) returns (res: Result<Id, Error>)
      requires t.Valid() && x in t.nodes && params in t.nodes && t.nodes[params].parent == Some(x)
      requires ArgsIn(t.nodes, t.nodes[params].children) && |t.nodes[params].children| >= 2
      requires t.nodes[params].children[0] == Some(p0) && t.nodes[params].children[1] == Some(p1)
      modifies t
      ensures t.Valid() && Extends(old(t.nodes), old(t.rank), t.nodes, t.rank) && NoGrowth(old(t.nodes), t.nodes)
      ensures res.Ok? ==> (res.value in t.nodes && res.value !in old(t.nodes) && t.nodes[res.value].parent.None? &&
        t.rank[res.value] == old(t.rank[x]))
      ensures var ps := old(ArgViews(t.nodes, t.rank, t.floor, t.nodes[params].children));
        match TrnTexts(ps, table)
        case Err(e) => res == Err(e)
        case Ok((s, p)) => res.Ok? && res.value in t.nodes && t.View(res.value) == HookShape(ps[2], p, s)
      ensures SameAt(old(t.nodes), t.nodes, x)
      ensures KeptOutside(old(t.nodes), t.nodes, {params, p0, p1} + Slot(old(t.nodes[params].children), 2))
    {
      ghost var ps := ArgViews(t.nodes, t.rank, t.floor, t.nodes[params].children);
      assert t.rank[params] < t.rank[x] && Above(t.nodes, t.rank, x, t.rank[params]) by {
        ParentRanksAbove(t.nodes, t.rank, t.floor, params);
        if t.nodes[x].parent.Some? {
          ParentRanksAbove(t.nodes, t.rank, t.floor, x);
        }
      }
      ghost var m0 := t.nodes;
      ghost var ch := t.nodes[params].children;
      var legs := PrepareTexts(t, params, p0, p1, x);
      if legs.Err? {
        KeptMore(m0, t.nodes, {params, p0, p1}, {params, p0, p1} + Slot(ch, 2));
        return Err(legs.error);
      }
      ghost var m1 := t.nodes;
      ghost var sv, pv := t.View(legs.value.0), t.View(legs.value.1);
      assert TrnTexts(ps, table) == Ok((sv, pv));
      var count := t.nodes[params].children[2];
      ghost var cv := if count.Some? then Some(t.View(count.value)) else None;
      assert cv == ps[2];
      var hook := BuildHook(t, params, legs.value.0, legs.value.1, count, t.rank[x], x);
      assert t.View(hook) == HookShape(ps[2], pv, sv);
      HookKept(m0, m1, t.nodes, params, p0, p1, legs.value.0, legs.value.1, count);
      return Ok(hook);
    }

    /**
     * `trn(singular, plural, count, arg1, ...)` (Translation.py:167-197) on
     * the call `x`: both texts are translated and split, then a hook
     * choosing between them on the count takes the call's place.
     */
    method RewriteTrn(t: Arena, x: Id, params: Id, p0: Id, p1: Id) returns (res: Result<Option<Id>, Error>)
      requires t.Valid() && x in t.nodes && params in t.nodes && t.nodes[params].parent == Some(x)
      requires ArgsIn(t.nodes, t.nodes[params].children) && |t.nodes[params].children| >= 2
      requires t.nodes[params].children[0] == Some(p0) && t.nodes[params].children[1] == Some(p1)
      modifies t
      ensures t.Valid() && Extends(old(t.nodes), old(t.rank), t.nodes, t.rank) && NoGrowth(old(t.nodes), t.nodes)
      ensures Yields(t.nodes, t.rank, t.floor, res,
        TrnArgs(old(ArgViews(t.nodes, t.rank, t.floor, t.nodes[params].children)), table, old(t.nodes[x].parent).Some?))
      ensures res.Ok? && res.value.Some? ==> Placed(old(t.nodes), t.nodes, x, res.value.value)
      ensures KeptOutside(old(t.nodes), t.nodes,
        {params, p0, p1} + Slot(old(t.nodes[params].children), 2) + if Replacing(res) then {x} + IdsOf(old(t.nodes[x].parent)) else {})
    {
      ghost var m0 := t.nodes;
      ghost var a := {params, p0, p1} + Slot(t.nodes[params].children, 2);
      var hook := HookFor(t, x, params, p0, p1);
      if hook.Err? {
        return Err(hook.error);
      }
      ghost var mb := t.nodes;
      var ok := t.PutInPlace(x, hook.value);
      if !ok {
        return Err(Malformed);
      }
      PlacedAfter(m0, mb, t.nodes, x, hook.value);
      assert KeptOutside(m0, t.nodes, a + ({x} + IdsOf(m0[x].parent))) by {
        SubstitutedKept(mb, t.nodes, x, hook.value);
        KeptThen(m0, mb, t.nodes, a, {x, hook.value} + IdsOf(mb[x].parent), a + ({x} + IdsOf(m0[x].parent)));
      }
      return Ok(Some(hook.value));
    }

    /** Which translation function the call `x` names (Translation.py:122-132). */
    method Recognise(t: Arena, x: Id) returns (r: Result<Option<Method>, Error>)
      requires t.Valid() && x in t.nodes
      ensures r == Recognised(t.View(x))
    {
      if t.nodes[x].kind != "call" {
        return Ok(None);
      }
      var ch := t.nodes[x].children;
      if |ch| == 0 || ch[0].None? {
        return Err(Malformed);
      }
      var f := ch[0].value;
      ViewChild(t.nodes, t.rank, t.floor, x, 0);
      var name;
      if t.nodes[f].kind == "identifier" {
        name := t.nodes[f].value;
      } else if t.nodes[f].kind == "dot" {
        var fc := t.nodes[f].children;
        if |fc| < 2 || fc[1].None? {
          return Err(Malformed);
        }
        ViewChild(t.nodes, t.rank, t.floor, f, 1);
        name := if t.nodes[fc[1].value].kind == "identifier" then t.nodes[fc[1].value].value else NoValue;
      } else {
        name := NoValue;
      }
      return Ok(MethodNamed(name));
    }

    /**
     * The rewrite of a call to `m` (Translation.py:133-197): the argument
     * list `x[1]` and its text entries are checked, then the call is handed
     * to the rewrite for `m`.
     */
    method RewriteCallTo(t: Arena, x: Id, m: Method) returns (res: Result<Option<Id>, Error>)
      requires t.Valid() && x in t.nodes
      modifies t
      ensures t.Valid() && Extends(old(t.nodes), old(t.rank), t.nodes, t.rank) && NoGrowth(old(t.nodes), t.nodes)
      ensures Yields(t.nodes, t.rank, t.floor, res, CallShape(m, old(t.View(x)), table, old(t.nodes[x].parent).Some?))
      ensures res.Ok? && res.value.Some? ==> Placed(old(t.nodes), t.nodes, x, res.value.value)
      ensures KeptOutside(old(t.nodes), t.nodes,
        ArgFootprint(old(t.nodes), x) + if Replacing(res) then {x} + IdsOf(old(t.nodes[x].parent)) else {})
    {
      ghost var s := t.View(x);
      ghost var m0 := t.nodes;
      var ch := t.nodes[x].children;
      if |ch| < 2 || ch[1].None? {
        return Err(Malformed);
      }
      var params := ch[1].value;
      ParamShapes(t.nodes, t.rank, t.floor, x, params);
      var ps := t.nodes[params].children;
      if |ps| < 1 || ps[0].None? || (m != Tr && (|ps| < 2 || ps[1].None?)) {
        return Err(Malformed);
      }
      match m
      case Tr =>
        assert CallShape(m, s, table, m0[x].parent.Some?) ==
          TrArgs(ArgViews(t.nodes, t.rank, t.floor, ps), m0[x].line, table, m0[x].parent.Some?);
        res := RewriteTr(t, x, params, ps[0].value);
        TextKept(m0, t.nodes, x, params, ps[0].value, 0, Replacing(res));
      case Trc =>
        assert CallShape(m, s, table, m0[x].parent.Some?) ==
          TrcArgs(ArgViews(t.nodes, t.rank, t.floor, ps), m0[x].line, table, m0[x].parent.Some?);
        res := RewriteTrc(t, x, params, ps[0].value, ps[1].value);
        TextKept(m0, t.nodes, x, params, ps[1].value, 1, Replacing(res));
      case Trn =>
        assert CallShape(m, s, table, m0[x].parent.Some?) ==
          TrnArgs(ArgViews(t.nodes, t.rank, t.floor, ps), table, m0[x].parent.Some?);
        res := RewriteTrn(t, x, params, ps[0].value, ps[1].value);
        PluralKept(m0, t.nodes, x, params, ps[0].value, ps[1].value, Replacing(res));
    }

    /**
     * The first half of `__recurser` (Translation.py:121-197): a call to a
     * translation function is rewritten; any other node is left as it is.
     */
    method RewriteCall(t: Arena, x: Id) returns (res: Result<Option<Id>, Error>)
      requires t.Valid() && x in t.nodes
      modifies t
      ensures t.Valid() && Extends(old(t.nodes), old(t.rank), t.nodes, t.rank) && NoGrowth(old(t.nodes), t.nodes)
      ensures Yields(t.nodes, t.rank, t.floor, res, RewriteShape(old(t.View(x)), table, old(t.nodes[x].parent).Some?))
      ensures res.Ok? && res.value.Some? ==> Placed(old(t.nodes), t.nodes, x, res.value.value)
      ensures !TranslationCall(old(t.View(x))) ==> t.nodes == old(t.nodes) && t.rank == old(t.rank) && t.floor == old(t.floor)
      ensures KeptOutside(old(t.nodes), t.nodes,
        ArgFootprint(old(t.nodes), x) + if Replacing(res) then {x} + IdsOf(old(t.nodes[x].parent)) else {})
    {
      var m := Recognise(t, x);
      if m.Err? {
        return Err(m.error);
      }
      if m.value.None? {
        return Ok(None);
      }
      res := RewriteCallTo(t, x, m.value.value);
    }

    /**
     * `__recurser(node)` (Translation.py:121-204): the node itself is
     * rewritten, then its children are walked.  `limit` bounds the nesting
     * of the walk, as the interpreter bounds nested calls.
     */
    method Recurse(t: Arena, x: Id, limit: nat) returns (res: Result<(), Error>)
      requires t.Valid() && x in t.nodes
      modifies t
      ensures t.Valid() && Extends(old(t.nodes), old(t.rank), t.nodes, t.rank) && NoGrowth(old(t.nodes), t.nodes)
      ensures limit == 0 ==> res == Err(RecursionLimit) && t.nodes == old(t.nodes)
      ensures limit > 0 && old(RewriteShape(t.View(x), table, t.nodes[x].parent.Some?)).Err? ==>
        res == Err(old(RewriteShape(t.View(x), table, t.nodes[x].parent.Some?)).error)
      ensures Inert(old(t.View(x))) ==> t.nodes == old(t.nodes) && t.rank == old(t.rank) && t.floor == old(t.floor)
      ensures Inert(old(t.View(x))) && Depth(old(t.View(x))) <= limit ==> res == Ok(())
      ensures KeptOutside(old(t.nodes), t.nodes, RankedUpTo(old(t.nodes), old(t.rank), old(t.rank[x])) +
        if TranslationCall(old(t.View(x))) then IdsOf(old(t.nodes[x].parent)) else {})
      ensures old(t.nodes[x].parent).Some? ==> SlotsKept(old(t.nodes), t.nodes, old(t.nodes[x].parent.value), x)
      ensures limit > 0 && !TranslationCall(old(t.View(x))) ==> ListKept(old(t.nodes), t.nodes, x)
      decreases limit, 2
    {
      if limit == 0 {
        return Err(RecursionLimit);
      }
      ghost var m0, r0, f0 := t.nodes, t.rank, t.floor;
      ghost var s := t.View(x);
      var own := RewriteCall(t, x);
      ghost var m1, r1 := t.nodes, t.rank;
      ghost var parent := if TranslationCall(s) then IdsOf(m0[x].parent) else {};
      assert KeptOutside(m0, m1, RankedUpTo(m0, r0, r0[x]) + parent) &&
             (m0[x].parent.Some? ==> SlotsKept(m0, m1, m0[x].parent.value, x)) by {
        OwnStepKept(m0, r0, f0, m1, x, if own.Ok? then own else Ok(None));
        if !TranslationCall(s) {
          assert !Replacing(own);
        }
        KeptMore(m0, m1, RankedUpTo(m0, r0, r0[x]) + if Replacing(own) then IdsOf(m0[x].parent) else {},
                 RankedUpTo(m0, r0, r0[x]) + parent);
      }
      if own.Err? {
        return Err(own.error);
      }
      assert Inert(s) ==> t.View(x) == s;
      res := WalkChildren(t, x, limit);
      WalkKept(m0, r0, f0, m1, r1, t.nodes, x, parent);
    }

    /**
     * The rest of `__recurser` (Translation.py:202-204): each entry of the
     * child list of `x`, read afresh at every step, is walked in turn; the
     * first error ends the walk.
     */
    method WalkChildren(t: Arena, x: Id, limit: nat) returns (res: Result<(), Error>)
      requires t.Valid() && x in t.nodes && limit > 0
      modifies t
      ensures t.Valid() && Extends(old(t.nodes), old(t.rank), t.nodes, t.rank) && NoGrowth(old(t.nodes), t.nodes)
      ensures (forall c :: c in old(t.View(x)).children && c.Some? ==> Inert(c.value)) ==>
        t.nodes == old(t.nodes) && t.rank == old(t.rank) && t.floor == old(t.floor)
      ensures (forall c :: c in old(t.View(x)).children && c.Some? ==> Inert(c.value) && Depth(c.value) < limit) ==>
        res == Ok(())
      ensures KeptOutside(old(t.nodes), t.nodes, RankedUpTo(old(t.nodes), old(t.rank), old(t.rank[x])))
      ensures ListKept(old(t.nodes), t.nodes, x)
      decreases limit, 1
    {
      ghost var m0, r0, f0 := t.nodes, t.rank, t.floor;
      ghost var s := t.View(x);
      ghost var inert := forall c :: c in s.children && c.Some? ==> Inert(c.value);
      var i := 0;
      while i < |t.nodes[x].children|
        invariant t.Valid() && x in t.nodes && Extends(m0, r0, t.nodes, t.rank) && NoGrowth(m0, t.nodes)
        invariant inert ==> t.nodes == m0 && t.rank == r0 && t.floor == f0
        invariant KeptOutside(m0, t.nodes, RankedUpTo(m0, r0, r0[x])) && ListKept(m0, t.nodes, x)
        decreases |t.nodes[x].children| - i
      {
        ghost var mi, ri := t.nodes, t.rank;
        var r := WalkChild(t, x, i, limit, if inert then s.children[i] else None);
        assert KeptOutside(m0, t.nodes, RankedUpTo(m0, r0, r0[x])) && ListKept(m0, t.nodes, x) by {
          LoopStepKept(m0, r0, mi, ri, t.nodes, x);
        }
        if r.Err? {
          return r;
        }
        i := i + 1;
      }
      return Ok(());
    }

    /**
     * One turn of that loop: the entry `i` of `x`'s list, when present, is
     * walked.  `sc` is its shape when known to be unchanged since the loop
     * began.
     */
    method WalkChild(t: Arena, x: Id, i: nat, limit: nat, ghost sc: Option<Shape>) returns (res: Result<(), Error>)
      requires t.Valid() && x in t.nodes && i < |t.nodes[x].children| && limit > 0
      requires sc.Some? ==> sc == t.View(x).children[i]
      modifies t
      ensures t.Valid() && Extends(old(t.nodes), old(t.rank), t.nodes, t.rank) && NoGrowth(old(t.nodes), t.nodes)
      ensures old(t.nodes[x].children[i]).None? || (sc.Some? && Inert(sc.value)) ==>
        t.nodes == old(t.nodes) && t.rank == old(t.rank) && t.floor == old(t.floor)
      ensures old(t.nodes[x].children[i]).None? || (sc.Some? && Inert(sc.value) && Depth(sc.value) < limit) ==>
        res == Ok(())
      ensures KeptOutside(old(t.nodes), t.nodes, RankedUpTo(old(t.nodes), old(t.rank), old(t.rank[x])))
      ensures ListKept(old(t.nodes), t.nodes, x)
      decreases limit, 0
    {
      var c := t.nodes[x].children[i];
      ViewChild(t.nodes, t.rank, t.floor, x, i);
      if c.Some? {
        ghost var mi, ri, fi := t.nodes, t.rank, t.floor;
        res := Recurse(t, c.value, limit - 1);
        ChildWalkKept(mi, ri, fi, t.nodes, x, i, c.value);
      } else {
        res := Ok(());
      }
    }

    /** `patch(node)` (Translation.py:43-44): the walk from `node`, nested at most `limit` deep. */
    method Patch(t: Arena, node: Id, limit: nat) returns (res: Result<(), Error>)
      requires t.Valid() && node in t.nodes
      modifies t
      ensures t.Valid() && Extends(old(t.nodes), old(t.rank), t.nodes, t.rank)
      ensures Inert(old(t.View(node))) ==> t.nodes == old(t.nodes)
      ensures Inert(old(t.View(node))) && Depth(old(t.View(node))) <= limit ==> res == Ok(())
      ensures res.Ok? ==> limit > 0 && old(RewriteShape(t.View(node), table, t.nodes[node].parent.Some?)).Ok?
      ensures KeptOutside(old(t.nodes), t.nodes, RankedUpTo(old(t.nodes), old(t.rank), old(t.rank[node])) +
        if TranslationCall(old(t.View(node))) then IdsOf(old(t.nodes[node].parent)) else {})
      ensures old(t.nodes[node].parent).Some? ==> SlotsKept(old(t.nodes), t.nodes, old(t.nodes[node].parent.value), node)
      ensures limit > 0 && !TranslationCall(old(t.View(node))) ==> ListKept(old(t.nodes), t.nodes, node)
    {
      res := Recurse(t, node, limit);
    }
  }
}
