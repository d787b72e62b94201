/**
 * What the placeholder splitter of lib/jasy/core/Translation.py builds,
 * stated on shapes: the leaf each piece of the split becomes, the
 * left-skewed chain of `plus` nodes that joins the leaves, the `hook` node
 * a plural call becomes, and the errors the rewriting can raise.
 */
module Templates {
  import opened Wrappers
  import opened Placeholders
  import opened Nodes

  /** The ways the rewrite of one call can fail. */
  datatype Error =
      /** `TranslationError("Invalid translation usage in line ...")`, raised by `__splitTemplate`. */
    | InvalidUsage(line: Option<nat>, token: string, text: string)
      /** `TranslationError("Invalid positional value: ...")`, raised by `__rebuildAsSplitted`. */
    | InvalidPosition(token: string, text: string)
      /** `ValueError` from `int(cleaned)`: brace contents that are not a decimal number. */
    | NotAnInteger(token: string)
      /**
       * `IndexError`, `AttributeError` or `TypeError`: a call or argument list
       * that is too short, a hole where a node is needed, a node without
       * parent to replace, or a text value that is not a string.
       */
    | Malformed
      /** `RecursionError`: the walk nested deeper than the interpreter's bound on nested calls. */
    | RecursionLimit

  /** `__splitTemplate` re-raises the splitter's `TranslationError` with the replaced node's line. */
  function WithLine(e: Error, line: Option<nat>): (r: Error)
    ensures e.InvalidPosition? ==> r == InvalidUsage(line, e.token, e.text)
    ensures !e.InvalidPosition? ==> r == e
  {
    match e
    case InvalidPosition(token, text) => InvalidUsage(line, token, text)
    case _ => e
  }

  /** A `string` node made by `Node(None, "string")` with `value` set to the piece. */
  function StringLeaf(piece: string): Shape {
    Shape("string", Text(piece), None, false, [])
  }

  /** A `plus` node made by `Node(None, "plus")` with the given children. */
  function Plus(xs: seq<Shape>): (s: Shape)
    ensures s.kind == "plus" && |s.children| == |xs|
    ensures forall i :: 0 <= i < |xs| ==> s.children[i] == Some(xs[i])
  {
    Shape("plus", NoValue, None, false, seq(|xs|, i requires 0 <= i < |xs| => Some(xs[i])))
  }

  /**
   * The leaf one piece of the split becomes (Translation.py:84-102): a piece
   * the pattern matches selects argument `int(digits) - 1`, copied and
   * parenthesized; any other piece becomes a `string` node.  `args` are the
   * shapes of the argument nodes (`None` for a hole).
   */
  function LeafFor(piece: string, text: string, args: seq<Option<Shape>>): Result<Shape, Error> {
    if |piece| > 0 && MatchLen(piece, 0) > 0 then
      match Position(piece)
      case None => Err(NotAnInteger(piece))
      case Some(pos) =>
        if 0 <= pos < |args| then
          if args[pos].Some? then Ok(args[pos].value.(parenthesized := true)) else Err(Malformed)
        else Err(InvalidPosition(piece, text))
    else Ok(StringLeaf(piece))
  }

  /** The leaves of the pieces, in order, or the error of the first piece that fails. */
  function LeavesFor(pieces: seq<string>, text: string, args: seq<Option<Shape>>): (r: Result<seq<Shape>, Error>)
    ensures r.Ok? ==> |r.value| == |pieces|
  {
    if pieces == [] then Ok([])
    else
      match LeavesFor(pieces[..|pieces| - 1], text, args)
      case Err(e) => Err(e)
      case Ok(leaves) =>
        match LeafFor(pieces[|pieces| - 1], text, args)
        case Err(e) => Err(e)
        case Ok(leaf) => Ok(leaves + [leaf])
  }

  /**
   * The chain the loop of Translation.py:75-102 builds: the first two leaves
   * share a `plus` node, and each further leaf gets a new `plus` node whose
   * first child is the chain so far.
   */
  function Chain(xs: seq<Shape>): Shape
    decreases |xs|
  {
    if |xs| <= 2 then Plus(xs) else Plus([Chain(xs[..|xs| - 1]), xs[|xs| - 1]])
  }

  /** The number of `plus` nodes in the chain of `k` leaves. */
  function ChainHeight(k: nat): (h: nat)
    ensures h >= 1
  {
    if k <= 2 then 1 else k - 1
  }

  /**
   * The leaves of a chain of `k` leaves, read back left to right: the
   * children of the innermost `plus` node, then the second child of each
   * enclosing one.
   */
  function Leaves(s: Shape, k: nat): seq<Option<Shape>>
    decreases k
  {
    if k <= 2 || |s.children| < 2 || s.children[0].None? then s.children
    else Leaves(s.children[0].value, k - 1) + [s.children[1]]
  }

  /**
   * The shape of a chain of `k` leaves: every `plus` node has two children,
   * the first of them the rest of the chain, except the innermost, which
   * has `k` children when `k` is 1 or 2.
   */
  ghost predicate LeftSkewed(s: Shape, k: nat)
    decreases k
  {
    s.kind == "plus" && s.value == NoValue && !s.parenthesized &&
    if k <= 2 then |s.children| == k && forall i :: 0 <= i < k ==> s.children[i].Some?
    else |s.children| == 2 && s.children[0].Some? && s.children[1].Some? && LeftSkewed(s.children[0].value, k - 1)
  }

  /** The chain's leaves read left to right are the leaves it was built from. */
  lemma {:induction false} LeavesOfChain(xs: seq<Shape>)
    ensures Leaves(Chain(xs), |xs|) == seq(|xs|, i requires 0 <= i < |xs| => Some(xs[i]))
    decreases |xs|
  {
    if |xs| > 2 {
      var init := xs[..|xs| - 1];
      LeavesOfChain(init);
      assert Chain(xs).children[0].value == Chain(init);
    }
  }

  /** The chain is left-skewed, with `|xs|` leaves. */
  lemma {:induction false} ChainIsLeftSkewed(xs: seq<Shape>)
    ensures LeftSkewed(Chain(xs), |xs|)
    decreases |xs|
  {
    if |xs| > 2 {
      ChainIsLeftSkewed(xs[..|xs| - 1]);
    }
  }

  /** A left-skewed shape of `k >= 1` leaves has `ChainHeight(k)` `plus` nodes on its spine, none with more than two children. */
  lemma {:induction false} LeftSkewedSpine(s: Shape, k: nat)
    requires LeftSkewed(s, k)
    ensures |s.children| <= 2
    ensures k >= 2 ==> |s.children| == 2
    ensures k == 1 ==> |s.children| == 1
    ensures Spine(s, k) == ChainHeight(k)
    decreases k
  {
    if k > 2 {
      LeftSkewedSpine(s.children[0].value, k - 1);
    }
  }

  /** The number of `plus` nodes along the first-child spine of a chain of `k` leaves. */
  function Spine(s: Shape, k: nat): nat
    decreases k
  {
    if k <= 2 || |s.children| < 1 || s.children[0].None? then 1 else 1 + Spine(s.children[0].value, k - 1)
  }

  /** `Node(None, "number")` with `value = 1`. */
  function NumberOne(): Shape {
    Shape("number", Number(1), None, false, [])
  }

  /**
   * The node a plural call becomes (Translation.py:185-197): a
   * parenthesized `hook` whose children are the condition `le(count, 1)`,
   * then the plural text, then the singular text.
   */
  function HookShape(count: Option<Shape>, plural: Shape, singular: Shape): (h: Shape)
    ensures h.kind == "hook" && h.parenthesized && |h.children| == 3
    ensures h.children[0] == Some(Shape("le", NoValue, None, false, [count, Some(NumberOne())]))
    ensures h.children[1] == Some(plural) && h.children[2] == Some(singular)
  {
    Shape("hook", NoValue, None, true,
      [Some(Shape("le", NoValue, None, false, [count, Some(NumberOne())])), Some(plural), Some(singular)])
  }

  /**
   * What `__rebuildAsSplitted(value, mapper)` returns, as a shape: a failure
   * for a value that is not a string, `None` when the pattern splits
   * nothing off, and otherwise the chain of the pieces' leaves.
   */
  function SplitShape(value: Value, args: seq<Option<Shape>>): Result<Option<Shape>, Error> {
    if !value.Text? then Err(Malformed)
    else if |ReSplit(value.text)| == 1 then Ok(None)
    else
      match LeavesFor(Pieces(value.text), value.text, args)
      case Err(e) => Err(e)
      case Ok(leaves) => Ok(Some(Chain(leaves)))
  }

  // ---------------------------------------------------------------------
  // What the splitter returns
  // ---------------------------------------------------------------------

  lemma SplitHasPieces(text: string)
    requires |ReSplit(text)| != 1
    ensures |Pieces(text)| >= 1
  {
    ReSplitSingleton(text);
    var i :| 0 <= i <= |text| && MatchLen(text, i) > 0;
    PiecesConcat(text);
    assert |Concat(Pieces(text))| >= 2;
  }

  /** The result of a split, when there is one, has at least one child (so `if pair:` holds). */
  lemma SplitResultNonEmpty(value: Value, args: seq<Option<Shape>>)
    requires SplitShape(value, args).Ok? && SplitShape(value, args).value.Some?
    ensures |SplitShape(value, args).value.value.children| >= 1
  {
    var text := value.text;
    SplitHasPieces(text);
    var leaves := LeavesFor(Pieces(text), text, args).value;
    ChainIsLeftSkewed(leaves);
    LeftSkewedSpine(Chain(leaves), |leaves|);
  }

  /** A text value is left alone by the splitter exactly when it holds no placeholder (Translation.py:69-71). */
  lemma SplitNoneIffPlain(value: Value, args: seq<Option<Shape>>)
    requires value.Text?
    ensures SplitShape(value, args) == Ok(None) <==> !HasPlaceholder(value.text)
  {
    ReSplitSingleton(value.text);
  }

  /** Each leaf is the leaf of the piece at the same position. */
  lemma {:induction false} LeavesForEach(pieces: seq<string>, text: string, args: seq<Option<Shape>>)
    requires LeavesFor(pieces, text, args).Ok?
    ensures forall i :: 0 <= i < |pieces| ==> LeafFor(pieces[i], text, args) == Ok(LeavesFor(pieces, text, args).value[i])
    decreases |pieces|
  {
    if pieces != [] {
      var init := pieces[..|pieces| - 1];
      LeavesForEach(init, text, args);
      forall i | 0 <= i < |pieces| - 1
        ensures LeafFor(pieces[i], text, args) == Ok(LeavesFor(pieces, text, args).value[i])
      {
        assert pieces[i] == init[i];
      }
    }
  }

  /** A failing list of pieces fails with the error of its first failing piece; the pieces before it succeed. */
  lemma {:induction false} LeavesForFirstError(pieces: seq<string>, text: string, args: seq<Option<Shape>>) returns (i: nat)
    requires LeavesFor(pieces, text, args).Err?
    ensures i < |pieces| && LeafFor(pieces[i], text, args) == Err(LeavesFor(pieces, text, args).error)
    ensures forall j :: 0 <= j < i ==> LeafFor(pieces[j], text, args).Ok?
    decreases |pieces|
  {
    var init := pieces[..|pieces| - 1];
    if LeavesFor(init, text, args).Err? {
      i := LeavesForFirstError(init, text, args);
      assert pieces[i] == init[i];
      forall j | 0 <= j < i ensures LeafFor(pieces[j], text, args).Ok? {
        assert pieces[j] == init[j];
      }
    } else {
      LeavesForEach(init, text, args);
      i := |pieces| - 1;
      forall j | 0 <= j < i ensures LeafFor(pieces[j], text, args).Ok? {
        assert pieces[j] == init[j];
      }
    }
  }

  /**
   * A split that yields a chain: the value held a placeholder, its pieces
   * join back to it, and the chain is left-skewed with one leaf per piece,
   * read left to right in the order of the pieces (Translation.py:65-104).
   */
  lemma SplitChain(value: Value, args: seq<Option<Shape>>)
    requires SplitShape(value, args).Ok? && SplitShape(value, args).value.Some?
    ensures value.Text? && HasPlaceholder(value.text) && Concat(Pieces(value.text)) == value.text
    ensures var n := |Pieces(value.text)|; var c := SplitShape(value, args).value.value;
      n >= 1 && LeftSkewed(c, n) && |Leaves(c, n)| == n &&
      forall i :: 0 <= i < n ==> Leaves(c, n)[i].Some? && LeafFor(Pieces(value.text)[i], value.text, args) == Ok(Leaves(c, n)[i].value)
  {
    var text := value.text;
    ReSplitSingleton(text);
    PiecesConcat(text);
    SplitHasPieces(text);
    var leaves := LeavesFor(Pieces(text), text, args).value;
    LeavesForEach(Pieces(text), text, args);
    LeavesOfChain(leaves);
    ChainIsLeftSkewed(leaves);
  }

  /** A split that fails on a text value fails with the error of the first piece whose leaf fails. */
  lemma SplitFirstError(value: Value, args: seq<Option<Shape>>) returns (i: nat)
    requires value.Text? && SplitShape(value, args).Err?
    ensures i < |Pieces(value.text)| && LeafFor(Pieces(value.text)[i], value.text, args) == Err(SplitShape(value, args).error)
    ensures forall j :: 0 <= j < i ==> LeafFor(Pieces(value.text)[j], value.text, args).Ok?
  {
    i := LeavesForFirstError(Pieces(value.text), value.text, args);
  }

  /**
   * `%d` selects argument `d - 1`, copied and parenthesized; `%0` and a
   * digit past the last argument fail as invalid positions (Translation.py:84-95).
   */
  lemma PercentLeaf(c: char, text: string, args: seq<Option<Shape>>)
    requires IsDigit(c)
    ensures var d := DigitValue(c);
      (1 <= d <= |args| && args[d - 1].Some? ==> LeafFor(['%', c], text, args) == Ok(args[d - 1].value.(parenthesized := true))) &&
      (1 <= d <= |args| && args[d - 1].None? ==> LeafFor(['%', c], text, args) == Err(Malformed)) &&
      (d == 0 || d > |args| ==> LeafFor(['%', c], text, args) == Err(InvalidPosition(['%', c], text)))
  {
  }

  /** `{n}` with decimal digits `n` selects argument `n - 1`; `{0}` and a number past the last argument fail. */
  lemma BraceLeaf(digits: string, v: nat, text: string, args: seq<Option<Shape>>)
    requires DecimalValue(digits) == Some(v)
    ensures var piece := "{" + digits + "}";
      (1 <= v <= |args| && args[v - 1].Some? ==> LeafFor(piece, text, args) == Ok(args[v - 1].value.(parenthesized := true))) &&
      (1 <= v <= |args| && args[v - 1].None? ==> LeafFor(piece, text, args) == Err(Malformed)) &&
      (v == 0 || v > |args| ==> LeafFor(piece, text, args) == Err(InvalidPosition(piece, text)))
  {
    var piece := "{" + digits + "}";
    NameRunIs(piece, 1, |digits|);
    BraceDigitsPosition(digits, v);
  }

  /** `{name}` with a name that is not all decimal digits fails where `int(cleaned)` raises `ValueError`. */
  lemma BraceNameLeaf(name: string, text: string, args: seq<Option<Shape>>)
    requires |name| > 0 && (forall k :: 0 <= k < |name| ==> IsNameChar(name[k]))
    requires exists k :: 0 <= k < |name| && !IsDigit(name[k])
    ensures LeafFor("{" + name + "}", text, args) == Err(NotAnInteger("{" + name + "}"))
  {
    var piece := "{" + name + "}";
    NameRunIs(piece, 1, |name|);
    assert Cleaned(piece) == name;
  }
}
