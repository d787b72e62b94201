/**
 * What `__recurser` of lib/jasy/core/Translation.py does to one node,
 * stated on shapes: which calls it recognises as `tr`, `trc` or `trn`,
 * which node takes a recognised call's place, and the errors it raises.
 */
module Calls {
  import opened Wrappers
  import opened Placeholders
  import opened Nodes
  import opened Templates

  /** The three translation functions (`__methods`). */
  datatype Method = Tr | Trc | Trn

  /**
   * `funcName` (Translation.py:124-130): the value of the callee when it is
   * an identifier, or of the property when it is `obj.name`; `NoValue`
   * otherwise.  A missing callee, or a `dot` without a second child, fails.
   */
  function CalleeName(call: Shape): (r: Result<Value, Error>)
    ensures r.Err? <==>
      (|call.children| == 0 || call.children[0].None? ||
       (call.children[0].value.kind == "dot" &&
        (|call.children[0].value.children| < 2 || call.children[0].value.children[1].None?)))
    ensures r.Err? ==> r.error == Malformed
    ensures r.Ok? && call.children[0].value.kind == "identifier" ==> r.value == call.children[0].value.value
    ensures r.Ok? && call.children[0].value.kind == "dot" && call.children[0].value.children[1].value.kind == "identifier" ==>
      r.value == call.children[0].value.children[1].value.value
    ensures r.Ok? && call.children[0].value.kind == "dot" && call.children[0].value.children[1].value.kind != "identifier" ==>
      r.value == NoValue
    ensures r.Ok? && call.children[0].value.kind != "identifier" && call.children[0].value.kind != "dot" ==> r.value == NoValue
  {
    if |call.children| == 0 || call.children[0].None? then Err(Malformed)
    else
      var f := call.children[0].value;
      if f.kind == "identifier" then Ok(f.value)
      else if f.kind == "dot" then
        if |f.children| < 2 || f.children[1].None? then Err(Malformed)
        else if f.children[1].value.kind == "identifier" then Ok(f.children[1].value.value)
        else Ok(NoValue)
      else Ok(NoValue)
  }

  /** `funcName in __methods` (Translation.py:132). */
  function MethodNamed(name: Value): (r: Option<Method>)
    ensures r == Some(Tr) <==> name == Text("tr")
    ensures r == Some(Trc) <==> name == Text("trc")
    ensures r == Some(Trn) <==> name == Text("trn")
  {
    if name == Text("tr") then Some(Tr)
    else if name == Text("trc") then Some(Trc)
    else if name == Text("trn") then Some(Trn)
    else None
  }

  /** The translation function a node calls, `None` when it is not a call to one (Translation.py:122-132). */
  function Recognised(s: Shape): Result<Option<Method>, Error> {
    if s.kind != "call" then Ok(None)
    else
      match CalleeName(s)
      case Err(e) => Err(e)
      case Ok(name) => Ok(MethodNamed(name))
  }

  /**
   * The argument list `node[1]` of a recognised call, of which the first
   * `texts` entries are used as nodes (Translation.py:133-139): a missing
   * list, a list that is too short or a hole among those entries fails.
   */
  function Params(call: Shape, texts: nat): (r: Result<seq<Option<Shape>>, Error>)
    requires 1 <= texts <= 2
    ensures r.Ok? ==>
      |call.children| >= 2 && call.children[1].Some? && r.value == call.children[1].value.children
    ensures r.Ok? ==> |r.value| >= texts && forall i :: 0 <= i < texts ==> r.value[i].Some?
    ensures r.Err? ==> r.error == Malformed
    ensures (|call.children| >= 2 && call.children[1].Some? &&
             var ps := call.children[1].value.children;
             |ps| >= texts && forall i :: 0 <= i < texts ==> ps[i].Some?) ==> r.Ok?
  {
    if |call.children| < 2 || call.children[1].None? then Err(Malformed)
    else
      var ps := call.children[1].value.children;
      if |ps| < texts || ps[0].None? || (texts == 2 && ps[1].None?) then Err(Malformed)
      else Ok(ps)
  }

  /** The value a text parameter holds after `if key in table: p.value = table[key]`. */
  function Translated(table: map<string, string>, key: Value, current: Value): (r: Value)
    ensures key.Text? && key.text in table ==> r == Text(table[key.text])
    ensures !(key.Text? && key.text in table) ==> r == current
  {
    if key.Text? && key.text in table then Text(table[key.text]) else current
  }

  /** `node.parent.replace(node, s)`: fails when the node has no parent. */
  function Moved(s: Shape, hasParent: bool): (r: Result<Option<Shape>, Error>)
    ensures hasParent <==> r == Ok(Some(s))
    ensures !hasParent <==> r == Err(Malformed)
  {
    if hasParent then Ok(Some(s)) else Err(Malformed)
  }

  /**
   * `__splitTemplate(node, param, args)` (Translation.py:107-118) once the
   * parameter holds `value`: a splitter error comes back with the node's
   * line, no split leaves the node in place, and a chain takes its place.
   */
  function Spliced(value: Value, line: Option<nat>, args: seq<Option<Shape>>, hasParent: bool): Result<Option<Shape>, Error> {
    match SplitShape(value, args)
    case Err(e) => Err(WithLine(e, line))
    case Ok(None) => Ok(None)
    case Ok(Some(c)) => Moved(c, hasParent)
  }

  /** A text parameter of `trn` after its split: the chain, or the parameter itself (Translation.py:179-181). */
  function Leg(text: Shape, args: seq<Option<Shape>>): Result<Shape, Error> {
    match Spliced(text.value, text.line, args, true)
    case Err(e) => Err(e)
    case Ok(None) => Ok(text)
    case Ok(Some(c)) => Ok(c)
  }

  /** `tr(msg, arg1, ...)` (Translation.py:143-151) on the shapes `ps` of its arguments. */
  function TrArgs(ps: seq<Option<Shape>>, line: Option<nat>, table: map<string, string>, hasParent: bool): Result<Option<Shape>, Error>
    requires |ps| >= 1 && ps[0].Some?
  {
    var p0 := ps[0].value;
    var text := p0.(value := Translated(table, p0.value, p0.value));
    if |ps| == 1 then Moved(text, hasParent)
    else Spliced(text.value, line, ps[1..], hasParent)
  }

  /** `trc(hint, msg, arg1, ...)` (Translation.py:155-163): the hint is the key, the message gets the text. */
  function TrcArgs(ps: seq<Option<Shape>>, line: Option<nat>, table: map<string, string>, hasParent: bool): Result<Option<Shape>, Error>
    requires |ps| >= 2 && ps[0].Some? && ps[1].Some?
  {
    var p1 := ps[1].value;
    var text := p1.(value := Translated(table, ps[0].value.value, p1.value));
    if |ps| == 2 then Moved(text, hasParent)
    else Spliced(text.value, line, ps[2..], hasParent)
  }

  /**
   * The two texts of `trn(singular, plural, count, arg1, ...)`
   * (Translation.py:169-181), each translated under its own key and split
   * with the arguments after the count, the singular first; a call without
   * a count fails.
   */
  function TrnTexts(ps: seq<Option<Shape>>, table: map<string, string>): Result<(Shape, Shape), Error>
    requires |ps| >= 2 && ps[0].Some? && ps[1].Some?
  {
    var p0 := ps[0].value;
    var p1 := ps[1].value;
    if |ps| < 3 then Err(Malformed)
    else Legs(p0.(value := Translated(table, p0.value, p0.value)), p1.(value := Translated(table, p1.value, p1.value)), ps[3..])
  }

  /** Both texts after their splits, the singular split first (Translation.py:179-181). */
  function Legs(singular: Shape, plural: Shape, args: seq<Option<Shape>>): Result<(Shape, Shape), Error> {
    match Leg(singular, args)
    case Err(e) => Err(e)
    case Ok(s) =>
      match Leg(plural, args)
      case Err(e) => Err(e)
      case Ok(p) => Ok((s, p))
  }

  /**
   * `trn(singular, plural, count, arg1, ...)` (Translation.py:167-197): a
   * hook choosing between the two texts on the count takes the call's place.
   */
  function TrnArgs(ps: seq<Option<Shape>>, table: map<string, string>, hasParent: bool): Result<Option<Shape>, Error>
    requires |ps| >= 2 && ps[0].Some? && ps[1].Some?
  {
    match TrnTexts(ps, table)
    case Err(e) => Err(e)
    case Ok((s, p)) => Moved(HookShape(ps[2], p, s), hasParent)
  }

  /** A call to `tr`, its argument list checked first. */
  function TrShape(call: Shape, table: map<string, string>, hasParent: bool): Result<Option<Shape>, Error> {
    match Params(call, 1)
    case Err(e) => Err(e)
    case Ok(ps) => TrArgs(ps, call.line, table, hasParent)
  }

  /** A call to `trc`, its argument list checked first. */
  function TrcShape(call: Shape, table: map<string, string>, hasParent: bool): Result<Option<Shape>, Error> {
    match Params(call, 2)
    case Err(e) => Err(e)
    case Ok(ps) => TrcArgs(ps, call.line, table, hasParent)
  }

  /** A call to `trn`, its argument list checked first. */
  function TrnShape(call: Shape, table: map<string, string>, hasParent: bool): Result<Option<Shape>, Error> {
    match Params(call, 2)
    case Err(e) => Err(e)
    case Ok(ps) => TrnArgs(ps, table, hasParent)
  }

  /** A call to the translation function `m` (Translation.py:141-197). */
  function CallShape(m: Method, call: Shape, table: map<string, string>, hasParent: bool): Result<Option<Shape>, Error> {
    match m
    case Tr => TrShape(call, table, hasParent)
    case Trc => TrcShape(call, table, hasParent)
    case Trn => TrnShape(call, table, hasParent)
  }

  /**
   * The rewrite of one node, before its children are visited: `None` when
   * the node keeps its place, otherwise the shape of the node that takes
   * it.  `hasParent` says whether the node has a parent.
   */
  function RewriteShape(s: Shape, table: map<string, string>, hasParent: bool): Result<Option<Shape>, Error> {
    match Recognised(s)
    case Err(e) => Err(e)
    case Ok(None) => Ok(None)
    case Ok(Some(m)) => CallShape(m, s, table, hasParent)
  }

  /** A call to `tr`, `trc` or `trn`, which the rewrite replaces or edits. */
  predicate TranslationCall(s: Shape) {
    Recognised(s).Ok? && Recognised(s).value.Some?
  }

  /** A subtree with no call to a translation function and no call the recogniser rejects. */
  ghost predicate Inert(s: Shape)
    decreases s
  {
    Recognised(s) == Ok(None) &&
    forall i :: 0 <= i < |s.children| && s.children[i].Some? ==> Inert(s.children[i].value)
  }

  /** The number of levels of a subtree: one for a node without children. */
  function Depth(s: Shape): (d: nat)
    ensures d >= 1
    ensures forall i :: 0 <= i < |s.children| && s.children[i].Some? ==> Depth(s.children[i].value) < d
    decreases s, |s.children| + 1
  {
    1 + MaxDepth(s, |s.children|)
  }

  /** The largest depth among the first `n` children of `s`, zero when there is none. */
  function MaxDepth(s: Shape, n: nat): (d: nat)
    requires n <= |s.children|
    ensures forall i :: 0 <= i < n && s.children[i].Some? ==> Depth(s.children[i].value) <= d
    decreases s, n
  {
    if n == 0 then 0
    else
      var rest := MaxDepth(s, n - 1);
      var last := if s.children[n - 1].Some? then Depth(s.children[n - 1].value) else 0;
      if last > rest then last else rest
  }

  /**
   * `tr(msg, arg1, ...)` whose translated text holds no placeholder is not
   * replaced at all: the call stays in place (Translation.py:149-151, 117-118).
   */
  lemma TrPlainStays(call: Shape, table: map<string, string>, hasParent: bool)
    requires Params(call, 1).Ok? && |Params(call, 1).value| >= 2
    requires var p0 := Params(call, 1).value[0].value;
      var v := Translated(table, p0.value, p0.value); v.Text? && !HasPlaceholder(v.text)
    ensures TrShape(call, table, hasParent) == Ok(None)
  {
    var p0 := Params(call, 1).value[0].value;
    ReSplitSingleton(Translated(table, p0.value, p0.value).text);
  }

  /**
   * `trn(singular, plural, count, ...)` whose two translated texts hold no
   * placeholder becomes the hook over those two texts themselves
   * (Translation.py:167-197).
   */
  lemma TrnPlainHook(call: Shape, table: map<string, string>)
    requires Params(call, 2).Ok? && |Params(call, 2).value| >= 3
    requires var ps := Params(call, 2).value;
      var v0 := Translated(table, ps[0].value.value, ps[0].value.value);
      var v1 := Translated(table, ps[1].value.value, ps[1].value.value);
      v0.Text? && !HasPlaceholder(v0.text) && v1.Text? && !HasPlaceholder(v1.text)
    ensures var ps := Params(call, 2).value;
      TrnShape(call, table, true) == Ok(Some(HookShape(ps[2],
        ps[1].value.(value := Translated(table, ps[1].value.value, ps[1].value.value)),
        ps[0].value.(value := Translated(table, ps[0].value.value, ps[0].value.value)))))
    ensures TrnShape(call, table, false) == Err(Malformed)
  {
    var ps := Params(call, 2).value;
    ReSplitSingleton(Translated(table, ps[0].value.value, ps[0].value.value).text);
    ReSplitSingleton(Translated(table, ps[1].value.value, ps[1].value.value).text);
  }

  /**
   * A node is rewritten exactly when it is a call whose callee is the
   * identifier `tr`, `trc` or `trn`, or a `dot` whose second child is such
   * an identifier (Translation.py:122-130); any other node is left in place,
   * or fails when the recogniser cannot read its callee.
   */
  lemma TranslationCallByName(s: Shape, table: map<string, string>, hasParent: bool)
    ensures TranslationCall(s) <==>
      s.kind == "call" && |s.children| >= 1 && s.children[0].Some? &&
      var f := s.children[0].value;
      (f.kind == "identifier" && f.value in {Text("tr"), Text("trc"), Text("trn")}) ||
      (f.kind == "dot" && |f.children| >= 2 && f.children[1].Some? && f.children[1].value.kind == "identifier" &&
       f.children[1].value.value in {Text("tr"), Text("trc"), Text("trn")})
    ensures !TranslationCall(s) ==>
      RewriteShape(s, table, hasParent) == if Recognised(s).Err? then Err(Malformed) else Ok(None)
  {
    if s.kind == "call" && |s.children| >= 1 && s.children[0].Some? {
      var f := s.children[0].value;
      if f.kind == "dot" && |f.children| >= 2 && f.children[1].Some? && f.children[1].value.kind != "identifier" {
        assert CalleeName(s) == Ok(NoValue);
      }
    }
  }

  /**
   * `trc(hint, msg)` without arguments (Translation.py:155-161): the hint is
   * the key, and the message, with the hint's translation when the table
   * has one and its own text otherwise, takes the call's place.
   */
  lemma TrcKeyIsHint(call: Shape, table: map<string, string>, hasParent: bool)
    requires Params(call, 2).Ok? && |Params(call, 2).value| == 2
    ensures var ps := Params(call, 2).value; var hint := ps[0].value.value; var msg := ps[1].value;
      (hint.Text? && hint.text in table ==> TrcShape(call, table, hasParent) == Moved(msg.(value := Text(table[hint.text])), hasParent)) &&
      (!(hint.Text? && hint.text in table) ==> TrcShape(call, table, hasParent) == Moved(msg, hasParent))
  {
  }

  /**
   * The message's own text is never looked up by `trc`: changing the
   * table's entry for it, when it differs from the hint, changes nothing
   * (Translation.py:157-159).
   */
  lemma TrcMessageIsNotKey(call: Shape, table: map<string, string>, hasParent: bool, v: string)
    requires Params(call, 2).Ok?
    requires var ps := Params(call, 2).value; ps[1].value.value.Text? && ps[0].value.value != ps[1].value.value
    ensures var key := Params(call, 2).value[1].value.value.text;
      TrcShape(call, table[key := v], hasParent) == TrcShape(call, table, hasParent)
  {
    var ps := Params(call, 2).value;
    var key := ps[1].value.value.text;
    assert Translated(table[key := v], ps[0].value.value, ps[1].value.value) == Translated(table, ps[0].value.value, ps[1].value.value);
  }

  /**
   * `trc(hint, msg, arg1, ...)` whose translated message holds no
   * placeholder is not replaced: the call stays (Translation.py:161-163, 117-118).
   */
  lemma TrcPlainStays(call: Shape, table: map<string, string>, hasParent: bool)
    requires Params(call, 2).Ok? && |Params(call, 2).value| >= 3
    requires var ps := Params(call, 2).value;
      var v := Translated(table, ps[0].value.value, ps[1].value.value); v.Text? && !HasPlaceholder(v.text)
    ensures TrcShape(call, table, hasParent) == Ok(None)
  {
    var ps := Params(call, 2).value;
    ReSplitSingleton(Translated(table, ps[0].value.value, ps[1].value.value).text);
  }

  /**
   * `trc(hint, msg, arg1, ...)` whose translated message holds a
   * placeholder (Translation.py:161-163): it becomes the left-skewed chain
   * over the leaves of the message's pieces, taken with the arguments after
   * the message, or fails with the first failing piece's error carrying
   * the call's line; `i` is that piece.
   */
  lemma TrcSplit(call: Shape, table: map<string, string>, hasParent: bool) returns (i: nat)
    requires Params(call, 2).Ok? && |Params(call, 2).value| >= 3
    requires var ps := Params(call, 2).value;
      var v := Translated(table, ps[0].value.value, ps[1].value.value); v.Text? && HasPlaceholder(v.text)
    ensures var ps := Params(call, 2).value;
      var text := Translated(table, ps[0].value.value, ps[1].value.value).text;
      var r := TrcShape(call, table, hasParent);
      var n := |Pieces(text)|;
      r.Ok? ==>
        hasParent && r.value.Some? && LeftSkewed(r.value.value, n) && |Leaves(r.value.value, n)| == n &&
        forall k :: 0 <= k < n ==>
          Leaves(r.value.value, n)[k].Some? && LeafFor(Pieces(text)[k], text, ps[2..]) == Ok(Leaves(r.value.value, n)[k].value)
    ensures var ps := Params(call, 2).value;
      var text := Translated(table, ps[0].value.value, ps[1].value.value).text;
      SplitShape(Text(text), ps[2..]).Err? ==>
        i < |Pieces(text)| && LeafFor(Pieces(text)[i], text, ps[2..]).Err? &&
        TrcShape(call, table, hasParent) == Err(WithLine(LeafFor(Pieces(text)[i], text, ps[2..]).error, call.line)) &&
        forall j :: 0 <= j < i ==> LeafFor(Pieces(text)[j], text, ps[2..]).Ok?
    ensures var ps := Params(call, 2).value;
      var text := Translated(table, ps[0].value.value, ps[1].value.value).text;
      SplitShape(Text(text), ps[2..]).Ok? && !hasParent ==> TrcShape(call, table, hasParent) == Err(Malformed)
  {
    var ps := Params(call, 2).value;
    var v := Translated(table, ps[0].value.value, ps[1].value.value);
    ReSplitSingleton(v.text);
    i := 0;
    if SplitShape(v, ps[2..]).Err? {
      i := SplitFirstError(v, ps[2..]);
    } else if SplitShape(v, ps[2..]).value.Some? {
      SplitChain(v, ps[2..]);
    }
  }
}
