# Translation rewriting of Jasy, in Dafny

Jasy's `Translation` class (lib/jasy/core/Translation.py) holds a locale and a
message table, and rewrites a JavaScript syntax tree so that every call to one
of the translation functions `tr`, `trc` and `trn` is replaced by its
translated text:

* `tr("Hello {1}", name)`: the message is looked up in the table. The call is
  then replaced by the message itself when no argument follows it. Otherwise
  it is replaced by a left-skewed chain of `plus` nodes over the text pieces
  and parenthesized copies of the arguments its placeholders select.
* `trc(hint, msg, ...)`: the same, but the hint is the key and the message
  receives the translation.
* `trn(singular, plural, count, ...)`: both texts are translated and split
  with the arguments after the count. The call is then replaced by the
  parenthesized conditional `count <= 1 ? singular : plural`.

The project is organised as follows:

* `Wrappers`: `Option` and `Result`.
* `Placeholders`: the placeholder pattern `(%[0-9])|({[a-zA-Z0-9_\.]+})` as a
  hand-written scanner, `re.split` on it, and the argument position a token
  selects.
* `Nodes`: the syntax tree as an arena of node records. It has a ghost rank
  that keeps it acyclic and a `View` that reads a subtree as a `Shape` value.
  It also models the node operations the rewrite uses: create, set value, set
  parenthesized, append, replace and deep copy.
* `Templates`: what the splitter builds, stated on shapes, and the errors it
  raises.
* `Catalog`: how the table is built from a seed map and the catalog files.
* `Calls`: what the rewrite of one node does, stated on shapes.
* `Translation`: the class itself. Its constructor builds the table. Its
  methods edit the arena in place and are each proved against the shape
  functions of `Templates` and `Calls`.

Where the code and its documentation disagree, the model follows the code.
A `tr` or `trc` call that has arguments but whose translated text holds no
placeholder is not replaced at all: the call stays, with its translated text
(`Calls.TrPlainStays`). The walk also descends into the children of a call
after that call has been replaced: the callee and what is left of its argument
list.

## Model

| member | source | states |
|---|---|---|
| Translation.Translation.constructor | lib/jasy/core/Translation.py:18-35 | the table is the seed, then every catalog entry with a non-empty translation whose key is not yet present, file after file and entry after entry |
| Catalog.SeedWins | lib/jasy/core/Translation.py:24-33 | a key of the seed keeps the seed's translation whatever the files hold |
| Catalog.FirstFileWins | lib/jasy/core/Translation.py:28-33 | a key missing from the seed gets the translation of the first entry, in file order, that names it with a non-empty translation |
| Catalog.Provenance | lib/jasy/core/Translation.py:22-33 | every key of the table comes from the seed or from an entry with a non-empty translation |
| Catalog.Completeness | lib/jasy/core/Translation.py:31-33 | every entry with a non-empty translation puts its key in the table |
| Catalog.MergeLookup | lib/jasy/core/Translation.py:31-33 | after merging, a key is present exactly when it was present or some entry supplies it; present keys keep their translation |
| Catalog.MergeFirst | lib/jasy/core/Translation.py:31-33 | a key missing before merging gets the translation of the first entry that supplies it |
| Catalog.MergeConcat | lib/jasy/core/Translation.py:29-33 | offering two runs of entries one after the other is offering their concatenation |
| Translation.Translation.ToString | lib/jasy/core/Translation.py:51-52 | the string is `Translation(`, the locale, then `)`, with the locale readable back from positions 12 to the last but one |
| Placeholders.MatchLenIsPattern | lib/jasy/core/Translation.py:62 | the scanner matches at a position, with length n, exactly when `%` and a digit or `{`, name characters and `}` stand there |
| Placeholders.ReSplitSingleton | lib/jasy/core/Translation.py:69-71 | `re.split` returns one entry exactly when the pattern matches nowhere in the value |
| Placeholders.PiecesConcat | lib/jasy/core/Translation.py:69-77 | the pieces the splitter loop keeps, joined in order, give back the whole value |
| Placeholders.PiecesAreTokensOrPlain | lib/jasy/core/Translation.py:69-84 | every kept piece is either one whole placeholder token or text in which the pattern matches nowhere |
| Placeholders.PiecesAreLeftmostMatches | lib/jasy/core/Translation.py:62-77 | the split is the leftmost scan: the k-th kept piece stands in the value at the total length of the pieces before it; a token piece is the pattern's match there, and the pattern matches at no position inside a plain piece |
| Placeholders.PlainIsNotToken | lib/jasy/core/Translation.py:84 | a plain piece fails the pattern's `match`, so it becomes a string leaf |
| Placeholders.Present | lib/jasy/core/Translation.py:75-77 | the kept entries contain no empty string |
| Placeholders.Groups | lib/jasy/core/Translation.py:62-69 | a match yields two group entries, the token in one of them and nothing in the other |
| Placeholders.DecimalValue | lib/jasy/core/Translation.py:87 | `int(text)` is defined exactly for a non-empty text of decimal digits |
| Placeholders.Position | lib/jasy/core/Translation.py:86-87 | `%d` selects position d - 1; every position is at least -1 |
| Placeholders.BraceDigitsPosition | lib/jasy/core/Translation.py:86-87 | `{n}` selects position n - 1 |
| Templates.LeavesFor | lib/jasy/core/Translation.py:75-102 | one leaf per kept piece |
| Templates.Plus | lib/jasy/core/Translation.py:73-82 | a `plus` node whose children are exactly the given shapes, in order |
| Templates.LeavesOfChain | lib/jasy/core/Translation.py:75-102 | the chain's leaves, read left to right, are the leaves it was built from, in order |
| Templates.ChainIsLeftSkewed | lib/jasy/core/Translation.py:79-82 | the chain is left-skewed: every `plus` node but the innermost has two children, the first the rest of the chain |
| Templates.LeftSkewedSpine | lib/jasy/core/Translation.py:79-82 | a left-skewed chain of k leaves has k - 1 `plus` nodes (one when k is at most 2), none with more than two children |
| Templates.HookShape | lib/jasy/core/Translation.py:184-195 | the parenthesized hook over `le(count, 1)`, the plural text and the singular text, in that order |
| Templates.SplitHasPieces | lib/jasy/core/Translation.py:69-77 | a value the pattern splits keeps at least one piece |
| Templates.SplitResultNonEmpty | lib/jasy/core/Translation.py:104-118 | a chain has at least one child, so `if pair:` holds exactly when the splitter returned a chain |
| Templates.SplitNoneIffPlain | lib/jasy/core/Translation.py:69-71 | the splitter returns `None` for a text value exactly when it holds no placeholder |
| Templates.LeavesForEach | lib/jasy/core/Translation.py:75-102 | each leaf is the leaf of the piece at the same position |
| Templates.LeavesForFirstError | lib/jasy/core/Translation.py:75-102 | a failing list of pieces fails with the error of its first failing piece, and the pieces before it succeed |
| Templates.SplitChain | lib/jasy/core/Translation.py:65-104 | a chain comes only from a value holding a placeholder. Its pieces join back to the value, and it is left-skewed with one leaf per piece, in the pieces' order |
| Templates.SplitFirstError | lib/jasy/core/Translation.py:65-104 | a failing split fails with the error of the first piece whose leaf fails |
| Templates.PercentLeaf | lib/jasy/core/Translation.py:84-97 | `%d` yields argument d - 1, copied and parenthesized. `%0` and a position past the last argument raise the invalid-position error, and a hole in the arguments fails |
| Templates.BraceLeaf | lib/jasy/core/Translation.py:84-97 | `{n}` yields argument n - 1, copied and parenthesized; `{0}` and a position past the last argument raise the invalid-position error |
| Templates.BraceNameLeaf | lib/jasy/core/Translation.py:86-87 | `{name}` with a name that is not all digits fails where `int` raises `ValueError` |
| Templates.WithLine | lib/jasy/core/Translation.py:112-115 | the splitter's invalid-position error is re-raised as an invalid-usage error carrying the replaced node's line; other errors pass unchanged |
| Calls.CalleeName | lib/jasy/core/Translation.py:122-128 | the name is taken from an identifier callee or from the property of a `dot` callee. It fails exactly when the call has no callee or the `dot` has no second child. Otherwise the name is the identifier's value, the value of the `dot`'s identifier property, or no value for any other callee |
| Calls.MethodNamed | lib/jasy/core/Translation.py:130 | the name is in the tuple `("tr", "trc", "trn")` of line 61, and a call is to `tr`, `trc` or `trn` exactly when its name is that text |
| Calls.Params | lib/jasy/core/Translation.py:131-139 | the argument list is `node[1]`. It succeeds exactly when `node[1]` is present and holds the texts that are read, and fails, without a change, otherwise |
| Calls.TranslationCallByName | lib/jasy/core/Translation.py:122-130 | a node is a translation call exactly when it is a `call` whose callee is the identifier `tr`, `trc` or `trn`, or a `dot` whose property is that identifier. Any other node is not rewritten, and only a malformed callee is an error |
| Calls.TrcKeyIsHint | lib/jasy/core/Translation.py:155-161 | `trc` with no argument after the message is replaced by the message, with the table's text for the hint when the hint is a key, and unchanged otherwise; without a parent it fails |
| Calls.TrcMessageIsNotKey | lib/jasy/core/Translation.py:156-158 | the table's entry for the message's own text does not change the result of `trc` when the message differs from the hint |
| Calls.TrcPlainStays | lib/jasy/core/Translation.py:160-163 | `trc` with arguments whose translated message holds no placeholder leaves the call in place |
| Calls.TrcSplit | lib/jasy/core/Translation.py:160-163 | `trc` with arguments whose translated message holds a placeholder becomes a left-skewed chain with one leaf per piece, each the leaf of that piece over the arguments after the message. A failing split fails with the first failing piece's error, carrying the call's line |
| Calls.TrPlainStays | lib/jasy/core/Translation.py:148-151 | `tr` with arguments whose translated text holds no placeholder leaves the call in place |
| Calls.TrnPlainHook | lib/jasy/core/Translation.py:167-197 | `trn` whose two translated texts hold no placeholder becomes the hook over those texts. Without a parent to replace it in, it fails |
| Nodes.Arena.NewNode | lib/jasy/core/Translation.py:73 | `Node(None, kind)` is a fresh record with no value, no children and no parent; no other record changes |
| Nodes.Arena.SetValue | lib/jasy/core/Translation.py:101 | only the value of the node changes |
| Nodes.Arena.SetParenthesized | lib/jasy/core/Translation.py:96 | only the parenthesized flag of the node changes |
| Nodes.Arena.Append | lib/jasy/core/Translation.py:81 | `p.append(c, role)` moves `c` from its old parent's list to the end of `p`'s, with the role |
| Nodes.Arena.Adopt | lib/jasy/core/Translation.py:191-193 | appending a parentless node: `p`'s shape gains `c`'s shape as its last child, and only `p` and `c` change |
| Nodes.Arena.AppendHole | lib/jasy/core/Translation.py:188 | appending a missing child adds a hole to the end of the list |
| Nodes.Arena.Replace | lib/jasy/core/Translation.py:118 | `p.replace(kid, repl)` puts `repl` in `kid`'s slot with `kid`'s role, and detaches `kid` |
| Nodes.Arena.PutInPlace | lib/jasy/core/Translation.py:118 | a parentless node takes `kid`'s slot and role, keeping its shape. It fails, without a change, when `kid` has no parent |
| Nodes.Arena.Promote | lib/jasy/core/Translation.py:149 | a node from lower in the tree moves into `kid`'s slot, keeping its shape. It fails, without a change, when `kid` has no parent |
| Nodes.Arena.AppendMoved | lib/jasy/core/Translation.py:194-195 | a listed node moves, with its shape, from its parent's list to the end of `p`'s |
| Nodes.Arena.Clone | lib/jasy/core/Translation.py:95 | `copy.deepcopy` makes fresh records with the same shape, roles and holes and no parent; no old record changes |
| Translation.Translation.MakeLeaf | lib/jasy/core/Translation.py:84-102 | the leaf of one piece is fresh and has the shape `LeafFor` gives: a parenthesized copy of the selected argument, or a string node. It fails exactly as `LeafFor` does, and no old record changes |
| Translation.Translation.Wrap | lib/jasy/core/Translation.py:79-82 | a full `plus` node becomes the only child of a fresh `plus` node |
| Translation.Translation.MakeRoom | lib/jasy/core/Translation.py:79-82 | the chain is wrapped exactly when it already holds two leaves |
| Translation.Translation.AddPiece | lib/jasy/core/Translation.py:79-102 | the chain over the leaves so far becomes the chain over those leaves and one more, or the piece's error is returned |
| Translation.Translation.Attach | lib/jasy/core/Translation.py:97-102 | the leaf's shape becomes the last child of the chain's top node |
| Translation.Translation.Step | lib/jasy/core/Translation.py:75-102 | one entry of the split: a missing or empty entry is skipped; any other extends the chain or returns the first error |
| Translation.Translation.BuildChain | lib/jasy/core/Translation.py:73-104 | the loop builds a fresh chain whose shape is `Chain` of the pieces' leaves, or returns the first piece's error; no old record changes |
| Translation.Translation.RebuildAsSplit | lib/jasy/core/Translation.py:65-104 | the result is `SplitShape` of the value and the argument shapes: an error, `None`, or a fresh chain; no old record changes |
| Translation.Translation.SplitTemplate | lib/jasy/core/Translation.py:107-118 | an error is re-raised with the replaced node's line. A chain takes the node's place, and `None` changes nothing |
| Translation.Translation.Retext | lib/jasy/core/Translation.py:144-146 | only the text parameter's value changes, to the table's entry when the key is present |
| Translation.Translation.PlaceText | lib/jasy/core/Translation.py:148-151 | with no argument after it, the text takes the call's place; otherwise it is split with the arguments from there on. Every record but the call, its parent, the argument list and the text is kept, and all of them are kept when nothing replaces the call |
| Translation.Translation.RewriteTr | lib/jasy/core/Translation.py:143-151 | the node that replaces the call has the shape `TrArgs` gives; when nothing replaces the call, only the message's value changed. Every record but the message, the call, its parent and the argument list is kept |
| Translation.Translation.RewriteTrc | lib/jasy/core/Translation.py:155-163 | the same for `trc`: the hint is the key and the message gets the text. Every record but the message, the call, its parent and the argument list is kept |
| Translation.Translation.NewNumber | lib/jasy/core/Translation.py:189-190 | a fresh `number` node with value 1 |
| Translation.Translation.LeWithCount | lib/jasy/core/Translation.py:187-188 | a fresh `le` node whose one child is the count, moved out of the argument list, or a hole |
| Translation.Translation.JoinNumber | lib/jasy/core/Translation.py:189-191 | the condition gains the number 1 as its second child |
| Translation.Translation.MakeCondition | lib/jasy/core/Translation.py:187-191 | the condition's shape is `le(count, 1)`, and the count has left the argument list |
| Translation.Translation.NewHook | lib/jasy/core/Translation.py:185-186 | a fresh parenthesized `hook` node |
| Translation.Translation.Crown | lib/jasy/core/Translation.py:185-193 | a fresh parenthesized hook whose one child is the condition, with role `condition` |
| Translation.Translation.HookWithCondition | lib/jasy/core/Translation.py:185-193 | the hook's shape is the hook over `le(count, 1)` |
| Translation.Translation.StartHook | lib/jasy/core/Translation.py:185-193 | the hook over the condition is built, and the shapes of both texts are kept |
| Translation.Translation.AddPlural | lib/jasy/core/Translation.py:194 | the plural text moves into the hook as its `elsePart` |
| Translation.Translation.AddSingular | lib/jasy/core/Translation.py:195 | the singular text moves into the hook as its `thenPart` |
| Translation.Translation.AddBranches | lib/jasy/core/Translation.py:194-195 | the hook's shape gains the plural then the singular text |
| Translation.Translation.BuildHook | lib/jasy/core/Translation.py:185-195 | the hook's shape is `HookShape` of the count, the plural and the singular as they were; the call and its parent are untouched |
| Translation.Translation.SplitLeg | lib/jasy/core/Translation.py:180-181 | a text of `trn` is split with the arguments after the count. Its chain takes its slot in the argument list, or the text stays, as `Leg` says |
| Translation.Translation.SplitText | lib/jasy/core/Translation.py:180-181 | as `SplitLeg`, and the other text, the count and the arguments keep their shapes |
| Translation.Translation.SplitLegs | lib/jasy/core/Translation.py:179-181 | the singular is split, then the plural, as `Legs` says; each result takes its text's slot |
| Translation.Translation.RetextText | lib/jasy/core/Translation.py:168-174 | only the text's value changes; the shapes of the other entries stay |
| Translation.Translation.RetextBoth | lib/jasy/core/Translation.py:168-174 | both texts of `trn` are translated, each under its own key |
| Translation.Translation.PrepareTexts | lib/jasy/core/Translation.py:168-181 | the texts are translated. A call without a count fails, and otherwise both texts are split, as `TrnTexts` says |
| Translation.Translation.HookFor | lib/jasy/core/Translation.py:168-195 | the hook's shape is `HookShape` of the count and the two prepared texts, or the error of `TrnTexts` |
| Translation.Translation.RewriteTrn | lib/jasy/core/Translation.py:167-197 | the node that replaces the call has the shape `TrnArgs` gives, in the call's slot. Every record but the argument list, the two texts, the count, the call and its parent is kept |
| Translation.Translation.Recognise | lib/jasy/core/Translation.py:122-130 | the translation function a node calls, as `Recognised` says, read from the arena |
| Translation.Translation.RewriteCallTo | lib/jasy/core/Translation.py:131-197 | the argument list and its texts are checked, then the rewrite for the function runs, as `CallShape` says. Every record outside the argument list's records, the call and its parent is kept |
| Translation.Translation.RewriteCall | lib/jasy/core/Translation.py:121-197 | the node's rewrite gives what `RewriteShape` gives, and the new node sits in the old one's slot. A node that is not a translation call is left unchanged. Every record outside the argument list's records, the call and its parent is kept |
| Translation.Translation.Recurse | lib/jasy/core/Translation.py:121-204 | the node's own error comes first. A subtree without translation calls is left unchanged, and is walked without error when the depth bound allows. Every record ranked above the node is kept, except the parent of a translation call. The parent changes only in the slots that held the node. A node that is not a translation call keeps its own fields and the length of its list |
| Translation.Translation.WalkChildren | lib/jasy/core/Translation.py:202-204 | the loop over the node's children: inert children leave the arena unchanged and are walked without error when the bound allows. Every record ranked above the node is kept, and the node keeps its fields and the length of its list |
| Translation.Translation.WalkChild | lib/jasy/core/Translation.py:202-204 | one child: a hole is skipped, and a present child is walked with the same guarantees |
| Translation.Translation.Patch | lib/jasy/core/Translation.py:43-44 | the walk from the given node; a tree without translation calls is unchanged, and success means the node's own rewrite succeeded. The frames of `Recurse` hold |

## Left out

- The catalog files are given as lists of `(msgid, msgstr)` pairs; reading them with `polib.pofile` is not part of this model.
- Logging and warnings (lines 21, 28, 35, 135-139) have no effect on the result and are left out.
- `load` (lines 46-48) is a stub without effect and is left out.
- jasy/parser/Node.py is not part of this model. Its nodes are the records of `Nodes.Arena`. The model ASSUMES that `append` moves a child that already has a parent out of its old parent's list, and that `replace` moves the new node into the old one's slot and role. These are assumptions about code that is not modelled, not facts proved about it.
- Under that assumption, the argument list of a replaced `trn` call keeps only the arguments after the count, and the walk visits that list. If `append` did not move, the list would still hold both texts and the count, and the walk would visit them again; the model does not capture that variant.
- Roles (`condition`, `elsePart`, `thenPart`) are kept on the records but are not part of `Shape`, so the shape contracts do not state them.
- The regular-expression engine is replaced by a scanner for the one pattern used.
- Placeholders.DecimalValue: only ASCII decimal digits are accepted. Python's `int` also accepts `_` between digits and other Unicode digits, so `{1_0}` selects argument 9 in the source but fails here as not an integer.
- The exception types `IndexError`, `AttributeError`, `TypeError` and `KeyError` on malformed calls are merged into one error, `Malformed`. The two `TranslationError` messages are kept as their token, text and line, not as formatted strings.
- Translation.Translation.RewriteTrn: on an error, the contract states the error but not the partly edited tree the source leaves behind (for example the translated texts before the missing-count error). The same holds for RewriteTr, RewriteTrc and RewriteCall.
- Translation.Translation.Recurse: the walk is bounded by a depth `limit` standing for the interpreter's recursion limit. Termination of the unbounded walk over a tree that the walk itself edits is not proved. The contract states the node's own error, the unchanged inert case and frames: records ranked above the node, the parent's other slots, and the node's own fields. It does not state what each child slot holds after the walk, because the rank frame does not separate sibling subtrees; the effect on each node is stated by RewriteCall.
- Translation.Translation.Patch: takes the same depth bound as Recurse. For a tree that holds translation calls it states the frames of Recurse and the node's own rewrite succeeding, not the whole resulting tree.
