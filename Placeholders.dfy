/**
 * The placeholder tokeniser of lib/jasy/core/Translation.py.
 *
 * The source compiles the pattern `(%[0-9])|({[a-zA-Z0-9_\.]+})` and calls its
 * `split` method.  This module replaces the regular-expression engine by a
 * hand-written leftmost scanner: `MatchLen` decides whether (and how long) the
 * pattern matches at one position, `ReSplit` reproduces the list `re.split`
 * returns (the text between matches, then both capture groups of each match,
 * one of them absent), and `Pieces` keeps the present, non-empty entries the
 * splitter loop actually uses.
 */
module Placeholders {
  import opened Wrappers

  predicate IsDigit(c: char) { '0' <= c <= '9' }

  /** The character class `[a-zA-Z0-9_\.]` of the brace alternative. */
  predicate IsNameChar(c: char) {
    ('a' <= c <= 'z') || ('A' <= c <= 'Z') || IsDigit(c) || c == '_' || c == '.'
  }

  /** Length of the longest run of name characters starting at `i`. */
  function NameRun(s: string, i: nat): (n: nat)
    requires i <= |s|
    ensures i + n <= |s|
    ensures forall j :: i <= j < i + n ==> IsNameChar(s[j])
    ensures i + n == |s| || !IsNameChar(s[i + n])
    decreases |s| - i
  {
    if i < |s| && IsNameChar(s[i]) then 1 + NameRun(s, i + 1) else 0
  }

  /**
   * Length of the match of the pattern at position `i` of `s`, or 0 when the
   * pattern does not match there.  The brace alternative takes the whole run
   * of name characters: `}` is not a name character, so no shorter run can be
   * followed by it.
   */
  function MatchLen(s: string, i: nat): (n: nat)
    requires i <= |s|
    ensures n == 0 || (n >= 2 && i + n <= |s|)
  {
    if i + 1 < |s| && s[i] == '%' && IsDigit(s[i + 1]) then 2
    else if i < |s| && s[i] == '{' then
      var r := NameRun(s, i + 1);
      if r > 0 && i + 1 + r < |s| && s[i + 1 + r] == '}' then r + 2 else 0
    else 0
  }

  /**
   * The pattern, stated declaratively: `s[i..i+n]` is either `%` and one digit,
   * or `{`, one or more name characters, and `}`.
   */
  ghost predicate IsPatternMatch(s: string, i: nat, n: nat) {
    i + n <= |s| &&
    ((n == 2 && s[i] == '%' && IsDigit(s[i + 1])) ||
     (n >= 3 && s[i] == '{' && s[i + n - 1] == '}' &&
      forall j :: i < j < i + n - 1 ==> IsNameChar(s[j])))
  }

  /** The scanner agrees with the pattern at every position, and the match there is unique. */
  lemma MatchLenIsPattern(s: string, i: nat, n: nat)
    requires i <= |s|
    ensures (n > 0 && MatchLen(s, i) == n) <==> IsPatternMatch(s, i, n)
  {
  }

  /** True when the pattern matches somewhere in `s`. */
  ghost predicate HasPlaceholder(s: string) {
    exists i :: 0 <= i <= |s| && MatchLen(s, i) > 0
  }

  /** The two capture groups of one match: `%` tokens fill the first, brace tokens the second. */
  function Groups(token: string): (g: seq<Option<string>>)
    requires |token| > 0
    ensures |g| == 2 && (g[0] == Some(token) || g[1] == Some(token))
    ensures g[0].None? || g[1].None?
  {
    if token[0] == '%' then [Some(token), None] else [None, Some(token)]
  }

  /**
   * `re.split` from scan position `pos`, where the pending text started at
   * `start`: the scanner looks for the leftmost match at or after `pos`.
   */
  function SplitFrom(s: string, start: nat, pos: nat): seq<Option<string>>
    requires start <= pos <= |s|
    decreases |s| - pos
  {
    if pos == |s| then [Some(s[start..])]
    else
      var n := MatchLen(s, pos);
      if n == 0 then SplitFrom(s, start, pos + 1)
      else [Some(s[start..pos])] + Groups(s[pos..pos + n]) + SplitFrom(s, pos + n, pos + n)
  }

  /** What `__replacer.split(value)` returns (Translation.py:69). */
  function ReSplit(s: string): seq<Option<string>> {
    SplitFrom(s, 0, 0)
  }

  /** The entries the splitter loop keeps: present and non-empty (Translation.py:76-77). */
  function Present(entries: seq<Option<string>>): (r: seq<string>)
    ensures forall k :: 0 <= k < |r| ==> r[k] != ""
  {
    if entries == [] then []
    else
      var rest := Present(entries[1..]);
      if entries[0].Some? && entries[0].value != "" then [entries[0].value] + rest else rest
  }

  function Pieces(s: string): seq<string> {
    Present(ReSplit(s))
  }

  /** The text obtained by joining the present entries. */
  function Join(entries: seq<Option<string>>): string {
    if entries == [] then ""
    else (if entries[0].Some? then entries[0].value else "") + Join(entries[1..])
  }

  function Concat(parts: seq<string>): string {
    if parts == [] then "" else parts[0] + Concat(parts[1..])
  }

  /** A whole placeholder token. */
  predicate IsToken(t: string) {
    |t| >= 2 && MatchLen(t, 0) == |t|
  }

  /** Text in which the pattern matches nowhere. */
  ghost predicate IsPlain(t: string) {
    forall j :: 0 <= j <= |t| ==> MatchLen(t, j) == 0
  }

  // ---------------------------------------------------------------------
  // Lemmas about the scanner
  // ---------------------------------------------------------------------

  lemma {:induction false} PresentAppend(a: seq<Option<string>>, b: seq<Option<string>>)
    ensures Present(a + b) == Present(a) + Present(b)
    decreases |a|
  {
    if a == [] {
      assert a + b == b;
    } else {
      assert (a + b)[1..] == a[1..] + b;
      PresentAppend(a[1..], b);
    }
  }

  lemma {:induction false} JoinAppend(a: seq<Option<string>>, b: seq<Option<string>>)
    ensures Join(a + b) == Join(a) + Join(b)
    decreases |a|
  {
    if a == [] {
      assert a + b == b;
    } else {
      assert (a + b)[1..] == a[1..] + b;
      JoinAppend(a[1..], b);
    }
  }

  lemma {:induction false} ConcatAppend(a: seq<string>, b: seq<string>)
    ensures Concat(a + b) == Concat(a) + Concat(b)
    decreases |a|
  {
    if a == [] {
      assert a + b == b;
    } else {
      assert (a + b)[1..] == a[1..] + b;
      ConcatAppend(a[1..], b);
    }
  }

  /** Dropping absent and empty entries does not change the joined text. */
  lemma {:induction false} ConcatPresent(entries: seq<Option<string>>)
    ensures Concat(Present(entries)) == Join(entries)
    decreases |entries|
  {
    if entries != [] {
      ConcatPresent(entries[1..]);
    }
  }

  /** The scan from `pos` finds nothing exactly when no position at or after `pos` matches. */
  lemma {:induction false} SplitFromSingleton(s: string, start: nat, pos: nat)
    requires start <= pos <= |s|
    ensures |SplitFrom(s, start, pos)| >= 1
    ensures |SplitFrom(s, start, pos)| == 1 <==> forall i :: pos <= i <= |s| ==> MatchLen(s, i) == 0
    decreases |s| - pos
  {
    if pos < |s| {
      var n := MatchLen(s, pos);
      if n == 0 {
        SplitFromSingleton(s, start, pos + 1);
      } else {
        SplitFromSingleton(s, pos + n, pos + n);
      }
    }
  }

  /** `re.split` returns a one-element list exactly when the value holds no placeholder (Translation.py:69-71). */
  lemma ReSplitSingleton(s: string)
    ensures |ReSplit(s)| == 1 <==> !HasPlaceholder(s)
  {
    SplitFromSingleton(s, 0, 0);
  }

  /** One step of the scan, as an equation. */
  lemma SplitFromStep(s: string, start: nat, pos: nat)
    requires start <= pos < |s|
    ensures MatchLen(s, pos) == 0 ==> SplitFrom(s, start, pos) == SplitFrom(s, start, pos + 1)
    ensures MatchLen(s, pos) > 0 ==>
      SplitFrom(s, start, pos) ==
        [Some(s[start..pos])] + Groups(s[pos..pos + MatchLen(s, pos)])
        + SplitFrom(s, pos + MatchLen(s, pos), pos + MatchLen(s, pos))
  {
  }

  lemma JoinMatch(text: string, token: string, tail: seq<Option<string>>)
    requires |token| > 0
    ensures Join([Some(text)] + Groups(token) + tail) == text + token + Join(tail)
  {
    var g := Groups(token);
    JoinAppend([Some(text)] + g, tail);
    JoinAppend([Some(text)], g);
    assert Join([Some(text)]) == text + Join([]);
    assert Join(g) == token by {
      assert Join(g[1..]) == (if g[1].Some? then g[1].value else "") + Join(g[2..]);
    }
  }

  /** The entries of the scan from `pos` join back to the text from `start`. */
  lemma {:induction false} SplitFromJoin(s: string, start: nat, pos: nat)
    requires start <= pos <= |s|
    ensures Join(SplitFrom(s, start, pos)) == s[start..]
    decreases |s| - pos, 1
  {
    if pos == |s| {
      assert Join([Some(s[start..])]) == s[start..] + Join([]);
    } else if MatchLen(s, pos) == 0 {
      SplitFromStep(s, start, pos);
      SplitFromJoin(s, start, pos + 1);
    } else {
      SplitFromJoinMatch(s, start, pos);
    }
  }

  /** `SplitFromJoin` at a position where the pattern matches. */
  lemma {:induction false} SplitFromJoinMatch(s: string, start: nat, pos: nat)
    requires start <= pos < |s| && MatchLen(s, pos) > 0
    ensures Join(SplitFrom(s, start, pos)) == s[start..]
    decreases |s| - pos, 0
  {
    var n := MatchLen(s, pos);
    var tail := SplitFrom(s, pos + n, pos + n);
    assert Join(tail) == s[pos + n..] by {
      SplitFromJoin(s, pos + n, pos + n);
    }
    assert SplitFrom(s, start, pos) == [Some(s[start..pos])] + Groups(s[pos..pos + n]) + tail by {
      SplitFromStep(s, start, pos);
    }
    JoinAtMatch(s, start, pos, pos + n, tail, SplitFrom(s, start, pos));
  }

  /** Text, a token and entries joining to the rest give back the text from `a`. */
  lemma JoinAtMatch(s: string, a: nat, b: nat, c: nat, tail: seq<Option<string>>, entries: seq<Option<string>>)
    requires a <= b < c <= |s| && Join(tail) == s[c..]
    requires entries == [Some(s[a..b])] + Groups(s[b..c]) + tail
    ensures Join(entries) == s[a..]
  {
    JoinMatch(s[a..b], s[b..c], tail);
    SliceThree(s, a, b, c);
  }

  lemma SliceThree(s: string, a: nat, b: nat, c: nat)
    requires a <= b <= c <= |s|
    ensures s[a..] == s[a..b] + s[b..c] + s[c..]
  {
  }

  /** The kept pieces, joined in order, give back the whole value: nothing is lost or reordered. */
  lemma PiecesConcat(s: string)
    ensures Concat(Pieces(s)) == s
  {
    SplitFromJoin(s, 0, 0);
    ConcatPresent(ReSplit(s));
  }

  /** A match inside a slice is a match of the whole string at the shifted position, of the same length. */
  lemma {:induction false} NameRunSlice(s: string, a: nat, b: nat, j: nat)
    requires a <= b <= |s| && j <= b - a
    ensures NameRun(s[a..b], j) <= NameRun(s, a + j)
    ensures a + j + NameRun(s[a..b], j) < b ==> NameRun(s[a..b], j) == NameRun(s, a + j)
    decreases b - a - j
  {
    var t := s[a..b];
    if j < |t| && IsNameChar(t[j]) {
      NameRunSlice(s, a, b, j + 1);
    }
  }

  lemma MatchInSlice(s: string, a: nat, b: nat, j: nat)
    requires a <= b <= |s| && j <= b - a
    ensures MatchLen(s[a..b], j) > 0 ==> MatchLen(s, a + j) == MatchLen(s[a..b], j)
  {
    var t := s[a..b];
    if MatchLen(t, j) > 0 && !(j + 1 < |t| && t[j] == '%' && IsDigit(t[j + 1])) {
      NameRunSlice(s, a, b, j + 1);
    }
  }

  /** The token cut out of `s` at a match is a whole token on its own. */
  lemma TokenOfMatch(s: string, pos: nat)
    requires pos <= |s| && MatchLen(s, pos) > 0
    ensures IsToken(s[pos..pos + MatchLen(s, pos)])
  {
    var n := MatchLen(s, pos);
    var t := s[pos..pos + n];
    if s[pos] != '%' || !IsDigit(s[pos + 1]) {
      var r := NameRun(s, pos + 1);
      assert n == r + 2;
      assert NameRun(t, 1) == r by {
        forall j | 1 <= j < 1 + r ensures IsNameChar(t[j]) {
          assert t[j] == s[pos + j];
        }
        NameRunIs(t, 1, r);
      }
    }
  }

  /** A run of `m` name characters at `j`, ended by the end of `t` or by another character, is the whole run. */
  lemma {:induction false} NameRunIs(t: string, j: nat, m: nat)
    requires j + m <= |t|
    requires forall x :: j <= x < j + m ==> IsNameChar(t[x])
    requires j + m == |t| || !IsNameChar(t[j + m])
    ensures NameRun(t, j) == m
    decreases m
  {
    if m > 0 {
      NameRunIs(t, j + 1, m - 1);
    }
  }

  /** Every present entry is a whole token or plain text. */
  ghost predicate Classified(entries: seq<Option<string>>) {
    forall k :: 0 <= k < |entries| && entries[k].Some? ==> IsToken(entries[k].value) || IsPlain(entries[k].value)
  }

  lemma ClassifiedAppend(a: seq<Option<string>>, b: seq<Option<string>>)
    requires Classified(a) && Classified(b)
    ensures Classified(a + b)
  {
    forall k | 0 <= k < |a + b| && (a + b)[k].Some?
      ensures IsToken((a + b)[k].value) || IsPlain((a + b)[k].value)
    {
      if k >= |a| {
        assert (a + b)[k] == b[k - |a|];
      }
    }
  }

  /**
   * Every entry of the scan from `pos` is absent, a whole token, or plain text,
   * provided no match starts in `[start, pos)`.
   */
  lemma {:induction false} SplitFromEntries(s: string, start: nat, pos: nat)
    requires start <= pos <= |s|
    requires forall i :: start <= i < pos ==> MatchLen(s, i) == 0
    ensures Classified(SplitFrom(s, start, pos))
    decreases |s| - pos, 1
  {
    if pos == |s| {
      PlainSlice(s, start, pos);
      assert s[start..] == s[start..pos];
      assert Classified([Some(s[start..pos])]);
    } else if MatchLen(s, pos) == 0 {
      SplitFromStep(s, start, pos);
      SplitFromEntries(s, start, pos + 1);
    } else {
      SplitFromEntriesMatch(s, start, pos);
    }
  }

  /** `SplitFromEntries` at a position where the pattern matches. */
  lemma {:induction false} SplitFromEntriesMatch(s: string, start: nat, pos: nat)
    requires start <= pos < |s| && MatchLen(s, pos) > 0
    requires forall i :: start <= i < pos ==> MatchLen(s, i) == 0
    ensures Classified(SplitFrom(s, start, pos))
    decreases |s| - pos, 0
  {
    var n := MatchLen(s, pos);
    var tail := SplitFrom(s, pos + n, pos + n);
    assert Classified(tail) by {
      SplitFromEntries(s, pos + n, pos + n);
    }
    assert IsPlain(s[start..pos]) by {
      PlainSlice(s, start, pos);
    }
    assert IsToken(s[pos..pos + n]) by {
      TokenOfMatch(s, pos);
    }
    assert SplitFrom(s, start, pos) == [Some(s[start..pos])] + Groups(s[pos..pos + n]) + tail by {
      SplitFromStep(s, start, pos);
    }
    EntriesAtMatch(s[start..pos], s[pos..pos + n], tail, SplitFrom(s, start, pos));
  }

  /** Plain text, the groups of a whole token and classified entries make classified entries. */
  lemma EntriesAtMatch(text: string, token: string, tail: seq<Option<string>>, entries: seq<Option<string>>)
    requires IsPlain(text) && IsToken(token) && Classified(tail)
    requires entries == [Some(text)] + Groups(token) + tail
    ensures Classified(entries)
  {
    var g := Groups(token);
    assert Classified([Some(text)]);
    assert Classified(g);
    ClassifiedAppend([Some(text)], g);
    ClassifiedAppend([Some(text)] + g, tail);
  }

  /** Text between the scan's matches is plain. */
  lemma PlainSlice(s: string, a: nat, b: nat)
    requires a <= b <= |s|
    requires forall i :: a <= i < b ==> MatchLen(s, i) == 0
    ensures IsPlain(s[a..b])
  {
    forall j | 0 <= j <= b - a
      ensures MatchLen(s[a..b], j) == 0
    {
      MatchInSlice(s, a, b, j);
      if j == b - a {
        assert MatchLen(s[a..b], j) == 0;
      }
    }
  }

  /** Each kept piece is either one whole placeholder token or plain text with no placeholder in it. */
  lemma PiecesAreTokensOrPlain(s: string)
    ensures forall k :: 0 <= k < |Pieces(s)| ==> IsToken(Pieces(s)[k]) || IsPlain(Pieces(s)[k])
  {
    SplitFromEntries(s, 0, 0);
    PresentClassified(ReSplit(s));
  }

  lemma {:induction false} PresentClassified(entries: seq<Option<string>>)
    requires Classified(entries)
    ensures forall k :: 0 <= k < |Present(entries)| ==> IsToken(Present(entries)[k]) || IsPlain(Present(entries)[k])
    decreases |entries|
  {
    if entries != [] {
      assert Classified(entries[1..]) by {
        forall k | 0 <= k < |entries[1..]| && entries[1..][k].Some?
          ensures IsToken(entries[1..][k].value) || IsPlain(entries[1..][k].value)
        {
          assert entries[1..][k] == entries[k + 1];
        }
      }
      PresentClassified(entries[1..]);
    }
  }

  /** No match of the pattern starts in `[a, b)` of `s`. */
  ghost predicate NoMatchIn(s: string, a: nat, b: nat) {
    b <= |s| && forall i :: a <= i < b ==> MatchLen(s, i) == 0
  }

  /**
   * `p` is the text of `s` at offset `o`, where the scan found it: a token
   * is the pattern's match there, and no match starts inside other text.
   */
  ghost predicate PieceAt(s: string, p: string, o: nat) {
    o + |p| <= |s| && s[o..o + |p|] == p &&
    (IsToken(p) ==> MatchLen(s, o) == |p|) &&
    (!IsToken(p) ==> NoMatchIn(s, o, o + |p|))
  }

  /** The pieces sit one after the other in `s` from offset `o`, each where the scan found it. */
  ghost predicate PiecesAt(s: string, pieces: seq<string>, o: nat)
    decreases |pieces|
  {
    pieces == [] || (PieceAt(s, pieces[0], o) && PiecesAt(s, pieces[1..], o + |pieces[0]|))
  }

  lemma PiecesAtCons(s: string, p: string, rest: seq<string>, o: nat)
    requires PieceAt(s, p, o) && PiecesAt(s, rest, o + |p|)
    ensures PiecesAt(s, [p] + rest, o)
  {
    assert ([p] + rest)[1..] == rest;
  }

  /** Text before the first match the scan finds, from a position where nothing matches, is plain and in place. */
  lemma PlainPieceAt(s: string, a: nat, b: nat)
    requires a < b <= |s| && forall i :: a <= i < b ==> MatchLen(s, i) == 0
    ensures PieceAt(s, s[a..b], a)
  {
    MatchInSlice(s, a, b, 0);
  }

  /** The token the scan finds at `pos` is in place. */
  lemma TokenPieceAt(s: string, pos: nat)
    requires pos < |s| && MatchLen(s, pos) > 0
    ensures PieceAt(s, s[pos..pos + MatchLen(s, pos)], pos)
  {
    TokenOfMatch(s, pos);
  }

  /** The kept entries of one match: the token alone. */
  lemma PresentGroups(tok: string)
    requires |tok| > 0
    ensures Present(Groups(tok)) == [tok]
  {
    var g := Groups(tok);
    assert Present(g[1..]) == (if g[1].Some? && g[1].value != "" then [g[1].value] else []) + Present(g[2..]);
  }

  /** The kept entries of the scan from `pos`, when no match starts in `[start, pos)`, sit in `s` from `start`. */
  lemma {:induction false} SplitFromAt(s: string, start: nat, pos: nat)
    requires start <= pos <= |s|
    requires forall i :: start <= i < pos ==> MatchLen(s, i) == 0
    ensures PiecesAt(s, Present(SplitFrom(s, start, pos)), start)
    decreases |s| - pos
  {
    if pos == |s| {
      if start < |s| {
        assert Present([Some(s[start..])]) == [s[start..]];
        PlainPieceAt(s, start, |s|);
        PiecesAtCons(s, s[start..], [], start);
      } else {
        assert Present([Some(s[start..])]) == [];
      }
    } else if MatchLen(s, pos) == 0 {
      SplitFromStep(s, start, pos);
      SplitFromAt(s, start, pos + 1);
    } else {
      SplitFromAtMatch(s, start, pos);
    }
  }

  /** `SplitFromAt` at a position where the pattern matches. */
  lemma {:induction false} SplitFromAtMatch(s: string, start: nat, pos: nat)
    requires start <= pos < |s| && MatchLen(s, pos) > 0
    requires forall i :: start <= i < pos ==> MatchLen(s, i) == 0
    ensures PiecesAt(s, Present(SplitFrom(s, start, pos)), start)
    decreases |s| - pos, 1
  {
    var n := MatchLen(s, pos);
    var rest := [s[pos..pos + n]] + Present(SplitFrom(s, pos + n, pos + n));
    var pre := Present([Some(s[start..pos])]);
    var all := Present(SplitFrom(s, start, pos));
    assert all == pre + rest by {
      PresentAtMatch(s, start, pos);
    }
    assert PiecesAt(s, rest, pos) by {
      TokenThenRestAt(s, pos);
    }
    if start < pos {
      PlainThenAt(s, start, pos, rest);
    } else {
      assert pre == [];
      assert all == rest;
    }
  }

  /** Plain text before pieces that sit in `s` from `pos` makes pieces that sit in `s` from `start`. */
  lemma PlainThenAt(s: string, start: nat, pos: nat, rest: seq<string>)
    requires start < pos <= |s| && forall i :: start <= i < pos ==> MatchLen(s, i) == 0
    requires PiecesAt(s, rest, pos)
    ensures PiecesAt(s, Present([Some(s[start..pos])]) + rest, start)
  {
    assert Present([Some(s[start..pos])]) == [s[start..pos]];
    PlainPieceAt(s, start, pos);
    PiecesAtCons(s, s[start..pos], rest, start);
  }

  /** The kept entries of the scan at a match: the text before it, the token, then the rest of the scan. */
  lemma PresentAtMatch(s: string, start: nat, pos: nat)
    requires start <= pos < |s| && MatchLen(s, pos) > 0
    ensures var n := MatchLen(s, pos);
      Present(SplitFrom(s, start, pos)) ==
        Present([Some(s[start..pos])]) + ([s[pos..pos + n]] + Present(SplitFrom(s, pos + n, pos + n)))
  {
    var n := MatchLen(s, pos);
    var tok := s[pos..pos + n];
    var tail := SplitFrom(s, pos + n, pos + n);
    var pre := [Some(s[start..pos])];
    SplitFromStep(s, start, pos);
    PresentGroups(tok);
    PresentAppend(pre + Groups(tok), tail);
    PresentAppend(pre, Groups(tok));
  }

  /** The token the scan finds at `pos`, then the pieces of the scan after it, sit in `s` from `pos`. */
  lemma {:induction false} TokenThenRestAt(s: string, pos: nat)
    requires pos < |s| && MatchLen(s, pos) > 0
    ensures PiecesAt(s, [s[pos..pos + MatchLen(s, pos)]] + Present(SplitFrom(s, pos + MatchLen(s, pos), pos + MatchLen(s, pos))), pos)
    decreases |s| - pos, 0
  {
    var n := MatchLen(s, pos);
    var tok := s[pos..pos + n];
    var rest := Present(SplitFrom(s, pos + n, pos + n));
    assert PieceAt(s, tok, pos) by {
      TokenPieceAt(s, pos);
    }
    assert PiecesAt(s, rest, pos + |tok|) by {
      SplitFromAt(s, pos + n, pos + n);
    }
    PiecesAtCons(s, tok, rest, pos);
  }

  /** The first `k` parts: the first part, then the next `k - 1`. */
  lemma ConcatPrefix(parts: seq<string>, k: nat)
    requires 0 < k <= |parts|
    ensures Concat(parts[..k]) == parts[0] + Concat(parts[1..][..k - 1])
  {
    assert parts[..k][1..] == parts[1..][..k - 1];
  }

  /** `PiecesAt` read at the `k`-th piece: it starts after the pieces before it. */
  lemma {:induction false} PiecesAtIndex(s: string, pieces: seq<string>, o: nat, k: nat)
    requires PiecesAt(s, pieces, o) && k < |pieces|
    ensures PieceAt(s, pieces[k], o + |Concat(pieces[..k])|)
    decreases k
  {
    if k > 0 {
      PiecesAtIndex(s, pieces[1..], o + |pieces[0]|, k - 1);
      ConcatPrefix(pieces, k);
      assert pieces[1..][k - 1] == pieces[k];
    } else {
      assert pieces[..0] == [];
    }
  }

  /**
   * The split is the leftmost scan of `s` (Translation.py:62, 69): the
   * `k`-th kept piece is the text of `s` at offset `at`, the total length
   * of the pieces before it; a token piece is the pattern's match at `at`,
   * and the pattern matches at no position inside a plain piece.
   */
  lemma PiecesAreLeftmostMatches(s: string, k: nat)
    requires k < |Pieces(s)|
    ensures var at := |Concat(Pieces(s)[..k])|; var p := Pieces(s)[k];
      at + |p| <= |s| && s[at..at + |p|] == p &&
      (IsToken(p) ==> MatchLen(s, at) == |p|) &&
      (!IsToken(p) ==> forall i :: at <= i < at + |p| ==> MatchLen(s, i) == 0)
  {
    SplitFromAt(s, 0, 0);
    PiecesAtIndex(s, Pieces(s), 0, k);
  }

  /** Plain text never looks like a placeholder, so the loop's `match` test (Translation.py:84) tells the kinds apart. */
  lemma PlainIsNotToken(t: string)
    requires IsPlain(t)
    ensures MatchLen(t, 0) == 0
  {
  }

  // ---------------------------------------------------------------------
  // The index a token selects (Translation.py:86-87)
  // ---------------------------------------------------------------------

  function DigitValue(c: char): nat
    requires IsDigit(c)
  {
    (c as int - '0' as int) as nat
  }

  /** `int(text)` for a text of decimal digits; `None` where `int` raises `ValueError`. */
  function DecimalValue(text: string): (r: Option<nat>)
    ensures r.Some? <==> |text| > 0 && forall k :: 0 <= k < |text| ==> IsDigit(text[k])
    decreases |text|
  {
    if |text| == 0 then None
    else if !IsDigit(text[|text| - 1]) then None
    else if |text| == 1 then Some(DigitValue(text[0]))
    else
      match DecimalValue(text[..|text| - 1])
      case None => None
      case Some(v) => Some(10 * v + DigitValue(text[|text| - 1]))
  }

  /** What `cleaned` holds: the digit after `%`, or the text between the braces. */
  function Cleaned(token: string): string
    requires |token| >= 2
  {
    if token[0] == '%' then [token[1]] else token[1..|token| - 1]
  }

  /** The 0-based argument position a token selects: `int(cleaned) - 1`. */
  function Position(token: string): (r: Option<int>)
    requires |token| >= 2
    ensures token[0] == '%' && IsDigit(token[1]) ==> r == Some(DigitValue(token[1]) as int - 1)
    ensures r.Some? ==> r.value >= -1
  {
    match DecimalValue(Cleaned(token))
    case None => None
    case Some(v) => Some(v - 1)
  }

  /** A brace token selects the number written between its braces, minus one. */
  lemma BraceDigitsPosition(digits: string, v: nat)
    requires DecimalValue(digits) == Some(v)
    ensures Position("{" + digits + "}") == Some(v - 1)
  {
    assert Cleaned("{" + digits + "}") == digits;
  }
}
