/**
 * The message table `Translation.__init__` builds (lib/jasy/core/Translation.py:18-35):
 * the seed mapping first, then the entries of each catalog file in order,
 * where an entry is inserted only when its translation is non-empty and its
 * key is not yet present.
 */
module Catalog {
  import opened Wrappers

  /** A catalog entry: `(msgid, msgstr)`. */
  type Entry = (string, string)

  /** The entry would supply key `k`: it names `k` and carries a non-empty translation. */
  predicate Hit(e: Entry, k: string) {
    e.0 == k && e.1 != ""
  }

  /** The table after the entries of `entries` were offered to `table` in order (Translation.py:31-33). */
  function Merge(table: map<string, string>, entries: seq<Entry>): map<string, string>
    decreases |entries|
  {
    if entries == [] then table
    else
      var t := Merge(table, entries[..|entries| - 1]);
      var e := entries[|entries| - 1];
      if e.1 != "" && e.0 !in t then t[e.0 := e.1] else t
  }

  /** All the entries of the files, file after file. */
  function Flatten(files: seq<seq<Entry>>): seq<Entry>
    decreases |files|
  {
    if files == [] then [] else Flatten(files[..|files| - 1]) + files[|files| - 1]
  }

  /** The table built from `seed` and the catalog `files` (Translation.py:22-33). */
  function BuildTable(seed: map<string, string>, files: seq<seq<Entry>>): map<string, string>
    decreases |files|
  {
    if files == [] then seed else Merge(BuildTable(seed, files[..|files| - 1]), files[|files| - 1])
  }

  /** Offering two runs of entries one after the other is offering their concatenation. */
  lemma {:induction false} MergeConcat(table: map<string, string>, a: seq<Entry>, b: seq<Entry>)
    ensures Merge(Merge(table, a), b) == Merge(table, a + b)
    decreases |b|
  {
    if b == [] {
      assert a + b == a;
    } else {
      MergeConcat(table, a, b[..|b| - 1]);
      assert (a + b)[..|a + b| - 1] == a + b[..|b| - 1];
    }
  }

  /** Building from several files is merging their flattened entries into the seed. */
  lemma {:induction false} BuildIsMerge(seed: map<string, string>, files: seq<seq<Entry>>)
    ensures BuildTable(seed, files) == Merge(seed, Flatten(files))
    decreases |files|
  {
    if files != [] {
      var init := files[..|files| - 1];
      BuildIsMerge(seed, init);
      MergeConcat(seed, Flatten(init), files[|files| - 1]);
    }
  }

  /**
   * A key is in the merged table exactly when it was there before or some
   * entry supplies it, and a key already there keeps its value.
   */
  lemma {:induction false} MergeLookup(table: map<string, string>, entries: seq<Entry>, k: string)
    ensures k in Merge(table, entries) <==> k in table || exists i :: 0 <= i < |entries| && Hit(entries[i], k)
    ensures k in table ==> Merge(table, entries)[k] == table[k]
    decreases |entries|
  {
    if entries != [] {
      var n := |entries| - 1;
      var init := entries[..n];
      MergeLookup(table, init, k);
      forall i | 0 <= i < n ensures entries[i] == init[i] { }
      if (exists i :: 0 <= i < |entries| && Hit(entries[i], k)) && !(exists i :: 0 <= i < n && Hit(init[i], k)) {
        var i :| 0 <= i < |entries| && Hit(entries[i], k);
        assert i == n;
      }
    }
  }

  /** A key missing before gets the translation of the first entry that supplies it. */
  lemma {:induction false} MergeFirst(table: map<string, string>, entries: seq<Entry>, k: string, i: nat)
    requires i < |entries| && Hit(entries[i], k) && k !in table
    requires forall j :: 0 <= j < i ==> !Hit(entries[j], k)
    ensures k in Merge(table, entries) && Merge(table, entries)[k] == entries[i].1
    decreases |entries|
  {
    var n := |entries| - 1;
    var init := entries[..n];
    if i < n {
      MergeFirst(table, init, k, i);
    } else {
      assert k !in Merge(table, init) by {
        MergeLookup(table, init, k);
      }
    }
  }

  /** Every seed entry survives construction unchanged, whatever the files hold (Translation.py:24-25, 32). */
  lemma SeedWins(seed: map<string, string>, files: seq<seq<Entry>>, k: string)
    requires k in seed
    ensures k in BuildTable(seed, files) && BuildTable(seed, files)[k] == seed[k]
  {
    BuildIsMerge(seed, files);
    MergeLookup(seed, Flatten(files), k);
  }

  /** The position in the flattened entries of entry `j` of file `f`. */
  function Offset(files: seq<seq<Entry>>, f: nat): (o: nat)
    requires f <= |files|
    ensures o == |Flatten(files[..f])|
  {
    |Flatten(files[..f])|
  }

  /** Entry `j` of file `f` sits after the entries of the files before `f`. */
  lemma {:induction false} FlattenAt(files: seq<seq<Entry>>, f: nat, j: nat)
    requires f < |files| && j < |files[f]|
    ensures Offset(files, f) + j < |Flatten(files)|
    ensures Flatten(files)[Offset(files, f) + j] == files[f][j]
    ensures Flatten(files)[..Offset(files, f)] == Flatten(files[..f])
    decreases |files|
  {
    var n := |files| - 1;
    assert files[..|files|][..f] == files[..f];
    if f < n {
      var init := files[..n];
      assert init[..f] == files[..f];
      FlattenAt(init, f, j);
    } else {
      assert files[..n] == files[..f];
    }
  }

  /**
   * When no earlier file supplies `k` and the seed lacks it, the table holds
   * the translation of the first entry of the first file that supplies it:
   * an earlier file wins over a later one (Translation.py:29-33).
   */
  lemma FirstFileWins(seed: map<string, string>, files: seq<seq<Entry>>, k: string, f: nat, j: nat)
    requires k !in seed && f < |files| && j < |files[f]| && Hit(files[f][j], k)
    requires forall g, i :: 0 <= g < f && 0 <= i < |files[g]| ==> !Hit(files[g][i], k)
    requires forall i :: 0 <= i < j ==> !Hit(files[f][i], k)
    ensures k in BuildTable(seed, files) && BuildTable(seed, files)[k] == files[f][j].1
  {
    var flat := Flatten(files);
    var o := Offset(files, f);
    FlattenAt(files, f, j);
    forall i | 0 <= i < o + j ensures !Hit(flat[i], k) {
      if i < o {
        assert flat[i] == Flatten(files[..f])[i];
        NoHitBefore(files, f, k, i);
      } else {
        FlattenAt(files, f, i - o);
      }
    }
    BuildIsMerge(seed, files);
    MergeFirst(seed, flat, k, o + j);
  }

  /** None of the entries of the files before `f` supplies `k`. */
  lemma {:induction false} NoHitBefore(files: seq<seq<Entry>>, f: nat, k: string, i: nat)
    requires f <= |files| && i < |Flatten(files[..f])|
    requires forall g, x :: 0 <= g < f && 0 <= x < |files[g]| ==> !Hit(files[g][x], k)
    ensures !Hit(Flatten(files[..f])[i], k)
    decreases f
  {
    var pre := files[..f];
    var n := f - 1;
    assert pre[..n] == files[..n];
    if i < |Flatten(files[..n])| {
      NoHitBefore(files, n, k, i);
    } else {
      assert Flatten(pre)[i] == files[n][i - |Flatten(files[..n])|];
    }
  }

  /**
   * Every key of the table comes from the seed or from an entry of some file
   * with a non-empty translation; in particular an entry with an empty
   * translation never adds a key (Translation.py:22-33).
   */
  lemma Provenance(seed: map<string, string>, files: seq<seq<Entry>>, k: string)
    requires k in BuildTable(seed, files)
    ensures k in seed || exists f, j :: 0 <= f < |files| && 0 <= j < |files[f]| && Hit(files[f][j], k)
  {
    BuildIsMerge(seed, files);
    MergeLookup(seed, Flatten(files), k);
    if k !in seed {
      var i :| 0 <= i < |Flatten(files)| && Hit(Flatten(files)[i], k);
      var f, j := Locate(files, i);
    }
  }

  /** The file and entry position behind position `i` of the flattened entries. */
  lemma {:induction false} Locate(files: seq<seq<Entry>>, i: nat) returns (f: nat, j: nat)
    requires i < |Flatten(files)|
    ensures f < |files| && j < |files[f]| && Flatten(files)[i] == files[f][j]
    decreases |files|
  {
    var n := |files| - 1;
    var init := files[..n];
    if i < |Flatten(init)| {
      f, j := Locate(init, i);
    } else {
      f, j := n, i - |Flatten(init)|;
    }
  }

  /** Every entry that supplies a key puts the key in the table (Translation.py:32-33). */
  lemma Completeness(seed: map<string, string>, files: seq<seq<Entry>>, f: nat, j: nat)
    requires f < |files| && j < |files[f]| && files[f][j].1 != ""
    ensures files[f][j].0 in BuildTable(seed, files)
  {
    var k := files[f][j].0;
    FlattenAt(files, f, j);
    BuildIsMerge(seed, files);
    MergeLookup(seed, Flatten(files), k);
    assert Hit(Flatten(files)[Offset(files, f) + j], k);
  }
}
