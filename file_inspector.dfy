/**
 * inspect_files: a walk over a directory tree counts the files, tallies them by
 * lower-cased extension and keeps the paths of the first twenty as a sample.
 * The walk itself is an input sequence of (directory, file name) pairs in visit order.
 */
module FileInspector {
  import opened Text

  /** One file reported by the walk: the directory it was found in and its name. */
  datatype WalkEntry = WalkEntry(root: string, name: string)

  /** How many paths are kept as a sample. */
  const SampleSize := 20

  /** str.rfind(c): the last index of `c` in `s`, or -1. */
  function RFind(s: string, c: char): (i: int)
    ensures -1 <= i < |s|
    ensures i >= 0 ==> s[i] == c
    ensures forall k :: i < k < |s| ==> s[k] != c
  {
    if s == [] then -1
    else if s[|s| - 1] == c then |s| - 1
    else RFind(s[..|s| - 1], c)
  }

  /**
   * posixpath.splitext: the extension runs from the last '.' to the end, provided that
   * dot comes after the last '/' and is preceded, within the last component, by some
   * character other than '.'; otherwise the extension is empty.
   */
  function SplitExt(p: string): (string, string)
  {
    var sepIndex := RFind(p, '/');
    var dotIndex := RFind(p, '.');
    if dotIndex > sepIndex && exists k :: sepIndex < k < dotIndex && p[k] != '.'
    then (p[..dotIndex], p[dotIndex..])
    else (p, "")
  }

  /** The dictionary key for a file: its extension, lower-cased. */
  function ExtensionKey(name: string): string
  {
    Lower(SplitExt(name).1)
  }

  /** Root and extension put back together give the path; a non-empty extension is a dot followed by no dot or slash. */
  lemma SplitExtParts(p: string)
    ensures SplitExt(p).0 + SplitExt(p).1 == p
    ensures SplitExt(p).1 == [] || (SplitExt(p).1[0] == '.' && '.' !in SplitExt(p).1[1..] && '/' !in SplitExt(p).1)
  {
    var dotIndex := RFind(p, '.');
    if SplitExt(p).1 != [] {
      assert p[..dotIndex] + p[dotIndex..] == p;
    }
  }

  /** The key is the lower-cased extension: as long as it, and empty or a dot followed by no dot. */
  lemma ExtensionKeyShape(name: string)
    ensures |ExtensionKey(name)| == |SplitExt(name).1|
    ensures ExtensionKey(name) == [] || (ExtensionKey(name)[0] == '.' && '.' !in ExtensionKey(name)[1..])
  {
    SplitExtParts(name);
  }

  /** posixpath.join with two components. */
  function PathJoin(a: string, b: string): (path: string)
  {
    if b != [] && b[0] == '/' then b
    else if a == [] || a[|a| - 1] == '/' then a + b
    else a + "/" + b
  }

  /** The joined path ends with the name and, unless the name is absolute, starts with the directory. */
  lemma PathJoinParts(a: string, b: string)
    ensures |b| <= |PathJoin(a, b)| && PathJoin(a, b)[|PathJoin(a, b)| - |b|..] == b
    ensures (b == [] || b[0] != '/') ==> |a| <= |PathJoin(a, b)| && PathJoin(a, b)[..|a|] == a
  {
  }

  /** The keys of the walked files, in visit order. */
  function Keys(walk: seq<WalkEntry>): seq<string> {
    seq(|walk|, j requires 0 <= j < |walk| => ExtensionKey(walk[j].name))
  }

  /** extensions.get(k, 0) + 1 stored back under `k`. */
  function Bump(counts: map<string, nat>, k: string): (next: map<string, nat>)
    ensures k in next && next[k] == (if k in counts then counts[k] else 0) + 1
  {
    counts[k := (if k in counts then counts[k] else 0) + 1]
  }

  /** The dictionary the tally should produce: each extension that occurs, mapped to the number of files with it. */
  function Tally(keys: seq<string>): (counts: map<string, nat>)
  {
    map k | k in keys :: multiset(keys)[k]
  }

  /** The sum of a dictionary's values. */
  ghost function Sum(m: map<string, nat>): nat
    decreases |m|
  {
    if m == map[] then 0
    else
      var k :| k in m;
      m[k] + Sum(m - {k})
  }

  /** The sum does not depend on which key is taken out first. */
  lemma {:induction false} SumRemove(m: map<string, nat>, k: string)
    requires k in m
    ensures Sum(m) == m[k] + Sum(m - {k})
    decreases |m|
  {
    var j :| j in m && Sum(m) == m[j] + Sum(m - {j});
    if j != k {
      assert |m - {j}| < |m|;
      SumRemove(m - {j}, k);
      assert |m - {k}| < |m|;
      SumRemove(m - {k}, j);
      assert m - {j} - {k} == m - {k} - {j};
    }
  }

  /** Counting one more key into a dictionary adds one to the sum. */
  lemma SumBump(counts: map<string, nat>, k: string)
    ensures Sum(Bump(counts, k)) == Sum(counts) + 1
  {
    var next := Bump(counts, k);
    SumRemove(next, k);
    assert next - {k} == counts - {k};
    if k in counts {
      SumRemove(counts, k);
    } else {
      assert counts - {k} == counts;
    }
  }

  /** The counts add up to the number of files. */
  lemma {:induction false} TallySum(keys: seq<string>)
    ensures Sum(Tally(keys)) == |keys|
  {
    if keys == [] {
      assert Tally(keys) == map[];
    } else {
      var init, k := keys[..|keys| - 1], keys[|keys| - 1];
      assert keys == init + [k];
      TallySum(init);
      TallySnoc(init, k);
      SumBump(Tally(init), k);
    }
  }

  /** The facts the summary reports: the listed extensions are exactly those seen, each counted at least once, and the counts add up to the files. */
  lemma TallySummary(keys: seq<string>)
    ensures forall ext :: ext in Tally(keys) <==> ext in keys
    ensures forall ext :: ext in Tally(keys) ==> Tally(keys)[ext] >= 1
    ensures Sum(Tally(keys)) == |keys|
  {
    TallySum(keys);
  }

  lemma KeysStep(walk: seq<WalkEntry>, i: nat)
    requires i < |walk|
    ensures Keys(walk[..i + 1]) == Keys(walk[..i]) + [ExtensionKey(walk[i].name)]
  {
    assert walk[..i + 1][..i] == walk[..i];
  }

  /** Counting one more key adds one to its count: the loop's update keeps the dictionary equal to the tally. */
  lemma TallySnoc(keys: seq<string>, k: string)
    ensures Tally(keys + [k]) == Bump(Tally(keys), k)
  {
    var s := keys + [k];
    assert multiset(s) == multiset(keys) + multiset{k};
    var expected, counted := Tally(s), Bump(Tally(keys), k);
    forall j ensures j in expected <==> j in counted {
      assert j in s <==> j in keys || j == k;
    }
    assert expected == counted;
  }

  /** The sample printed while walking: the paths of the first SampleSize files, in visit order. */
  function Sample(walk: seq<WalkEntry>): (found: seq<string>)
  {
    if walk == [] then []
    else
      var last := walk[|walk| - 1];
      Sample(walk[..|walk| - 1]) + if |walk| <= SampleSize then [PathJoin(last.root, last.name)] else []
  }

  /** The sample holds the paths of the first SampleSize files (all of them when there are fewer), in visit order. */
  lemma {:induction false} SampleIsPrefix(walk: seq<WalkEntry>)
    ensures |Sample(walk)| == if |walk| < SampleSize then |walk| else SampleSize
    ensures forall j :: 0 <= j < |Sample(walk)| ==> Sample(walk)[j] == PathJoin(walk[j].root, walk[j].name)
  {
    if walk != [] {
      var init := walk[..|walk| - 1];
      SampleIsPrefix(init);
      var last := walk[|walk| - 1];
      var extra := if |walk| <= SampleSize then [PathJoin(last.root, last.name)] else [];
      assert Sample(walk) == Sample(init) + extra;
      forall j | 0 <= j < |Sample(walk)|
        ensures Sample(walk)[j] == PathJoin(walk[j].root, walk[j].name)
      {
        if j < |Sample(init)| {
          assert Sample(walk)[j] == Sample(init)[j];
          assert init[j] == walk[j];
        }
      }
    }
  }

  /** Below the sample size, one more file adds its path to the sample. */
  lemma SampleGrows(walk: seq<WalkEntry>, i: nat)
    requires i < |walk| && i < SampleSize
    ensures Sample(walk[..i + 1]) == Sample(walk[..i]) + [PathJoin(walk[i].root, walk[i].name)]
  {
    assert walk[..i + 1][..i] == walk[..i];
  }

  /** Once the sample is full, further files leave it unchanged. */
  lemma SampleFull(walk: seq<WalkEntry>, i: nat)
    requires i < |walk| && i >= SampleSize
    ensures Sample(walk[..i + 1]) == Sample(walk[..i])
  {
    assert walk[..i + 1][..i] == walk[..i];
  }

  /** The tally loop: counts files, tallies extensions, and collects the sample of the first paths. */
  method InspectFiles(walk: seq<WalkEntry>) returns (fileCount: nat, extensions: map<string, nat>, found: seq<string>)
    ensures fileCount == |walk|
    ensures extensions == Tally(Keys(walk))
    ensures found == Sample(walk)
  {
    fileCount := 0;
    extensions := map[];
    found := [];
    var i := 0;
    while i < |walk|
      invariant 0 <= i <= |walk|
      invariant fileCount == i
      invariant extensions == Tally(Keys(walk[..i]))
      invariant found == Sample(walk[..i])
    {
      var entry := walk[i];
      fileCount := fileCount + 1;
      var ext := ExtensionKey(entry.name);
      KeysStep(walk, i);
      TallySnoc(Keys(walk[..i]), ext);
      extensions := Bump(extensions, ext);
      if fileCount <= SampleSize {
        SampleGrows(walk, i);
        found := found + [PathJoin(entry.root, entry.name)];
      } else {
        SampleFull(walk, i);
      }
      i := i + 1;
    }
    assert walk[..|walk|] == walk;
  }

  /** A name without a dot has no extension. */
  lemma NoDotNoExtension(name: string)
    requires '.' !in name
    ensures ExtensionKey(name) == ""
  {
    assert RFind(name, '.') == -1;
  }

  /** A name made of leading dots and then a part without dots, like ".bashrc", has no extension. */
  lemma HiddenFileNoExtension(dots: string, rest: string)
    requires dots != [] && forall k :: 0 <= k < |dots| ==> dots[k] == '.'
    requires '.' !in rest && '/' !in dots + rest
    ensures ExtensionKey(dots + rest) == ""
  {
    var p := dots + rest;
    var dotIndex := RFind(p, '.');
    assert p[|dots| - 1] == '.';
    assert dotIndex == |dots| - 1 by {
      forall k | |dots| <= k < |p| ensures p[k] != '.' {
        assert p[k] == rest[k - |dots|];
      }
    }
    assert RFind(p, '/') == -1;
  }

  /** With no slash, a last dot preceded by some other character splits the name there. */
  lemma SplitAtLastDot(p: string, i: nat)
    requires i < |p| && p[i] == '.' && '/' !in p
    requires forall k :: i < k < |p| ==> p[k] != '.'
    requires exists k :: 0 <= k < i && p[k] != '.'
    ensures SplitExt(p) == (p[..i], p[i..])
  {
    assert RFind(p, '.') == i;
    assert RFind(p, '/') == -1;
  }

  lemma DottedName(base: string, ext: string)
    requires exists k :: 0 <= k < |base| && base[k] != '.'
    requires '/' !in base && '/' !in ext && '.' !in ext
    ensures var p := base + "." + ext;
      |base| < |p| && p[|base|] == '.' && '/' !in p &&
      (forall k :: |base| < k < |p| ==> p[k] != '.') &&
      (exists k :: 0 <= k < |base| && p[k] != '.') &&
      p[..|base|] == base && p[|base|..] == "." + ext
  {
    var p := base + "." + ext;
    var i := |base|;
    forall k | i < k < |p| ensures p[k] != '.' {
      assert p[k] == ext[k - i - 1];
    }
    forall k | 0 <= k < |p| ensures p[k] != '/' {
      if k < i { assert p[k] == base[k]; }
      else if k > i { assert p[k] == ext[k - i - 1]; }
    }
    var k :| 0 <= k < |base| && base[k] != '.';
    assert p[k] == base[k];
  }

  /** Only the last suffix counts: "archive.TAR.GZ" is tallied under ".gz". */
  lemma LastSuffixCounts(base: string, ext: string)
    requires exists k :: 0 <= k < |base| && base[k] != '.'
    requires '/' !in base && '/' !in ext && '.' !in ext
    ensures SplitExt(base + "." + ext) == (base, "." + ext)
    ensures ExtensionKey(base + "." + ext) == Lower("." + ext)
  {
    DottedName(base, ext);
    SplitAtLastDot(base + "." + ext, |base|);
  }
}
