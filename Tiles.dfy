/**
 * Section 3 of las2potree.py (lines 46-54): walking the data root and keeping
 * every file whose lower-cased name ends in ".las" or ".laz", in the order the
 * walk lists them, duplicates included.
 */
module Tiles {

  /** One triple (root, dirs, files) yielded by os.walk. */
  datatype WalkStep = WalkStep(root: string, dirs: seq<string>, files: seq<string>)

  /** One file listed by the walk: its directory and its bare name. */
  datatype Found = Found(root: string, name: string)

  const Separator: char := '/'

  /** os.path.join(root, name) for a bare file name (one without separators). */
  function JoinPath(root: string, name: string): string {
    if root == [] || root[|root| - 1] == Separator then root + name
    else root + [Separator] + name
  }

  /** The joined path starts with the directory and ends with the file name. */
  lemma JoinPathParts(root: string, name: string)
    ensures var p := JoinPath(root, name);
      |p| >= |root| + |name| && p[..|root|] == root && p[|p| - |name|..] == name
  {
    var p := JoinPath(root, name);
    if !(root == [] || root[|root| - 1] == Separator) {
      assert p == (root + [Separator]) + name;
    }
  }

  /** str.lower on one character; only the ASCII letters are mapped. */
  function LowerChar(c: char): char {
    if 'A' <= c <= 'Z' then (c as int - 'A' as int + 'a' as int) as char else c
  }

  function Lower(s: string): string {
    seq(|s|, i requires 0 <= i < |s| => LowerChar(s[i]))
  }

  predicate EndsWith(s: string, suffix: string) {
    |suffix| <= |s| && s[|s| - |suffix|..] == suffix
  }

  /** The test of line 49 as written: file.lower().endswith((".las", ".laz")). */
  predicate SuffixTest(name: string) {
    EndsWith(Lower(name), ".las") || EndsWith(Lower(name), ".laz")
  }

  /** A point-cloud name: its last four characters are a case-insensitive ".las" or ".laz". */
  predicate IsPointCloudName(name: string) {
    var n := |name|;
    n >= 4 && name[n - 4] == '.' && name[n - 3] in "lL" && name[n - 2] in "aA" && name[n - 1] in "sSzZ"
  }

  /** The suffix test of line 49 accepts exactly the point-cloud names. */
  lemma PointCloudNameByLastFour(name: string)
    ensures SuffixTest(name) <==> IsPointCloudName(name)
  {
    var l := Lower(name);
    var n := |name|;
    if n >= 4 {
      assert l[n - 4..] == [l[n - 4], l[n - 3], l[n - 2], l[n - 1]];
      assert LowerChar(name[n - 4]) == '.' <==> name[n - 4] == '.';
      assert LowerChar(name[n - 3]) == 'l' <==> name[n - 3] in "lL";
      assert LowerChar(name[n - 2]) == 'a' <==> name[n - 2] in "aA";
      assert LowerChar(name[n - 1]) == 's' <==> name[n - 1] in "sS";
      assert LowerChar(name[n - 1]) == 'z' <==> name[n - 1] in "zZ";
    }
  }

  lemma KeptNameExamples()
    ensures SuffixTest("tile_07.LAS") && SuffixTest("Wreck.LaZ") && SuffixTest(".las")
  {
    PointCloudNameByLastFour("tile_07.LAS");
    PointCloudNameByLastFour("Wreck.LaZ");
    PointCloudNameByLastFour(".las");
  }

  lemma RejectedNameExamples()
    ensures !SuffixTest("tile.las.bak") && !SuffixTest("las") && !SuffixTest("tile.lasx")
  {
    PointCloudNameByLastFour("tile.las.bak");
    PointCloudNameByLastFour("las");
    PointCloudNameByLastFour("tile.lasx");
  }

  /** The files of one walk step, in listing order. */
  function StepFiles(step: WalkStep): seq<Found> {
    seq(|step.files|, i requires 0 <= i < |step.files| => Found(step.root, step.files[i]))
  }

  /** Every file the walk lists, in the order the two nested loops visit them. */
  function Discovered(walk: seq<WalkStep>): seq<Found> {
    if walk == [] then [] else Discovered(walk[..|walk| - 1]) + StepFiles(walk[|walk| - 1])
  }

  function PathOf(f: Found): string {
    JoinPath(f.root, f.name)
  }

  function KeptPath(f: Found): seq<string> {
    if IsPointCloudName(f.name) then [PathOf(f)] else []
  }

  /** The tile list the loop builds from the discovered files: at most one path per file. */
  function Keep(found: seq<Found>): seq<string> {
    if found == [] then [] else Keep(found[..|found| - 1]) + KeptPath(found[|found| - 1])
  }

  /** At most one tile per discovered file. */
  lemma {:induction false} KeepBound(found: seq<Found>)
    ensures |Keep(found)| <= |found|
  {
    if found != [] {
      KeepBound(found[..|found| - 1]);
    }
  }

  /** Keeping distributes over concatenation: the order of discovery is the order of the tiles. */
  lemma {:induction false} KeepAppend(a: seq<Found>, b: seq<Found>)
    ensures Keep(a + b) == Keep(a) + Keep(b)
  {
    if b == [] {
      assert a + b == a;
    } else {
      var b' := b[..|b| - 1];
      assert (a + b)[..|a + b| - 1] == a + b';
      assert (a + b)[|a + b| - 1] == b[|b| - 1];
      KeepAppend(a, b');
    }
  }

  /** The file f yields the tile p. */
  predicate Yields(f: Found, p: string) {
    IsPointCloudName(f.name) && PathOf(f) == p
  }

  /** Every file that passes the test contributes its path to the tiles. */
  lemma {:induction false} KeepContains(found: seq<Found>, i: nat, p: string)
    requires i < |found| && Yields(found[i], p)
    ensures p in Keep(found)
  {
    var init := found[..|found| - 1];
    if i < |init| {
      assert init[i] == found[i];
      KeepContains(init, i, p);
    }
  }

  /** Every tile comes from some discovered file that passes the test. */
  lemma {:induction false} KeepSource(found: seq<Found>, p: string) returns (i: nat)
    requires p in Keep(found)
    ensures i < |found| && Yields(found[i], p)
  {
    var init := found[..|found| - 1];
    if p in Keep(init) {
      i := KeepSource(init, p);
      assert init[i] == found[i];
    } else {
      i := |found| - 1;
    }
  }

  /** A path is a tile exactly when some discovered file passes the test and joins to it. */
  lemma KeepMembership(found: seq<Found>, p: string)
    ensures p in Keep(found) <==> exists i :: 0 <= i < |found| && Yields(found[i], p)
  {
    if p in Keep(found) {
      var i := KeepSource(found, p);
    }
    if exists i :: 0 <= i < |found| && Yields(found[i], p) {
      var i :| 0 <= i < |found| && Yields(found[i], p);
      KeepContains(found, i, p);
    }
  }

  /** The tile list is empty exactly when no discovered name passes the test. */
  lemma {:induction false} KeepEmpty(found: seq<Found>)
    ensures Keep(found) == [] <==> forall i :: 0 <= i < |found| ==> !IsPointCloudName(found[i].name)
  {
    if found != [] {
      var init := found[..|found| - 1];
      KeepEmpty(init);
      assert forall i :: 0 <= i < |init| ==> init[i] == found[i];
    }
  }

  /** When every name passes, each discovered file becomes one tile at its own position: nothing is de-duplicated. */
  lemma {:induction false} KeepAllPass(found: seq<Found>)
    requires forall i :: 0 <= i < |found| ==> IsPointCloudName(found[i].name)
    ensures |Keep(found)| == |found|
    ensures forall i :: 0 <= i < |found| ==> Keep(found)[i] == PathOf(found[i])
  {
    if found != [] {
      var init, last := found[..|found| - 1], found[|found| - 1];
      forall i | 0 <= i < |init| ensures IsPointCloudName(init[i].name) {
        assert init[i] == found[i];
      }
      KeepAllPass(init);
      assert IsPointCloudName(last.name);
      var kept := Keep(init);
      assert Keep(found) == kept + [PathOf(last)];
      forall i | 0 <= i < |found| ensures Keep(found)[i] == PathOf(found[i]) {
        if i < |init| {
          assert found[i] == init[i];
          assert Keep(found)[i] == kept[i];
        }
      }
    }
  }

  /** Keeping one more file appends its path when, and only when, its name passes the test. */
  lemma KeepSnoc(files: seq<Found>, j: nat, root: string, name: string)
    requires j < |files| && files[j] == Found(root, name)
    ensures Keep(files[..j + 1]) == Keep(files[..j]) + (if IsPointCloudName(name) then [JoinPath(root, name)] else [])
  {
    assert files[..j + 1][..j] == files[..j];
  }

  /** Walking one more directory appends its files. */
  lemma DiscoveredSnoc(walk: seq<WalkStep>, w: nat)
    requires w < |walk|
    ensures Discovered(walk[..w + 1]) == Discovered(walk[..w]) + StepFiles(walk[w])
  {
    assert walk[..w + 1][..w] == walk[..w];
  }

  /** Lines 48-50: the inner loop over the files of one walk step, appending each kept path. */
  method KeepStepFiles(step: WalkStep, tiles0: seq<string>) returns (tiles: seq<string>)
    ensures tiles == tiles0 + Keep(StepFiles(step))
  {
    ghost var files := StepFiles(step);
    tiles := tiles0;
    var j := 0;
    while j < |step.files|
      invariant 0 <= j <= |step.files|
      invariant tiles == tiles0 + Keep(files[..j])
    {
      var file := step.files[j];
      KeepSnoc(files, j, step.root, file);
      PointCloudNameByLastFour(file);
      ghost var kept := Keep(files[..j]);
      if SuffixTest(file) {
        assert tiles + [JoinPath(step.root, file)] == tiles0 + (kept + [JoinPath(step.root, file)]);
        tiles := tiles + [JoinPath(step.root, file)];
      } else {
        assert kept + [] == kept;
      }
      j := j + 1;
    }
    assert files[..j] == files;
  }

  /** Lines 46-50: the outer loop over os.walk. */
  method DiscoverTiles(walk: seq<WalkStep>) returns (tiles: seq<string>)
    ensures tiles == Keep(Discovered(walk))
  {
    tiles := [];
    var w := 0;
    while w < |walk|
      invariant 0 <= w <= |walk|
      invariant tiles == Keep(Discovered(walk[..w]))
    {
      KeepAppend(Discovered(walk[..w]), StepFiles(walk[w]));
      DiscoveredSnoc(walk, w);
      tiles := KeepStepFiles(walk[w], tiles);
      w := w + 1;
    }
    assert walk[..w] == walk;
  }
}
