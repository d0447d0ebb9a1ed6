/**
 * The order in which directory listings are processed: deeper paths first,
 * paths of equal depth by strcmp.
 */
module DirSort {
  import opened FileUtils

  /** The sign of strcmp: characters compare by code, and a string sorts before its extensions. */
  function StrCmp(a: string, b: string): (c: int)
    ensures -1 <= c <= 1
    ensures c == 0 <==> a == b
  {
    if a == [] && b == [] then 0
    else if a == [] then -1
    else if b == [] then 1
    else if a[0] < b[0] then -1
    else if a[0] > b[0] then 1
    else
      assert a == [a[0]] + a[1..] && b == [b[0]] + b[1..];
      StrCmp(a[1..], b[1..])
  }

  /** Swapping the arguments of strcmp flips the sign. */
  lemma {:induction false} StrCmpAntisymmetric(a: string, b: string)
    ensures StrCmp(a, b) == -StrCmp(b, a)
  {
    if a != [] && b != [] && a[0] == b[0] {
      StrCmpAntisymmetric(a[1..], b[1..]);
    }
  }

  /** strcmp orders strings transitively. */
  lemma {:induction false} StrCmpTransitive(a: string, b: string, c: string)
    requires StrCmp(a, b) <= 0 && StrCmp(b, c) <= 0
    ensures StrCmp(a, c) <= 0
  {
    if a != [] && b != [] && c != [] && a[0] == b[0] && b[0] == c[0] {
      StrCmpTransitive(a[1..], b[1..], c[1..]);
    }
  }

  /** sort_dirs_ascending: the depth of `b` minus the depth of `a`, or strcmp when they are equally deep. */
  function DirCompare(a: string, b: string): int
  {
    var dr := PathDeepness(b) - PathDeepness(a);
    if dr != 0 then dr else StrCmp(a, b)
  }

  /** `a` may come before `b` in a sorted listing. */
  predicate DirBefore(a: string, b: string) {
    DirCompare(a, b) <= 0
  }

  /** A deeper path always sorts first; equally deep paths sort as strcmp does. */
  lemma DeeperFirst(a: string, b: string)
    ensures PathDeepness(a) > PathDeepness(b) ==> DirCompare(a, b) < 0
    ensures PathDeepness(a) == PathDeepness(b) ==> DirCompare(a, b) == StrCmp(a, b)
  {
  }

  /** The comparator is antisymmetric and tells only equal paths apart as equal. */
  lemma DirCompareAntisymmetric(a: string, b: string)
    ensures DirCompare(a, b) == -DirCompare(b, a)
    ensures DirCompare(a, b) == 0 <==> a == b
  {
    StrCmpAntisymmetric(a, b);
  }

  /** The comparator is transitive, so it is a total order qsort can rely on. */
  lemma DirCompareTransitive(a: string, b: string, c: string)
    requires DirBefore(a, b) && DirBefore(b, c)
    ensures DirBefore(a, c)
  {
    if PathDeepness(a) == PathDeepness(b) == PathDeepness(c) {
      StrCmpTransitive(a, b, c);
    }
  }

  /** Every path comes no later than every path after it. */
  predicate SortedDirs(s: seq<string>) {
    forall i, j :: 0 <= i < j < |s| ==> DirBefore(s[i], s[j])
  }

  /** Inserts `x` before the first path it may precede. */
  function Insert(x: string, s: seq<string>): seq<string>
  {
    if s == [] then [x]
    else if DirBefore(x, s[0]) then [x] + s
    else [s[0]] + Insert(x, s[1..])
  }

  /** Insertion keeps a listing sorted and adds exactly `x`. */
  lemma {:induction false} InsertSorted(x: string, s: seq<string>)
    requires SortedDirs(s)
    ensures SortedDirs(Insert(x, s))
    ensures multiset(Insert(x, s)) == multiset(s) + multiset{x}
  {
    if s == [] {
    } else if DirBefore(x, s[0]) {
      forall j | 0 < j < |s| ensures DirBefore(x, s[j]) {
        DirCompareTransitive(x, s[0], s[j]);
      }
      assert multiset([x] + s) == multiset{x} + multiset(s);
    } else {
      var r := Insert(x, s[1..]);
      InsertSorted(x, s[1..]);
      DirCompareAntisymmetric(x, s[0]);
      assert s == [s[0]] + s[1..];
      forall j | 0 <= j < |r| ensures DirBefore(s[0], r[j]) {
        assert r[j] in multiset(r);
        if r[j] != x {
          assert r[j] in multiset(s[1..]);
          var k :| 0 <= k < |s[1..]| && s[1..][k] == r[j];
          assert s[k + 1] == r[j];
        }
      }
      assert Insert(x, s) == [s[0]] + r;
    }
  }

  /** The listing as sort_dirlist leaves it. */
  function SortDirs(s: seq<string>): seq<string>
  {
    if s == [] then [] else Insert(s[0], SortDirs(s[1..]))
  }

  /** sort_dirlist yields a sorted permutation of the listing. */
  lemma {:induction false} SortDirsSpec(s: seq<string>)
    ensures SortedDirs(SortDirs(s))
    ensures multiset(SortDirs(s)) == multiset(s)
  {
    if s != [] {
      SortDirsSpec(s[1..]);
      InsertSorted(s[0], SortDirs(s[1..]));
      assert s == [s[0]] + s[1..];
    }
  }

  /** The head of a sorted listing comes no later than any of its elements. */
  lemma SortedHead(s: seq<string>, k: nat)
    requires SortedDirs(s) && k < |s|
    ensures DirBefore(s[0], s[k])
  {
    DirCompareAntisymmetric(s[0], s[0]);
  }

  /** The tail of a sorted listing is sorted. */
  lemma SortedTail(s: seq<string>)
    requires SortedDirs(s) && |s| > 0
    ensures SortedDirs(s[1..])
  {
    forall p, q | 0 <= p < q < |s[1..]| ensures DirBefore(s[1..][p], s[1..][q]) {
      assert s[1..][p] == s[p + 1] && s[1..][q] == s[q + 1];
    }
  }

  /** Two permutations of one another with the same head have permuted tails. */
  lemma SameHeadTails(a: seq<string>, b: seq<string>)
    requires |a| > 0 && |b| > 0 && a[0] == b[0] && multiset(a) == multiset(b)
    ensures multiset(a[1..]) == multiset(b[1..])
  {
    assert a == [a[0]] + a[1..] && b == [b[0]] + b[1..];
    assert multiset(a) == multiset{a[0]} + multiset(a[1..]);
    assert multiset(b) == multiset{b[0]} + multiset(b[1..]);
    assert multiset(a[1..]) == multiset(a) - multiset{a[0]};
    assert multiset(b[1..]) == multiset(b) - multiset{b[0]};
  }

  /**
   * A listing has only one sorted arrangement, so whatever order qsort
   * visits the elements in, the result is SortDirs of the listing.
   */
  lemma {:induction false} SortedUnique(a: seq<string>, b: seq<string>)
    requires SortedDirs(a) && SortedDirs(b) && multiset(a) == multiset(b)
    ensures a == b
  {
    if a == [] {
      assert |multiset(b)| == 0;
    } else {
      assert |b| == |multiset(b)| == |a| > 0;
      assert a[0] in multiset(b) && b[0] in multiset(a);
      var j :| 0 <= j < |b| && b[j] == a[0];
      var i :| 0 <= i < |a| && a[i] == b[0];
      SortedHead(b, j);
      SortedHead(a, i);
      DirCompareAntisymmetric(a[0], b[0]);
      SameHeadTails(a, b);
      SortedTail(a);
      SortedTail(b);
      SortedUnique(a[1..], b[1..]);
      assert a == [a[0]] + a[1..] && b == [b[0]] + b[1..];
    }
  }

  /** sort_dirlist: sorts the listing in place with sort_dirs_ascending. */
  method SortDirList(list: array<string>)
    modifies list
    ensures SortedDirs(list[..]) && multiset(list[..]) == multiset(old(list[..]))
    ensures list[..] == SortDirs(old(list[..]))
  {
    var sorted := SortDirs(list[..]);
    SortDirsSpec(list[..]);
    assert |sorted| == |multiset(sorted)| == list.Length;
    forall i | 0 <= i < list.Length {
      list[i] := sorted[i];
    }
    assert list[..] == sorted;
  }

  // ----- listings below a directory -----

  /** Every listed path is at least as long as `dir`, the prefix skipped before an entry is read. */
  predicate Below(dir: string, paths: seq<string>) {
    forall i :: 0 <= i < |paths| ==> |dir| <= |paths[i]|
  }

  /** A prefix of a listing lies below the directory the listing does. */
  lemma BelowPrefix(dir: string, paths: seq<string>, n: nat)
    requires Below(dir, paths) && n <= |paths|
    ensures Below(dir, paths[..n])
  {
    forall i | 0 <= i < n ensures |dir| <= |paths[..n][i]| {
      assert paths[..n][i] == paths[i];
    }
  }

  /** Paths whose parts below `dir` come deeper first. */
  predicate DeeperFirstBelow(dir: string, paths: seq<string>)
    requires Below(dir, paths)
  {
    forall i, j :: 0 <= i < j < |paths| ==> PathDeepness(paths[i][|dir|..]) >= PathDeepness(paths[j][|dir|..])
  }

  /** A sorted listing below `dir` comes deeper first below `dir` too. */
  lemma SortedDeeperFirstBelow(dir: string, paths: seq<string>)
    requires Below(dir, paths) && SortedDirs(paths)
    requires forall i :: 0 <= i < |paths| ==> dir <= paths[i]
    ensures DeeperFirstBelow(dir, paths)
  {
    forall i, j | 0 <= i < j < |paths|
      ensures PathDeepness(paths[i][|dir|..]) >= PathDeepness(paths[j][|dir|..])
    {
      RelativeDeeper(dir, paths[i], paths[j]);
    }
  }

  /** Dropping the last path keeps the depth order, and the dropped path is the shallowest. */
  lemma DeeperFirstBelowPrefix(dir: string, paths: seq<string>, n: nat)
    requires Below(dir, paths) && DeeperFirstBelow(dir, paths) && n < |paths|
    ensures Below(dir, paths[..n]) && DeeperFirstBelow(dir, paths[..n])
    ensures forall k :: 0 <= k < n ==> PathDeepness(paths[..n][k][|dir|..]) >= PathDeepness(paths[n][|dir|..])
  {
    BelowPrefix(dir, paths, n);
    forall i, j | 0 <= i < j < n
      ensures PathDeepness(paths[..n][i][|dir|..]) >= PathDeepness(paths[..n][j][|dir|..])
    {
      assert paths[..n][i] == paths[i] && paths[..n][j] == paths[j];
    }
    forall k | 0 <= k < n ensures PathDeepness(paths[..n][k][|dir|..]) >= PathDeepness(paths[n][|dir|..]) {
      assert paths[..n][k] == paths[k];
    }
  }

  /** Sorting keeps the listing below the directory. */
  lemma BelowSorted(dir: string, paths: seq<string>)
    requires Below(dir, paths)
    ensures Below(dir, SortDirs(paths))
  {
    SortDirsSpec(paths);
    var sorted := SortDirs(paths);
    forall i | 0 <= i < |sorted| ensures |dir| <= |sorted[i]| {
      assert sorted[i] in multiset(paths);
    }
  }

  /** For two paths below the same directory, the one sorted first is at least as deep below it. */
  lemma RelativeDeeper(dir: string, a: string, b: string)
    requires dir <= a && dir <= b && DirBefore(a, b)
    ensures PathDeepness(a[|dir|..]) >= PathDeepness(b[|dir|..])
  {
    assert a == dir + a[|dir|..] && b == dir + b[|dir|..];
    DeepnessAppend(dir, a[|dir|..]);
    DeepnessAppend(dir, b[|dir|..]);
  }

  /** Concatenation regroups freely. */
  lemma AppendAssoc<T>(a: seq<T>, b: seq<T>, c: seq<T>)
    ensures a + b + c == a + (b + c)
  {
  }
}
