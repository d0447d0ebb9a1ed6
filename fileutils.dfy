/**
 * Path arithmetic: separator counting, duplicate-slash clean-up, joining
 * segments, appending an extension, and extracting the base name and the
 * parent directory name of a path. UNIX separators (`/`) only.
 */
module FileUtils {
  import opened Wrappers
  import opened StrUtils

  /** path_deepness: the number of separators in `p`. */
  function PathDeepness(p: string): (d: nat)
    ensures d == multiset(p)['/']
  {
    if p == [] then 0
    else
      assert p == [p[0]] + p[1..];
      (if p[0] == '/' then 1 else 0) + PathDeepness(p[1..])
  }

  /** Depth adds up over concatenation. */
  lemma DeepnessAppend(a: string, b: string)
    ensures PathDeepness(a + b) == PathDeepness(a) + PathDeepness(b)
  {
  }

  /** The first index of `c` in `s` (strchr). */
  function IndexOf(s: string, c: char): (r: Option<nat>)
    ensures r.Some? ==> r.value < |s| && s[r.value] == c && c !in s[..r.value]
    ensures r.None? ==> c !in s
  {
    if s == [] then None
    else if s[0] == c then Some(0)
    else
      match IndexOf(s[1..], c)
      case None => None
      case Some(i) =>
        assert s[..i + 1] == [s[0]] + s[1..][..i];
        Some(i + 1)
  }

  /** The last index of `c` in `s` (strrchr). */
  function LastIndexOf(s: string, c: char): (r: Option<nat>)
    ensures r.Some? ==> r.value < |s| && s[r.value] == c && c !in s[r.value + 1..]
    ensures r.None? ==> c !in s
  {
    if s == [] then None
    else if s[|s| - 1] == c then Some(|s| - 1)
    else
      var r := LastIndexOf(s[..|s| - 1], c);
      assert s == s[..|s| - 1] + [s[|s| - 1]];
      assert r.Some? ==> s[r.value + 1..] == s[..|s| - 1][r.value + 1..] + [s[|s| - 1]];
      r
  }

  /** The last occurrence is the only position with no later occurrence. */
  lemma LastIndexOfAt(s: string, c: char, k: nat)
    requires k < |s| && s[k] == c && c !in s[k + 1..]
    ensures LastIndexOf(s, c) == Some(k)
  {
    var r := LastIndexOf(s, c);
    forall m | k < m < |s| ensures s[m] != c {
      assert s[m] == s[k + 1..][m - k - 1];
    }
  }

  // ----- cleanup_path -----

  /** No two separators are adjacent. */
  predicate NoDoubleSlash(s: string) {
    forall i :: 0 <= i < |s| - 1 ==> !(s[i] == '/' && s[i + 1] == '/')
  }

  /** `s` with every run of separators collapsed to one. */
  function CollapseSlashes(s: string): (r: string)
    ensures |r| <= |s|
    ensures |s| > 0 ==> |r| > 0 && r[0] == s[0]
  {
    if |s| <= 1 then s
    else if s[0] == '/' && s[1] == '/' then CollapseSlashes(s[1..])
    else [s[0]] + CollapseSlashes(s[1..])
  }

  /** After collapsing, no two separators are adjacent. */
  lemma {:induction false} CollapseIsClean(s: string)
    ensures NoDoubleSlash(CollapseSlashes(s))
  {
    if |s| > 1 {
      CollapseIsClean(s[1..]);
      var r := CollapseSlashes(s[1..]);
      if !(s[0] == '/' && s[1] == '/') {
        var r' := [s[0]] + r;
        forall i | 0 <= i < |r'| - 1 ensures !(r'[i] == '/' && r'[i + 1] == '/') {
          if i > 0 {
            assert r'[i] == r[i - 1] && r'[i + 1] == r[i];
          }
        }
      }
    }
  }

  /** A path without duplicate separators is left as it is. */
  lemma {:induction false} CollapseFixesClean(s: string)
    requires NoDoubleSlash(s)
    ensures CollapseSlashes(s) == s
  {
    if |s| > 1 {
      assert !(s[0] == '/' && s[1] == '/');
      assert NoDoubleSlash(s[1..]) by {
        forall i | 0 <= i < |s[1..]| - 1 ensures !(s[1..][i] == '/' && s[1..][i + 1] == '/') {
          assert s[1..][i] == s[i + 1] && s[1..][i + 1] == s[i + 2];
        }
      }
      CollapseFixesClean(s[1..]);
    }
  }

  /** Cleaning a clean path changes nothing: cleanup_path is idempotent. */
  lemma CollapseIdempotent(s: string)
    ensures CollapseSlashes(CollapseSlashes(s)) == CollapseSlashes(s)
  {
    CollapseIsClean(s);
    CollapseFixesClean(CollapseSlashes(s));
  }

  /** Dropping the first slash of a `//` pair does not change the collapsed path. */
  lemma {:induction false} CollapseDropPair(s: string, p: nat)
    requires p + 1 < |s| && s[p] == '/' && s[p + 1] == '/'
    ensures CollapseSlashes(s[..p] + s[p + 1..]) == CollapseSlashes(s)
  {
    var t := s[..p] + s[p + 1..];
    if p == 0 {
      assert t == s[1..];
    } else if p == 1 {
      assert t == [s[0]] + s[2..];
      assert t[1..] == s[2..];
      assert s[1..][1..] == s[2..];
    } else {
      assert t[0] == s[0] && t[1] == s[1];
      assert t[1..] == s[1..][..p - 1] + s[1..][p..];
      CollapseDropPair(s[1..], p - 1);
    }
  }

  /** Collapsing distributes over a concatenation that does not join two separators. */
  lemma {:induction false} CollapseConcat(a: string, b: string)
    requires !(|a| > 0 && |b| > 0 && a[|a| - 1] == '/' && b[0] == '/')
    ensures CollapseSlashes(a + b) == CollapseSlashes(a) + CollapseSlashes(b)
  {
    if a == [] {
      assert a + b == b;
    } else if |a| == 1 {
      if b != [] {
        assert (a + b)[1..] == b;
      } else {
        assert a + b == a;
      }
    } else {
      assert (a + b)[1..] == a[1..] + b;
      CollapseConcat(a[1..], b);
    }
  }

  /** No `//` occurs (as strstr sees it) exactly when the path is clean. */
  lemma NoPairMeansClean(s: string)
    requires forall j :: !OccursAt(s, "//", j)
    ensures NoDoubleSlash(s)
  {
    forall i | 0 <= i < |s| - 1 ensures !(s[i] == '/' && s[i + 1] == '/') {
      assert !OccursAt(s, "//", i);
      assert s[i..i + 2] == [s[i], s[i + 1]];
    }
  }

  /**
   * cleanup_path: repeatedly find the first `//` and shift the rest of the
   * string one place to the left over its first slash. The path is the first
   * `len` characters of the buffer; the new length is returned.
   */
  method CleanupPath(path: array<char>, len: nat) returns (newLen: nat)
    requires len <= path.Length
    modifies path
    ensures newLen <= len
    ensures path[..newLen] == CollapseSlashes(old(path[..len]))
  {
    newLen := len;
    var pos := FirstOccurrence(path[..newLen], "//");
    while pos.Some?
      invariant newLen <= len
      invariant CollapseSlashes(path[..newLen]) == CollapseSlashes(old(path[..len]))
      invariant pos == FirstOccurrence(path[..newLen], "//")
      decreases newLen
    {
      var p := pos.value;
      ghost var before := path[..newLen];
      FirstOccurrenceSpec(before, "//", pos);
      assert OccursAt(before, "//", p);
      assert before[p] == before[p..p + 2][0] && before[p + 1] == before[p..p + 2][1];
      var back := p;
      while back < newLen - 1
        invariant p <= back <= newLen - 1
        invariant forall j :: 0 <= j < p ==> path[j] == before[j]
        invariant forall j :: p <= j < back ==> path[j] == before[j + 1]
        invariant forall j :: back <= j < newLen ==> path[j] == before[j]
      {
        path[back] := path[back + 1];
        back := back + 1;
      }
      newLen := newLen - 1;
      assert path[..newLen] == before[..p] + before[p + 1..];
      CollapseDropPair(before, p);
      pos := FirstOccurrence(path[..newLen], "//");
    }
    FirstOccurrenceSpec(path[..newLen], "//", pos);
    NoPairMeansClean(path[..newLen]);
    CollapseFixesClean(path[..newLen]);
  }

  // ----- pathcat and extcat -----

  /** The segments joined with one separator between consecutive ones and none after the last. */
  function JoinPath(segs: seq<string>): string
  {
    if |segs| == 0 then ""
    else if |segs| == 1 then segs[0]
    else segs[0] + "/" + JoinPath(segs[1..])
  }

  /** What pathcat leaves in its buffer. */
  function PathCatOf(segs: seq<string>): (r: string)
    ensures NoDoubleSlash(r)
    ensures |r| <= |JoinPath(segs)|
  {
    CollapseIsClean(JoinPath(segs));
    CollapseSlashes(JoinPath(segs))
  }

  /** What extcat leaves in its buffer. */
  function ExtCatOf(path: string, ext: string): string
  {
    path + "." + ext
  }

  /** strncat of `s` onto the `len` characters already in `buf`. */
  method Append(buf: array<char>, len: nat, s: string) returns (newLen: nat)
    requires len + |s| <= buf.Length
    modifies buf
    ensures newLen == len + |s|
    ensures buf[..newLen] == old(buf[..len]) + s
  {
    for k := 0 to |s|
      invariant buf[..len + k] == old(buf[..len]) + s[..k]
    {
      buf[len + k] := s[k];
      assert s[..k + 1] == s[..k] + [s[k]];
      assert buf[..len + k + 1] == buf[..len + k] + [s[k]];
    }
    newLen := len + |s|;
    assert s[..|s|] == s;
  }

  /** One round of the pathcat loop: the next segment, then a separator unless it is the last. */
  lemma PathCatStep(done: string, rest: seq<string>, whole: string)
    requires |rest| > 0 && done + JoinPath(rest) == whole
    ensures |rest| > 1 ==> done + rest[0] + "/" + JoinPath(rest[1..]) == whole
    ensures |rest| == 1 ==> done + rest[0] == whole
  {
    if |rest| > 1 {
      var tail := JoinPath(rest[1..]);
      assert done + (rest[0] + "/" + tail) == done + rest[0] + "/" + tail;
    }
  }

  /**
   * pathcat: write the segments into `finalPath`, a separator after every
   * segment but the last, then clean the result up; returns its length.
   */
  method PathCat(finalPath: array<char>, segs: seq<string>) returns (len: nat)
    requires |JoinPath(segs)| <= finalPath.Length
    modifies finalPath
    ensures len <= |JoinPath(segs)|
    ensures finalPath[..len] == PathCatOf(segs)
  {
    len := 0;
    assert segs[0..] == segs;
    for i := 0 to |segs|
      invariant len <= finalPath.Length
      invariant i < |segs| ==> finalPath[..len] + JoinPath(segs[i..]) == JoinPath(segs)
      invariant i == |segs| ==> finalPath[..len] == JoinPath(segs)
    {
      PathCatStep(finalPath[..len], segs[i..], JoinPath(segs));
      assert segs[i..][0] == segs[i] && segs[i..][1..] == segs[i + 1..];
      len := Append(finalPath, len, segs[i]);
      if i < |segs| - 1 {
        len := Append(finalPath, len, "/");
      }
    }
    len := CleanupPath(finalPath, len);
  }

  /** extcat: append `.` and `ext` to the `len` characters of `finalPath`; returns the new length. */
  method ExtCat(finalPath: array<char>, len: nat, ext: string) returns (newLen: nat)
    requires len + 1 + |ext| <= finalPath.Length
    modifies finalPath
    ensures newLen == len + 1 + |ext|
    ensures finalPath[..newLen] == ExtCatOf(old(finalPath[..len]), ext)
  {
    newLen := Append(finalPath, len, ".");
    newLen := Append(finalPath, newLen, ext);
  }

  // ----- basename_noext -----

  /** The text after the last separator, or the whole path when it has none. */
  function LastSegment(p: string): string
  {
    match LastIndexOf(p, '/')
    case None => p
    case Some(i) => p[i + 1..]
  }

  /** The last segment is a separator-free suffix that starts the path or follows a separator. */
  lemma LastSegmentSpec(p: string, seg: string)
    requires seg == LastSegment(p)
    ensures '/' !in seg
    ensures |seg| <= |p| && seg == p[|p| - |seg|..]
    ensures |seg| < |p| ==> p[|p| - |seg| - 1] == '/'
  {
  }

  /** A separator-free suffix that starts the path or follows a separator is the last segment. */
  lemma LastSegmentFrom(p: string, q: nat)
    requires q <= |p| && '/' !in p[q..] && (q == 0 || p[q - 1] == '/')
    ensures LastSegment(p) == p[q..]
  {
    if q == 0 {
      assert p[0..] == p;
    } else {
      LastIndexOfAt(p, '/', q - 1);
    }
  }

  /** `seg` up to its first `.`, or all of it when it has none. */
  function UpToDot(seg: string): string
  {
    match IndexOf(seg, '.')
    case None => seg
    case Some(i) => seg[..i]
  }

  /** The file name of `p` without its extension: the last segment up to its first `.`. */
  function BaseNameNoExt(p: string): string
  {
    UpToDot(LastSegment(p))
  }

  /** A dot-free prefix that stops at the end or at a `.` is what UpToDot keeps. */
  lemma UpToDotFrom(seg: string, k: nat)
    requires k <= |seg| && '.' !in seg[..k]
    requires k == |seg| || seg[k] == '.'
    ensures UpToDot(seg) == seg[..k]
  {
    forall j | 0 <= j < k ensures seg[j] != '.' {
      assert seg[j] == seg[..k][j];
    }
    match IndexOf(seg, '.')
    case None =>
    case Some(i) =>
      forall j | 0 <= j < i ensures seg[j] != '.' {
        assert seg[j] == seg[..i][j];
      }
  }

  /** Every dot-free prefix fits in what UpToDot keeps. */
  lemma UpToDotLongest(seg: string, k: nat)
    requires k <= |seg| && '.' !in seg[..k]
    ensures k <= |UpToDot(seg)|
  {
    forall j | 0 <= j < k ensures seg[j] != '.' {
      assert seg[j] == seg[..k][j];
    }
  }

  /** The base name holds no separator and no dot, and is the last segment up to its first dot. */
  lemma BaseNameNoExtSpec(p: string)
    ensures var name := BaseNameNoExt(p);
      '/' !in name && '.' !in name &&
      |name| <= |LastSegment(p)| && name == LastSegment(p)[..|name|] &&
      (|name| < |LastSegment(p)| ==> LastSegment(p)[|name|] == '.')
  {
    var seg := LastSegment(p);
    match IndexOf(seg, '.')
    case None =>
    case Some(i) =>
      forall j | 0 <= j < i ensures seg[..i][j] != '/' {
        assert seg[..i][j] == seg[j];
      }
  }

  /** A dot-free prefix of the last segment that stops at its end or at a `.` is the base name. */
  lemma BaseNameNoExtFrom(p: string, k: nat)
    requires k <= |LastSegment(p)| && '.' !in LastSegment(p)[..k]
    requires k == |LastSegment(p)| || LastSegment(p)[k] == '.'
    ensures BaseNameNoExt(p) == LastSegment(p)[..k]
  {
    UpToDotFrom(LastSegment(p), k);
  }

  /** Every dot-free prefix of the last segment fits in the base name. */
  lemma BaseNameNoExtLongest(p: string, k: nat)
    requires k <= |LastSegment(p)| && '.' !in LastSegment(p)[..k]
    ensures k <= |BaseNameNoExt(p)|
  {
    UpToDotLongest(LastSegment(p), k);
  }

  /** The pointer loop shared by basename_noext and parent_dir_name: the last separator in `s[from..to]`. */
  method ScanLastSlash(s: string, from: nat, to: nat) returns (found: bool, pos: nat)
    requires from <= to <= |s|
    ensures found <==> '/' in s[from..to]
    ensures found ==> from <= pos < to && s[pos] == '/' && '/' !in s[pos + 1..to]
    ensures !found ==> pos == from
  {
    found, pos := false, from;
    for i := from to to
      invariant found <==> '/' in s[from..i]
      invariant found ==> from <= pos < i && s[pos] == '/' && '/' !in s[pos + 1..i]
      invariant !found ==> pos == from
    {
      assert s[from..i + 1] == s[from..i] + [s[i]];
      assert pos < i ==> s[pos + 1..i + 1] == s[pos + 1..i] + [s[i]];
      if s[i] == '/' {
        found, pos := true, i;
      }
    }
  }

  /** Copies `s[from..to]` to the start of `buf`, a character at a time. */
  method CopyRange(buf: array<char>, s: string, from: nat, to: nat)
    requires from <= to <= |s| && to - from <= buf.Length
    modifies buf
    ensures buf[..to - from] == s[from..to]
  {
    for k := 0 to to - from
      invariant buf[..k] == s[from..from + k]
    {
      buf[k] := s[from + k];
      assert buf[..k + 1] == buf[..k] + [s[from + k]];
    }
  }

  /** The copy loop of basename_noext stops at the end of the path or at its first `.` from `from` on. */
  method ScanToDot(s: string, from: nat) returns (stop: nat)
    requires from <= |s|
    ensures from <= stop <= |s| && '.' !in s[from..stop]
    ensures stop == |s| || s[stop] == '.'
  {
    stop := from;
    while stop < |s| && s[stop] != '.'
      invariant from <= stop <= |s|
      invariant '.' !in s[from..stop]
    {
      assert s[from..stop + 1] == s[from..stop] + [s[stop]];
      stop := stop + 1;
    }
  }

  /** Where the first loop of basename_noext leaves its cursor, once moved past a separator, the last segment starts. */
  lemma LastSegmentAfterScan(path: string, found: bool, q: nat)
    requires found <==> '/' in path[0..|path|]
    requires found ==> 0 < q <= |path| && path[q - 1] == '/' && '/' !in path[q..]
    requires !found ==> q == 0
    ensures q <= |path| && LastSegment(path) == path[q..]
  {
    assert path[0..|path|] == path;
    LastSegmentFrom(path, q);
  }

  /** The second loop of basename_noext stops where the base name ends. */
  lemma BaseNameAfterScan(path: string, q: nat, stop: nat)
    requires q <= stop <= |path| && LastSegment(path) == path[q..]
    requires '.' !in path[q..stop] && (stop == |path| || path[stop] == '.')
    ensures BaseNameNoExt(path) == path[q..stop]
  {
    var seg := LastSegment(path);
    assert seg[..stop - q] == path[q..stop];
    assert stop - q == |seg| || seg[stop - q] == path[stop];
    BaseNameNoExtFrom(path, stop - q);
  }

  /**
   * basename_noext: with no buffer, the size to allocate for the last segment
   * (terminator included); with a buffer, writes the base name into it and
   * returns its length plus one.
   */
  method BasenameNoExt(fname: array?<char>, path: string) returns (size: nat)
    requires fname != null ==> |BaseNameNoExt(path)| <= fname.Length
    modifies fname
    ensures fname == null ==> size == |LastSegment(path)| + 1
    ensures fname != null ==> size == |BaseNameNoExt(path)| + 1 && fname[..size - 1] == BaseNameNoExt(path)
  {
    var found, lastpos := ScanLastSlash(path, 0, |path|);
    if lastpos < |path| && path[lastpos] == '/' {
      lastpos := lastpos + 1;
    }
    LastSegmentAfterScan(path, found, lastpos);
    if fname == null {
      size := |path| - lastpos + 1;
    } else {
      var stop := ScanToDot(path, lastpos);
      BaseNameAfterScan(path, lastpos, stop);
      CopyRange(fname, path, lastpos, stop);
      size := stop - lastpos + 1;
    }
  }

  // ----- parent_dir_name -----

  /**
   * The name of the directory holding `p`: the last segment of everything
   * before its last separator. A path has none when it holds no separator
   * besides a leading one.
   */
  function ParentDir(p: string): Option<string>
  {
    match LastIndexOf(p, '/')
    case None => None
    case Some(last) => if last == 0 then None else Some(LastSegment(p[..last]))
  }

  /**
   * A parent name holds no separator, and a path has one exactly when a
   * separator follows its first character.
   */
  lemma ParentDirSpec(p: string)
    ensures ParentDir(p).Some? ==> '/' !in ParentDir(p).value
    ensures ParentDir(p).None? <==> '/' !in (if |p| > 0 && p[0] == '/' then p[1..] else p)
  {
    match LastIndexOf(p, '/')
    case None =>
    case Some(last) =>
      if last > 0 {
        assert p[last] == p[1..][last - 1];
      }
  }

  /** When the first loop of parent_dir_name meets no separator past a leading one, there is no parent. */
  lemma NoParentAfterScan(path: string, start: nat)
    requires start == if |path| > 0 && path[0] == '/' then 1 else 0
    requires '/' !in path[start..|path|]
    ensures ParentDir(path).None?
  {
    assert path[0..] == path && path[start..|path|] == path[start..];
    ParentDirSpec(path);
  }

  /** The two loops of parent_dir_name delimit the parent's name. */
  lemma ParentAfterScans(path: string, start: nat, last: nat, found: bool, prev: nat)
    requires start == if |path| > 0 && path[0] == '/' then 1 else 0
    requires start <= last < |path| && path[last] == '/' && '/' !in path[last + 1..|path|]
    requires found <==> '/' in path[0..last]
    requires found ==> prev < last && path[prev] == '/' && '/' !in path[prev + 1..last]
    requires !found ==> prev == 0
    ensures prev < last
    ensures var q := if path[prev] == '/' then prev + 1 else prev;
      q <= last && ParentDir(path) == Some(path[q..last])
  {
    assert path[last + 1..|path|] == path[last + 1..];
    LastIndexOfAt(path, '/', last);
    assert path[0..last] == path[..last];
    var q := if path[prev] == '/' then prev + 1 else prev;
    assert path[..last][q..] == path[q..last];
    LastSegmentFrom(path[..last], q);
  }

  /**
   * parent_dir_name: 0 when the path has no parent folder; otherwise writes
   * the parent's name into `pdir` and returns its length, or, with no buffer,
   * returns the size to allocate for it (terminator included).
   */
  method ParentDirName(pdir: array?<char>, path: string) returns (size: nat)
    requires pdir != null && ParentDir(path).Some? ==> |ParentDir(path).value| <= pdir.Length
    modifies pdir
    ensures ParentDir(path).None? ==> size == 0
    ensures ParentDir(path).Some? && pdir == null ==> size == |ParentDir(path).value| + 1
    ensures ParentDir(path).Some? && pdir != null ==>
      size == |ParentDir(path).value| && pdir[..size] == ParentDir(path).value
  {
    var start := if |path| > 0 && path[0] == '/' then 1 else 0;
    var hasParent, lastslash := ScanLastSlash(path, start, |path|);
    if !hasParent {
      NoParentAfterScan(path, start);
      return 0;
    }
    var found, prevslash := ScanLastSlash(path, 0, lastslash);
    ParentAfterScans(path, start, lastslash, found, prevslash);
    if path[prevslash] == '/' {
      prevslash := prevslash + 1;
    }
    if pdir != null {
      CopyRange(pdir, path, prevslash, lastslash);
      return lastslash - prevslash;
    }
    return lastslash - prevslash + 1;
  }

  // ----- file_ext_match -----

  /** file_ext_match: the text after the last `.`, or the whole path when it has none, equals `ext`. */
  function FileExtMatch(fpath: string, ext: string): bool
  {
    match LastIndexOf(fpath, '.')
    case None => fpath == ext
    case Some(i) => fpath[i + 1..] == ext
  }

  /** The extension compared is exactly the text after the last dot. */
  lemma FileExtMatchSpec(fpath: string, ext: string)
    ensures FileExtMatch(fpath, ext) <==>
      ('.' !in fpath && fpath == ext) ||
      (exists i :: 0 <= i < |fpath| && fpath[i] == '.' && '.' !in fpath[i + 1..] && fpath[i + 1..] == ext)
  {
    forall i | 0 <= i < |fpath| && fpath[i] == '.' && '.' !in fpath[i + 1..]
      ensures LastIndexOf(fpath, '.') == Some(i)
    {
      LastIndexOfAt(fpath, '.', i);
    }
  }
}
