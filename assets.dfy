/**
 * substitute_assets: every `<img src="...">` of an article is pointed at the
 * wiki's assets folder, relative to how deep the article sits.
 */
module Assets {
  import opened Wrappers
  import opened Constants
  import opened StrUtils
  import opened FileUtils

  // ----- the pattern <img\s+src="([^"]+)", case-insensitive -----

  /** ASCII lower-casing, as REG_ICASE compares letters. */
  function Lower(c: char): char {
    if 'A' <= c <= 'Z' then (c as int + 32) as char else c
  }

  /** The characters `\s` matches: space, tab, newline, vertical tab, form feed, carriage return. */
  predicate IsSpace(c: char) {
    c == ' ' || c == '\t' || c == '\n' || c == '\r' || c as int == 11 || c as int == 12
  }

  /** `t` holds the lower-case literal `lit` at `i`, ignoring the case of letters. */
  predicate CiAt(t: string, i: nat, lit: string) {
    i + |lit| <= |t| && forall k :: 0 <= k < |lit| ==> Lower(t[i + k]) == lit[k]
  }

  /** The end of the run of white space starting at `j`. */
  function SpaceRun(t: string, j: nat): (k: nat)
    requires j <= |t|
    ensures j <= k <= |t|
    decreases |t| - j
  {
    if j < |t| && IsSpace(t[j]) then SpaceRun(t, j + 1) else j
  }

  /** The run is white space throughout and stops at the end or at a character that is not. */
  lemma {:induction false} SpaceRunSpec(t: string, j: nat)
    requires j <= |t|
    ensures var k := SpaceRun(t, j);
      (k == |t| || !IsSpace(t[k])) && forall m :: j <= m < k ==> IsSpace(t[m])
    decreases |t| - j
  {
    if j < |t| && IsSpace(t[j]) {
      SpaceRunSpec(t, j + 1);
    }
  }

  /** The end of the run of characters other than `"` starting at `j`. */
  function QuoteRun(t: string, j: nat): (k: nat)
    requires j <= |t|
    ensures j <= k <= |t|
    decreases |t| - j
  {
    if j < |t| && t[j] != '"' then QuoteRun(t, j + 1) else j
  }

  /** The run holds no quote and stops at the end or at a quote. */
  lemma {:induction false} QuoteRunSpec(t: string, j: nat)
    requires j <= |t|
    ensures var k := QuoteRun(t, j);
      (k == |t| || t[k] == '"') && '"' !in t[j..k]
    decreases |t| - j
  {
    if j < |t| && t[j] != '"' {
      var k := QuoteRun(t, j + 1);
      QuoteRunSpec(t, j + 1);
      assert t[j..k] == [t[j]] + t[j + 1..k];
    }
  }

  /**
   * The pattern matched at `i`: the span of its group, the image source.
   * `[^"]+` cannot take a quote, so the group is the whole run of
   * non-quotes after `src="`, and it must be followed by one.
   */
  function MatchAt(t: string, i: nat): (r: Option<Span>)
    ensures r.Some? ==> i + 10 <= r.value.begin < r.value.end < |t|
  {
    if !CiAt(t, i, "<img") then None
    else
      var k := SpaceRun(t, i + 4);
      if k == i + 4 || !CiAt(t, k, "src=\"") then None
      else
        var e := QuoteRun(t, k + 5);
        if e == k + 5 || e == |t| then None else Some(Span(k + 5, e))
  }

  /** A match starts with `<img` in any case, and its group is a run of non-quotes closed by a quote. */
  lemma MatchAtSpec(t: string, i: nat)
    ensures MatchAt(t, i).Some? ==> CiAt(t, i, "<img")
    ensures MatchAt(t, i).Some? ==>
      var src := MatchAt(t, i).value;
      t[src.end] == '"' && '"' !in t[src.begin..src.end]
  {
    if CiAt(t, i, "<img") {
      var k := SpaceRun(t, i + 4);
      if k != i + 4 && CiAt(t, k, "src=\"") {
        QuoteRunSpec(t, k + 5);
      }
    }
  }

  /** Where the pattern starts, and the span of its group. */
  datatype ImgMatch = ImgMatch(start: nat, src: Span)

  /** regexec: the leftmost match at or after `from`. */
  function FindImg(t: string, from: nat): (r: Option<ImgMatch>)
    ensures r.Some? ==> from <= r.value.start < |t| && MatchAt(t, r.value.start) == Some(r.value.src)
    decreases |t| - from
  {
    if from >= |t| then None
    else if MatchAt(t, from).Some? then Some(ImgMatch(from, MatchAt(t, from).value))
    else FindImg(t, from + 1)
  }

  /** regexec reports no match only when no position at or after `from` matches. */
  lemma {:induction false} FindImgNone(t: string, from: nat, j: nat)
    requires FindImg(t, from).None? && from <= j < |t|
    ensures MatchAt(t, j).None?
    decreases j - from
  {
    if j > from {
      FindImgNone(t, from + 1, j);
    }
  }

  /** The match regexec reports is the leftmost one: no position before it matches. */
  lemma {:induction false} FindImgLeftmost(t: string, from: nat, j: nat)
    requires FindImg(t, from).Some? && from <= j < FindImg(t, from).value.start
    ensures MatchAt(t, j).None?
    decreases j - from
  {
    if j > from {
      FindImgLeftmost(t, from + 1, j);
    }
  }

  // ----- the rewritten source -----

  /** `n` copies of `s`. */
  function Repeat(s: string, n: nat): string
  {
    if n == 0 then "" else s + Repeat(s, n - 1)
  }

  /** The new image source: one `../` per level of depth plus one, then the assets folder, then the old source. */
  function AssetPath(oldSrc: string, deepness: nat): string
  {
    PathCatOf([Repeat("../", deepness + 1), AssetsRoot, oldSrc])
  }

  /** The page with every image source after the first match rewritten, as the loop of substitute_assets does. */
  function RewriteAssets(t: string, deepness: nat): string
    decreases |t|
  {
    match FindImg(t, 0)
    case None => t
    case Some(m) =>
      t[..m.src.begin] + AssetPath(t[m.src.begin..m.src.end], deepness) + RewriteAssets(t[m.src.end..], deepness)
  }

  /** A character other than a separator survives collapsing and the rest is collapsed on its own. */
  lemma CollapseCons(c: char, z: string)
    requires c != '/' && |z| > 0
    ensures CollapseSlashes([c] + z) == [c] + CollapseSlashes(z)
  {
    assert ([c] + z)[1..] == z;
  }

  /** A separator followed by a separator collapses into the second one. */
  lemma CollapseSlashSlash(z: string)
    requires |z| > 0 && z[0] == '/'
    ensures CollapseSlashes("/" + z) == CollapseSlashes(z)
  {
    assert ("/" + z)[1..] == z;
  }

  /** A separator followed by something else stays in front of the collapsed rest. */
  lemma CollapseSlashCons(z: string)
    requires |z| > 0 && z[0] != '/'
    ensures CollapseSlashes("/" + z) == "/" + CollapseSlashes(z)
  {
    assert ("/" + z)[1..] == z;
  }

  /** A leading `..` survives collapsing. */
  lemma CollapseDotDot(y: string)
    ensures CollapseSlashes("../" + y) == ".." + CollapseSlashes("/" + y)
  {
    assert "../" + y == ['.'] + (['.'] + ("/" + y));
    CollapseCons('.', ['.'] + ("/" + y));
    CollapseCons('.', "/" + y);
  }

  /** Collapsing a run of `../` before a separator keeps the run and drops the extra separators. */
  lemma {:induction false} CollapseBackPath(n: nat, s: string)
    requires n >= 1 && |s| > 0 && s[0] == '/'
    ensures CollapseSlashes(Repeat("../", n) + s) == Repeat("../", n) + CollapseSlashes(s)[1..]
  {
    var y := Repeat("../", n - 1) + s;
    var c := CollapseSlashes(s);
    assert CollapseSlashes(Repeat("../", n) + s) == ".." + CollapseSlashes("/" + y) by {
      assert Repeat("../", n) + s == "../" + y;
      CollapseDotDot(y);
    }
    if n == 1 {
      assert CollapseSlashes("/" + y) == c by {
        assert y == s;
        CollapseSlashSlash(s);
      }
      assert ".." + c == Repeat("../", n) + c[1..] by {
        assert Repeat("../", 1) == "../";
        assert c == "/" + c[1..];
      }
    } else {
      assert CollapseSlashes("/" + y) == "/" + Repeat("../", n - 1) + c[1..] by {
        CollapseSlashCons(y);
        CollapseBackPath(n - 1, s);
      }
      assert ".." + ("/" + Repeat("../", n - 1) + c[1..]) == Repeat("../", n) + c[1..] by {
        assert Repeat("../", n) == "../" + Repeat("../", n - 1);
      }
    }
  }

  /** A name between two separators collapses to the name behind one separator. */
  lemma CollapseName(w: string)
    requires '/' !in w
    ensures CollapseSlashes("//" + w) == "/" + w
  {
    var sw := "/" + w;
    CollapseSlashSlash(sw);
    forall j | 1 <= j < |sw| ensures sw[j] != '/' {
      assert sw[j] == w[j - 1];
    }
    CollapseFixesClean(sw);
  }

  /** A folder name between doubled separators collapses to the name between single ones. */
  lemma CollapseFolder(w: string, oldSrc: string)
    requires |w| > 0 && '/' !in w
    ensures CollapseSlashes("//" + w + "//" + oldSrc) == "/" + w + CollapseSlashes("/" + oldSrc)
  {
    assert "//" + w + "//" + oldSrc == ("//" + w) + ("//" + oldSrc);
    CollapseConcat("//" + w, "//" + oldSrc);
    CollapseName(w);
    CollapseSlashSlash("/" + oldSrc);
  }

  /** The three segments of an asset path, joined. */
  lemma JoinFolderPath(back: string, w: string, oldSrc: string)
    ensures JoinPath([back, "/" + w + "/", oldSrc]) == back + "//" + w + "//" + oldSrc
  {
    var segs := [back, "/" + w + "/", oldSrc];
    assert segs[1..] == ["/" + w + "/", oldSrc] && segs[1..][1..] == [oldSrc];
    assert JoinPath(segs[1..]) == "/" + w + "/" + "/" + oldSrc;
  }

  /** pathcat of the three segments of an asset path collapses their plain concatenation. */
  lemma FolderPathJoined(back: string, w: string, oldSrc: string)
    ensures PathCatOf([back, "/" + w + "/", oldSrc]) == CollapseSlashes(back + ("//" + w + "//" + oldSrc))
  {
    JoinFolderPath(back, w, oldSrc);
    assert back + "//" + w + "//" + oldSrc == back + ("//" + w + "//" + oldSrc);
  }

  /** Concatenation regrouped. */
  lemma Regroup3(a: string, b: string, c: string)
    ensures a + (b + c) == a + b + c
  {
  }

  /** After the leading separator, a collapsed folder and source read as the folder and the collapsed source. */
  lemma FolderTail(w: string, oldSrc: string)
    requires |w| > 0 && '/' !in w
    ensures CollapseSlashes("//" + w + "//" + oldSrc)[1..] == w + CollapseSlashes("/" + oldSrc)
  {
    var c := CollapseSlashes("//" + w + "//" + oldSrc);
    var tail := CollapseSlashes("/" + oldSrc);
    assert c == "/" + (w + tail) by {
      CollapseFolder(w, oldSrc);
      Regroup3("/", w, tail);
    }
  }

  /** `n` times `../`, then a folder, then a source: the separators around the folder collapse to one each. */
  lemma FolderPathShape(n: nat, w: string, oldSrc: string)
    requires n >= 1 && |w| > 0 && '/' !in w
    ensures PathCatOf([Repeat("../", n), "/" + w + "/", oldSrc]) == Repeat("../", n) + w + CollapseSlashes("/" + oldSrc)
  {
    var back := Repeat("../", n);
    var s := "//" + w + "//" + oldSrc;
    var tail := CollapseSlashes("/" + oldSrc);
    FolderPathJoined(back, w, oldSrc);
    CollapseBackPath(n, s);
    FolderTail(w, oldSrc);
    Regroup3(back, w, tail);
  }

  /**
   * The rewritten source is `../` once per level of depth plus once, then
   * `assets`, then the old source behind a single separator.
   */
  lemma AssetPathShape(oldSrc: string, deepness: nat)
    ensures AssetPath(oldSrc, deepness) == Repeat("../", deepness + 1) + "assets" + CollapseSlashes("/" + oldSrc)
  {
    assert AssetsRoot == "/" + "assets" + "/";
    FolderPathShape(deepness + 1, "assets", oldSrc);
  }

  /** A relative source keeps its own name under `assets/`. */
  lemma AssetPathRelative(oldSrc: string, deepness: nat)
    requires |oldSrc| > 0 && oldSrc[0] != '/'
    ensures AssetPath(oldSrc, deepness) == Repeat("../", deepness + 1) + "assets/" + CollapseSlashes(oldSrc)
  {
    AssetPathShape(oldSrc, deepness);
    CollapseSlashCons(oldSrc);
    var back := Repeat("../", deepness + 1);
    assert back + "assets" + ("/" + CollapseSlashes(oldSrc)) == back + "assets/" + CollapseSlashes(oldSrc);
  }

  /** Where the leftmost match is, the rewrite replaces its source and carries on after it. */
  lemma RewriteUnfold(rest: string, m: ImgMatch, deepness: nat)
    requires FindImg(rest, 0) == Some(m)
    ensures m.src.end <= |rest|
    ensures RewriteAssets(rest, deepness) ==
      rest[..m.src.begin] + AssetPath(rest[m.src.begin..m.src.end], deepness) + RewriteAssets(rest[m.src.end..], deepness)
  {
  }

  /** The `../` prefix of substitute_assets: one copy for each level from -1 up to the depth. */
  method BackPath(deepness: nat) returns (backpath: string)
    ensures backpath == Repeat("../", deepness + 1)
  {
    backpath := "";
    for ibp: int := -1 to deepness
      invariant backpath == Repeat("../", ibp + 1)
    {
      backpath := "../" + backpath;
    }
  }

  /** The new source, built by pathcat into a buffer of its own. */
  method NewAssetPath(oldpath: string, deepness: nat) returns (newpath: string)
    ensures newpath == AssetPath(oldpath, deepness)
  {
    var backpath := BackPath(deepness);
    var buf := new char[|JoinPath([backpath, AssetsRoot, oldpath])|];
    var len := PathCat(buf, [backpath, AssetsRoot, oldpath]);
    newpath := buf[..len];
  }

  /**
   * One round of the loop of substitute_assets keeps its invariant: when the
   * rewrite of the text from the cursor on starts with the text before the
   * match and the new source, splicing the new source over the match and
   * moving the cursor past it leaves the same text before the cursor
   * followed by the rewrite of the rest, and the rest shrinks.
   */
  lemma LoopStep(before: string, cursor: nat, b: nat, e: nat, newpath: string, rewritten: string, restRewritten: string,
                 after: string, next: nat)
    requires b < e && cursor + e <= |before|
    requires rewritten == before[cursor..][..b] + newpath + restRewritten
    requires after == Splice(before, Span(cursor + b, cursor + e), newpath)
    requires next == cursor + b + |newpath|
    ensures next <= |after| && |after| - next < |before| - cursor
    ensures after[next..] == before[cursor..][e..]
    ensures before[..cursor] + rewritten == after[..next] + restRewritten
  {
    assert after[..next] == before[..cursor] + before[cursor..][..b] + newpath;
  }

  /**
   * substitute_assets: rewrites every image source of the page in place. The
   * cursor skips past each new source, so rewritten text is never matched again.
   */
  method SubstituteAssets(html: TextBuffer, deepness: nat)
    modifies html
    ensures html.text == RewriteAssets(old(html.text), deepness)
  {
    ghost var orig := html.text;
    var cursor: nat := 0;
    while true
      invariant cursor <= |html.text|
      invariant RewriteAssets(orig, deepness) == html.text[..cursor] + RewriteAssets(html.text[cursor..], deepness)
      decreases |html.text| - cursor
    {
      var found := FindImg(html.text[cursor..], 0);
      if found.None? {
        break;
      }
      var m := found.value;
      var rest := html.text[cursor..];
      RewriteUnfold(rest, m, deepness);
      var newpath := NewAssetPath(rest[m.src.begin..m.src.end], deepness);
      var next := cursor + m.src.begin + |newpath|;
      LoopStep(html.text, cursor, m.src.begin, m.src.end, newpath,
        RewriteAssets(rest, deepness), RewriteAssets(rest[m.src.end..], deepness),
        Splice(html.text, Span(cursor + m.src.begin, cursor + m.src.end), newpath), next);
      html.StrNReplace(Span(cursor + m.src.begin, cursor + m.src.end), newpath);
      cursor := next;
    }
    assert html.text[..cursor] + html.text[cursor..] == html.text;
  }
}
