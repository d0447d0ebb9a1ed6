/**
 * The article index: one entry per file under the wiki's article root, in
 * the order of the sorted directory listing.
 */
module Article {
  import opened Wrappers
  import opened Constants
  import opened FileUtils
  import opened DirSort

  /** An article: its path below the article root, its name and its depth. */
  datatype ArticleEntry = ArticleEntry(path: string, name: string, deepness: nat)

  /** Where the articles live: the article root under the wiki root. */
  function ArticleDir(wikiRoot: string): string
  {
    PathCatOf([wikiRoot, ArticleRoot])
  }

  /** The entry for `fpath`, read after skipping the article directory. */
  function ArticleFromPath(articlePath: string, fpath: string): ArticleEntry
    requires |articlePath| <= |fpath|
  {
    var reldir := fpath[|articlePath|..];
    ArticleEntry(reldir, BaseNameNoExt(reldir), PathDeepness(reldir))
  }

  /**
   * An entry names its file relative to the article directory: the name is
   * the file name without folder or extension, and the depth counts the
   * folders it sits in.
   */
  lemma ArticleFromPathSpec(articlePath: string, fpath: string, a: ArticleEntry)
    requires articlePath <= fpath && a == ArticleFromPath(articlePath, fpath)
    ensures articlePath + a.path == fpath
    ensures '/' !in a.name && '.' !in a.name
    ensures a.name == LastSegment(a.path)[..|a.name|]
    ensures a.deepness == multiset(a.path)['/']
  {
    BaseNameNoExtSpec(a.path);
    assert articlePath + a.path == fpath;
  }

  /** The loop of populate_articles: an entry for every listed path, in order. */
  function ArticlesFrom(articlePath: string, paths: seq<string>): seq<ArticleEntry>
    requires Below(articlePath, paths)
  {
    seq(|paths|, i requires 0 <= i < |paths| => ArticleFromPath(articlePath, paths[i]))
  }

  /** One step of the loop of populate_articles. */
  lemma ArticlesFromStep(articlePath: string, paths: seq<string>, i: nat)
    requires Below(articlePath, paths) && i < |paths|
    ensures Below(articlePath, paths[..i]) && Below(articlePath, paths[..i + 1])
    ensures ArticlesFrom(articlePath, paths[..i + 1]) ==
      ArticlesFrom(articlePath, paths[..i]) + [ArticleFromPath(articlePath, paths[i])]
  {
    BelowPrefix(articlePath, paths, i);
    BelowPrefix(articlePath, paths, i + 1);
    var r := ArticlesFrom(articlePath, paths[..i + 1]);
    var r0 := ArticlesFrom(articlePath, paths[..i]);
    assert |r| == |r0| + 1;
    forall j | 0 <= j < i ensures r[j] == r0[j] {
      assert paths[..i + 1][j] == paths[..i][j];
    }
  }

  /**
   * Since the listing is sorted deeper first and every path starts with the
   * article directory, the index lists deeper articles first.
   */
  lemma ArticlesDeeperFirst(articlePath: string, paths: seq<string>)
    requires Below(articlePath, paths) && SortedDirs(paths)
    requires forall i :: 0 <= i < |paths| ==> articlePath <= paths[i]
    ensures forall i, j :: 0 <= i < j < |paths| ==>
      ArticlesFrom(articlePath, paths)[i].deepness >= ArticlesFrom(articlePath, paths)[j].deepness
  {
    SortedDeeperFirstBelow(articlePath, paths);
    var r := ArticlesFrom(articlePath, paths);
    forall i, j | 0 <= i < j < |paths| ensures r[i].deepness >= r[j].deepness {
      assert r[i].deepness == PathDeepness(paths[i][|articlePath|..]);
    }
  }

  /** The article container together with the wiki root it was initialized with. */
  class ArticleContainer {
    var wikiRoot: string
    var list: seq<ArticleEntry>

    /** initialize_articles: remembers the wiki root and starts empty. */
    constructor Initialize(root: string)
      ensures wikiRoot == root && list == []
    {
      wikiRoot := root;
      list := [];
    }

    /** find_article_i: the entry at `index`, or nothing (the NULL record) past the end. */
    function FindArticleI(index: nat): (r: Option<ArticleEntry>)
      reads this
      ensures r.Some? <==> index < |list|
      ensures r.Some? ==> r.value == list[index]
    {
      if index >= |list| then None else Some(list[index])
    }

    /**
     * populate_articles: a listing error is returned before anything is
     * added; otherwise the listing is sorted and every listed file is added in
     * that order.
     */
    method Populate(listing: Listing) returns (status: Status)
      requires listing.Listed? ==> Below(ArticleDir(wikiRoot), listing.paths)
      modifies this
      ensures wikiRoot == old(wikiRoot)
      ensures listing.ListFailed? ==> status == Failure(listing.error) && list == old(list)
      ensures listing.Listed? ==> Below(ArticleDir(wikiRoot), SortDirs(listing.paths))
      ensures listing.Listed? ==>
        status == Success && list == old(list) + ArticlesFrom(ArticleDir(wikiRoot), SortDirs(listing.paths))
    {
      var articlePath := ArticleDir(wikiRoot);
      if listing.ListFailed? {
        return Failure(listing.error);
      }
      var paths := listing.paths;
      var dirlist := new string[|paths|](i requires 0 <= i < |paths| => paths[i]);
      assert dirlist[..] == paths;
      SortDirList(dirlist);
      BelowSorted(articlePath, paths);
      AddArticles(articlePath, dirlist);
      return Success;
    }

    /** The loop of populate_articles over the sorted listing. */
    method AddArticles(articlePath: string, dirlist: array<string>)
      requires Below(articlePath, dirlist[..])
      modifies this
      ensures wikiRoot == old(wikiRoot)
      ensures list == old(list) + ArticlesFrom(articlePath, dirlist[..])
    {
      var i := 0;
      while i < dirlist.Length
        invariant 0 <= i <= dirlist.Length
        invariant wikiRoot == old(wikiRoot)
        invariant Below(articlePath, dirlist[..i])
        invariant list == old(list) + ArticlesFrom(articlePath, dirlist[..i])
      {
        ArticlesFromStep(articlePath, dirlist[..], i);
        assert dirlist[..][..i] == dirlist[..i] && dirlist[..][..i + 1] == dirlist[..i + 1];
        var article := ArticleFromPath(articlePath, dirlist[i]);
        list := list + [article];
        AppendAssoc(old(list), ArticlesFrom(articlePath, dirlist[..i]), [article]);
        i := i + 1;
      }
      assert dirlist[..i] == dirlist[..];
    }
  }
}
