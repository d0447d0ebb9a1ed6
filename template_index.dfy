/**
 * The template index: one entry per template file under the wiki's template
 * root, in the order of the sorted directory listing.
 */
module TemplateIndex {
  import opened Wrappers
  import opened Constants
  import opened FileUtils
  import opened DirSort

  /** A template: its path below the template root, its name, its parent folder and its depth. */
  datatype TemplateEntry = TemplateEntry(path: string, name: string, parent: Option<string>, deepness: nat)

  /** Where the templates live: the template root under the wiki root. */
  function TemplateDir(wikiRoot: string): string
  {
    PathCatOf([wikiRoot, TemplateRoot])
  }

  /**
   * populate_template_from_path: the entry for `fpath`, read after skipping
   * the template directory. Only a path at some depth has a parent.
   */
  function TemplateFromPath(templatePath: string, fpath: string): TemplateEntry
    requires |templatePath| <= |fpath|
  {
    var reldir := fpath[|templatePath|..];
    var deepness := PathDeepness(reldir);
    TemplateEntry(reldir, BaseNameNoExt(reldir), if deepness > 0 then ParentDir(reldir) else None, deepness)
  }

  /**
   * An entry names its file relative to the template directory: the name has
   * no folder or extension, the depth counts the folders, and a template has
   * a parent folder exactly when it sits in a folder.
   */
  lemma TemplateFromPathSpec(templatePath: string, fpath: string, t: TemplateEntry)
    requires templatePath <= fpath && t == TemplateFromPath(templatePath, fpath)
    requires |fpath| == |templatePath| || fpath[|templatePath|] != '/'
    ensures templatePath + t.path == fpath
    ensures '/' !in t.name && '.' !in t.name
    ensures t.deepness == multiset(t.path)['/']
    ensures t.parent.None? <==> t.deepness == 0
    ensures t.parent.Some? ==> '/' !in t.parent.value
  {
    BaseNameNoExtSpec(t.path);
    ParentDirSpec(t.path);
    assert templatePath + t.path == fpath;
    if t.deepness == 0 {
      assert '/' !in t.path;
    } else {
      assert '/' in t.path;
      assert |t.path| > 0 && t.path[0] == fpath[|templatePath|];
    }
  }

  /** The loop of populate_templates: an entry for each listed path with the template extension, in order. */
  function TemplatesFrom(templatePath: string, paths: seq<string>): seq<TemplateEntry>
    requires Below(templatePath, paths)
  {
    if paths == [] then []
    else
      var last := paths[|paths| - 1];
      TemplatesFrom(templatePath, paths[..|paths| - 1]) +
      (if FileExtMatch(last, TemplateExt) then [TemplateFromPath(templatePath, last)] else [])
  }

  /** Every entry comes from a listed path that has the template extension. */
  lemma {:induction false} TemplatesFromOrigin(templatePath: string, paths: seq<string>, j: nat)
    requires Below(templatePath, paths) && j < |TemplatesFrom(templatePath, paths)|
    ensures exists k :: (0 <= k < |paths| && FileExtMatch(paths[k], TemplateExt) &&
      TemplatesFrom(templatePath, paths)[j] == TemplateFromPath(templatePath, paths[k]))
    decreases |paths|
  {
    var init := paths[..|paths| - 1];
    var r := TemplatesFrom(templatePath, paths);
    if j < |TemplatesFrom(templatePath, init)| {
      TemplatesFromOrigin(templatePath, init, j);
      var k :| 0 <= k < |init| && FileExtMatch(init[k], TemplateExt) &&
        TemplatesFrom(templatePath, init)[j] == TemplateFromPath(templatePath, init[k]);
      assert r[j] == TemplatesFrom(templatePath, init)[j];
      assert paths[k] == init[k];
    } else {
      assert r[j] == TemplateFromPath(templatePath, paths[|paths| - 1]);
    }
  }

  /** A listed path with the template extension gets an entry. */
  lemma {:induction false} TemplatesFromComplete(templatePath: string, paths: seq<string>, k: nat)
    requires Below(templatePath, paths) && k < |paths| && FileExtMatch(paths[k], TemplateExt)
    ensures TemplateFromPath(templatePath, paths[k]) in TemplatesFrom(templatePath, paths)
    decreases |paths|
  {
    var init := paths[..|paths| - 1];
    if k < |paths| - 1 {
      assert init[k] == paths[k];
      TemplatesFromComplete(templatePath, init, k);
    }
  }

  /** Entries listed deeper first. */
  predicate DeeperFirstEntries(r: seq<TemplateEntry>) {
    forall i, j :: 0 <= i < j < |r| ==> r[i].deepness >= r[j].deepness
  }

  /**
   * Since the listing is sorted deeper first and every path starts with the
   * template directory, the index lists deeper templates first.
   */
  lemma TemplatesDeeperFirst(templatePath: string, paths: seq<string>)
    requires Below(templatePath, paths) && SortedDirs(paths)
    requires forall i :: 0 <= i < |paths| ==> templatePath <= paths[i]
    ensures DeeperFirstEntries(TemplatesFrom(templatePath, paths))
  {
    SortedDeeperFirstBelow(templatePath, paths);
    DeeperFirstTemplates(templatePath, paths);
  }

  /** The entries keep the depth order of the paths they come from. */
  lemma {:induction false} DeeperFirstTemplates(templatePath: string, paths: seq<string>)
    requires Below(templatePath, paths) && DeeperFirstBelow(templatePath, paths)
    ensures DeeperFirstEntries(TemplatesFrom(templatePath, paths))
    decreases |paths|
  {
    if paths != [] {
      var n := |paths| - 1;
      TemplatesFromStep(templatePath, paths, n);
      assert paths[..n + 1] == paths;
      DeeperFirstBelowPrefix(templatePath, paths, n);
      DeeperFirstTemplates(templatePath, paths[..n]);
      if FileExtMatch(paths[n], TemplateExt) {
        var last := TemplateFromPath(templatePath, paths[n]);
        TemplatesDepthBound(templatePath, paths[..n], last.deepness);
        DeeperFirstSnoc(TemplatesFrom(templatePath, paths[..n]), last);
      }
    }
  }

  /** Appending an entry no deeper than all before it keeps the depth order. */
  lemma DeeperFirstSnoc(r0: seq<TemplateEntry>, last: TemplateEntry)
    requires DeeperFirstEntries(r0)
    requires forall i :: 0 <= i < |r0| ==> r0[i].deepness >= last.deepness
    ensures DeeperFirstEntries(r0 + [last])
  {
    var r := r0 + [last];
    forall i, j | 0 <= i < j < |r| ensures r[i].deepness >= r[j].deepness {
      if j < |r0| {
        assert r[i] == r0[i] && r[j] == r0[j];
      } else {
        assert r[i] == r0[i] && r[j] == last;
      }
    }
  }

  /** When every path lies at least `bound` deep below the directory, so does every entry. */
  lemma {:induction false} TemplatesDepthBound(templatePath: string, paths: seq<string>, bound: nat)
    requires Below(templatePath, paths)
    requires forall k :: 0 <= k < |paths| ==> PathDeepness(paths[k][|templatePath|..]) >= bound
    ensures forall i :: 0 <= i < |TemplatesFrom(templatePath, paths)| ==> TemplatesFrom(templatePath, paths)[i].deepness >= bound
    decreases |paths|
  {
    if paths != [] {
      var n := |paths| - 1;
      TemplatesFromStep(templatePath, paths, n);
      assert paths[..n + 1] == paths;
      assert forall k :: 0 <= k < n ==> PathDeepness(paths[..n][k][|templatePath|..]) >= bound by {
        forall k | 0 <= k < n ensures PathDeepness(paths[..n][k][|templatePath|..]) >= bound {
          assert paths[..n][k] == paths[k];
        }
      }
      TemplatesDepthBound(templatePath, paths[..n], bound);
    }
  }

  /** One step of the loop of populate_templates. */
  lemma TemplatesFromStep(templatePath: string, paths: seq<string>, i: nat)
    requires Below(templatePath, paths) && i < |paths|
    ensures Below(templatePath, paths[..i]) && Below(templatePath, paths[..i + 1])
    ensures TemplatesFrom(templatePath, paths[..i + 1]) ==
      TemplatesFrom(templatePath, paths[..i]) +
      (if FileExtMatch(paths[i], TemplateExt) then [TemplateFromPath(templatePath, paths[i])] else [])
  {
    BelowPrefix(templatePath, paths, i);
    BelowPrefix(templatePath, paths, i + 1);
    assert paths[..i + 1][..i] == paths[..i];
  }

  /** The template container together with the engine's template directory. */
  class TemplateContainer {
    var wikiRoot: string
    var templatePath: string
    var list: seq<TemplateEntry>

    /** initialize_templating: remembers the wiki root, builds the template directory, starts empty. */
    constructor Initialize(root: string)
      ensures wikiRoot == root && templatePath == TemplateDir(root) && list == []
    {
      wikiRoot := root;
      templatePath := TemplateDir(root);
      list := [];
    }

    /** find_template_i: the entry at `index`, or nothing (the NULL record) past the end. */
    function FindTemplateI(index: nat): (r: Option<TemplateEntry>)
      reads this
      ensures r.Some? <==> index < |list|
      ensures r.Some? ==> r.value == list[index]
    {
      if index >= |list| then None else Some(list[index])
    }

    /** push_template: appends one entry. */
    method Push(t: TemplateEntry)
      modifies this
      ensures list == old(list) + [t]
      ensures wikiRoot == old(wikiRoot) && templatePath == old(templatePath)
    {
      list := list + [t];
    }

    /** add_template: builds the entry for `fpath`, appends it and returns it. */
    method Add(fpath: string) returns (t: TemplateEntry)
      requires |templatePath| <= |fpath|
      modifies this
      ensures wikiRoot == old(wikiRoot) && templatePath == old(templatePath)
      ensures t == TemplateFromPath(templatePath, fpath)
      ensures list == old(list) + [t]
    {
      t := TemplateFromPath(templatePath, fpath);
      Push(t);
    }

    /**
     * populate_templates: a listing error is returned before anything is
     * added; otherwise the listing is sorted and each template file in it is
     * added in that order.
     */
    method Populate(listing: Listing) returns (status: Status)
      requires listing.Listed? ==> Below(templatePath, listing.paths)
      modifies this
      ensures listing.ListFailed? ==> status == Failure(listing.error) && list == old(list)
      ensures listing.Listed? ==> Below(templatePath, SortDirs(listing.paths))
      ensures listing.Listed? ==>
        status == Success && list == old(list) + TemplatesFrom(templatePath, SortDirs(listing.paths))
      ensures wikiRoot == old(wikiRoot) && templatePath == old(templatePath)
    {
      if listing.ListFailed? {
        return Failure(listing.error);
      }
      var paths := listing.paths;
      var dirlist := new string[|paths|](i requires 0 <= i < |paths| => paths[i]);
      assert dirlist[..] == paths;
      SortDirList(dirlist);
      BelowSorted(templatePath, paths);
      AddTemplates(dirlist);
      return Success;
    }

    /** The loop of populate_templates over the sorted listing: adds each template file in order. */
    method AddTemplates(dirlist: array<string>)
      requires Below(templatePath, dirlist[..])
      modifies this
      ensures wikiRoot == old(wikiRoot) && templatePath == old(templatePath)
      ensures list == old(list) + TemplatesFrom(templatePath, dirlist[..])
    {
      var i := 0;
      while i < dirlist.Length
        invariant 0 <= i <= dirlist.Length
        invariant wikiRoot == old(wikiRoot) && templatePath == old(templatePath)
        invariant Below(templatePath, dirlist[..i])
        invariant list == old(list) + TemplatesFrom(templatePath, dirlist[..i])
      {
        TemplatesFromStep(templatePath, dirlist[..], i);
        assert dirlist[..][..i] == dirlist[..i] && dirlist[..][..i + 1] == dirlist[..i + 1];
        if FileExtMatch(dirlist[i], TemplateExt) {
          var t := Add(dirlist[i]);
          AppendAssoc(old(list), TemplatesFrom(templatePath, dirlist[..i]), [t]);
        }
        i := i + 1;
      }
      assert dirlist[..i] == dirlist[..];
    }
  }
}
