/**
 * The wiki itself: loading the manifest and the variables file, setting up
 * the template engine and the article index, rendering a page, and the
 * message for each return code.
 */
module Uki {
  import opened Wrappers
  import opened Constants
  import opened StrUtils
  import opened FileUtils
  import opened Config
  import opened TemplateIndex
  import opened DirSort
  import opened Article
  import opened TemplateEngine

  // ----- error messages -----

  const UnknownMessage: string := "Unknown error.\n"

  /** uki_error_msg: the message for a return code, or the unknown-error message. */
  function ErrorMessage(code: int): string
  {
    if code == -11 then "No manifest file found in the provided path.\n"
    else if code == -12 then "No variables file found in the provided path.\n"
    else if code == -13 then "Article not found.\n"
    else if code == -14 then "Template file not found.\n"
    else if code == -15 then "No 'main_template' variable set in the manifest.\n"
    else if code == -17 then "Variable not found.\n"
    else if code == -18 then "Body variable not found in the main template.\n"
    else if code == -21 then "Error occured while parsing an article.\n"
    else if code == -22 then "Error occured while parsing the variables file.\n"
    else if code == -23 then "Error occured while parsing a template file.\n"
    else if code == -24 then "Error occured while reading a template file.\n"
    else if code == -31 then "Couldn't open directory for listing.\n"
    else if code == -32 then "Your filesystem doesn't support dirent->d_type. Sorry.\n"
    else if code == -41 then "String conversion from ASCII to Unicode failed\n"
    else if code == -42 then "String conversion from Unicode to ASCII failed\n"
    else if code == 0 then "General error.\n"
    else UnknownMessage
  }

  /** The failures uki_error_msg has a message of its own for. */
  predicate HasMessage(e: Error) {
    !e.IndexNotFound? && !e.RegexAssetImage?
  }

  /**
   * Every failure except the index and asset-regex ones gets its own message;
   * those two, like any integer that is no failure code, get the unknown-error
   * message.
   */
  lemma ErrorMessageKnown(e: Error)
    ensures HasMessage(e) <==> ErrorMessage(Code(e)) != UnknownMessage
  {
  }

  /** Integers that are no failure code, `UKI_OK` among them, get the unknown-error message. */
  lemma ErrorMessageUnknown(code: int)
    requires forall e: Error :: Code(e) != code
    ensures ErrorMessage(code) == UnknownMessage
  {
    assert Code(General) != code && Code(NoManifest) != code && Code(NoVariables) != code;
    assert Code(NoArticle) != code && Code(NoTemplate) != code && Code(NoMainTemplate) != code;
    assert Code(VariableNotFound) != code && Code(BodyVarNotFound) != code;
    assert Code(ParsingArticle) != code && Code(ParsingVariables) != code;
    assert Code(ParsingTemplate) != code && Code(ReadingTemplate) != code;
    assert Code(DirListNotFound) != code && Code(DirListFileUnknown) != code;
    assert Code(ConversionAW) != code && Code(ConversionWA) != code;
  }

  // ----- variable containers -----

  /** What loading a variables file yields: its entries, or the failure code. */
  datatype Load = Loaded(vars: seq<Variable>) | LoadFailed(error: Error, partial: seq<Variable>)

  /**
   * populate_variable_container: the file `<root><fname>` must exist; it is
   * then read and parsed, and a file that cannot be read or does not parse is
   * a parsing failure. `partial` keeps what was read before the bad line.
   */
  function LoadVariables(root: string, fname: string, fs: FileSystem): (r: Load)
  {
    var path := PathCatOf([root, fname]);
    if path !in fs then LoadFailed(NoVariables, [])
    else if fs[path].None? then LoadFailed(ParsingVariables, [])
    else
      var parsed := ParseLines(Lines(fs[path].value));
      if parsed.ok then Loaded(parsed.vars) else LoadFailed(ParsingVariables, parsed.vars)
  }

  /** A variables file written from well-formed variables loads back to exactly those variables. */
  lemma LoadFormatted(root: string, fname: string, fs: FileSystem, vars: seq<Variable>)
    requires forall i :: 0 <= i < |vars| ==> Writable(vars[i])
    requires PathCatOf([root, fname]) in fs && fs[PathCatOf([root, fname])] == Some(FormatFile(vars))
    ensures LoadVariables(root, fname, fs) == Loaded(vars)
  {
    FormatFileRoundTrip(vars);
  }

  /** Loading fails with exactly the two codes populate_variable_container returns. */
  lemma LoadErrors(root: string, fname: string, fs: FileSystem)
    ensures LoadVariables(root, fname, fs).LoadFailed? ==>
      LoadVariables(root, fname, fs).error in {NoVariables, ParsingVariables}
    ensures LoadVariables(root, fname, fs).LoadFailed? && LoadVariables(root, fname, fs).error == NoVariables <==>
      PathCatOf([root, fname]) !in fs
  {
  }

  /**
   * populate_variable_container: a missing file is reported before the
   * container is touched; otherwise the container is emptied and filled from
   * the file.
   */
  method PopulateVariableContainer(root: string, fname: string, fs: FileSystem, container: VariableContainer)
    returns (status: Status)
    modifies container
    ensures PathCatOf([root, fname]) !in fs ==>
      status == Failure(NoVariables) && container.list == old(container.list)
    ensures LoadVariables(root, fname, fs).Loaded? ==>
      status == Success && container.list == LoadVariables(root, fname, fs).vars
    ensures PathCatOf([root, fname]) in fs && LoadVariables(root, fname, fs).LoadFailed? ==>
      status == Failure(LoadVariables(root, fname, fs).error) && container.list == LoadVariables(root, fname, fs).partial
  {
    var varPath := PathCatOf([root, fname]);
    if varPath !in fs {
      return Failure(NoVariables);
    }
    container.Initialize();
    var ok := container.Populate(fs[varPath]);
    if !ok {
      return Failure(ParsingVariables);
    }
    return Success;
  }

  // ----- rendering a page -----

  /** The article file of a page: `<root>/pages/<page>.html`. */
  function ArticleFile(root: string, page: string): string
  {
    ExtCatOf(PathCatOf([root, ArticleRoot, page]), ArticleExt)
  }

  /**
   * uki_render_page: the manifest must name a main template; it is rendered,
   * the page's article is placed at its body tag, and the variables are
   * substituted last. The first failure is the result.
   */
  function RenderPageText(root: string, configs: seq<Variable>, vars: seq<Variable>, fs: FileSystem,
                          page: string, fuel: nat): Outcome
  {
    var idx := FirstKeyIndex(configs, MainTemplateKey);
    if idx < 0 then Failed(NoMainTemplate)
    else match RenderTemplateText(root, fs, configs[idx].value, fuel)
      case Failed(e) => Failed(e)
      case Exhausted => Exhausted
      case Done(filled) =>
        match InjectArticle(filled, fs, ArticleFile(root, page))
        case Failed(e) => Failed(e)
        case Exhausted => Exhausted
        case Done(withBody) => SubstituteVariables(vars, withBody, fuel)
  }

  /**
   * A rendered page comes from the first `main_template` entry of the
   * manifest, whose template rendered and whose article exists and is
   * readable, and it holds no variable tag any more.
   */
  lemma RenderPageSound(root: string, configs: seq<Variable>, vars: seq<Variable>, fs: FileSystem,
                        page: string, fuel: nat, r: string)
    requires RenderPageText(root, configs, vars, fs, page, fuel) == Done(r)
    ensures FirstKeyIndex(configs, MainTemplateKey) >= 0
    ensures RenderTemplateText(root, fs, configs[FirstKeyIndex(configs, MainTemplateKey)].value, fuel).Done?
    ensures ArticleFile(root, page) in fs && fs[ArticleFile(root, page)].Some?
    ensures ScanTag(r, '%', '%') == NoTag
  {
    var idx := FirstKeyIndex(configs, MainTemplateKey);
    var filled := RenderTemplateText(root, fs, configs[idx].value, fuel).text;
    var withBody := InjectArticle(filled, fs, ArticleFile(root, page)).text;
    SubstituteDoneHasNoTag(vars, withBody, fuel);
  }

  /** The failures are checked in order: main template, then template, then article, then variables. */
  lemma RenderPageFailureOrder(root: string, configs: seq<Variable>, vars: seq<Variable>, fs: FileSystem,
                               page: string, fuel: nat)
    ensures FirstKeyIndex(configs, MainTemplateKey) < 0 ==>
      RenderPageText(root, configs, vars, fs, page, fuel) == Failed(NoMainTemplate)
    ensures (FirstKeyIndex(configs, MainTemplateKey) >= 0 &&
      RenderTemplateText(root, fs, configs[FirstKeyIndex(configs, MainTemplateKey)].value, fuel).Done? &&
      ArticleFile(root, page) !in fs) ==>
      RenderPageText(root, configs, vars, fs, page, fuel) == Failed(NoArticle)
  {
  }

  /** A page fails only with the codes its steps return, and each of them has a message. */
  lemma RenderPageErrors(root: string, configs: seq<Variable>, vars: seq<Variable>, fs: FileSystem,
                         page: string, fuel: nat)
    ensures RenderPageText(root, configs, vars, fs, page, fuel).Failed? ==>
      RenderPageText(root, configs, vars, fs, page, fuel).error in
        {NoMainTemplate, NoTemplate, ReadingTemplate, ParsingTemplate, NoArticle, BodyVarNotFound,
         ParsingArticle, VariableNotFound} &&
      HasMessage(RenderPageText(root, configs, vars, fs, page, fuel).error)
  {
    var idx := FirstKeyIndex(configs, MainTemplateKey);
    if idx >= 0 {
      var o := RenderTemplateText(root, fs, configs[idx].value, fuel);
      RenderErrors(root, fs, configs[idx].value, fuel);
      if o.Done? {
        var a := InjectArticle(o.text, fs, ArticleFile(root, page));
        if a.Done? {
          SubstituteErrors(vars, a.text, fuel);
        }
      }
    }
  }

  /** Once a page renders within some fuel, more fuel yields the same page. */
  lemma RenderPageFuelMonotone(root: string, configs: seq<Variable>, vars: seq<Variable>, fs: FileSystem,
                               page: string, fuel: nat, more: nat)
    requires fuel <= more && !RenderPageText(root, configs, vars, fs, page, fuel).Exhausted?
    ensures RenderPageText(root, configs, vars, fs, page, more) == RenderPageText(root, configs, vars, fs, page, fuel)
  {
    var idx := FirstKeyIndex(configs, MainTemplateKey);
    if idx >= 0 {
      var o := RenderTemplateText(root, fs, configs[idx].value, fuel);
      RenderFuelMonotone(root, fs, configs[idx].value, fuel, more);
      if o.Done? {
        var a := InjectArticle(o.text, fs, ArticleFile(root, page));
        if a.Done? {
          SubstituteFuelMonotone(vars, a.text, fuel, more);
        }
      }
    }
  }

  // ----- the wiki -----

  /** The library's state: the wiki root, both variable containers, the template engine and the articles. */
  class Wiki {
    var root: string
    var configs: VariableContainer
    var variables: VariableContainer
    var templates: TemplateContainer
    var articles: ArticleContainer

    /** The state before initialization: empty containers and no root. */
    constructor ()
      ensures root == "" && configs.list == [] && variables.list == []
      ensures templates.list == [] && articles.list == []
      ensures configs != variables
    {
      root := "";
      configs := new VariableContainer();
      variables := new VariableContainer();
      templates := new TemplateContainer.Initialize("");
      articles := new ArticleContainer.Initialize("");
    }

    /**
     * uki_initialize: keeps the wiki root, loads the manifest and then the
     * variables into their containers (stopping at the first failure), sets
     * up the template engine and indexes the articles. A missing file leaves
     * its container as it was. `listing` is the listing of the article
     * directory; an error from it is ignored, as the source ignores it.
     */
    method Initialize(wikiPath: string, fs: FileSystem, listing: Listing) returns (status: Status)
      requires configs != variables
      requires listing.Listed? ==> Below(ArticleDir(wikiPath), listing.paths)
      modifies this, configs, variables
      ensures root == wikiPath && configs == old(configs) && variables == old(variables)
      ensures listing.Listed? ==> Below(ArticleDir(wikiPath), SortDirs(listing.paths))
      // the manifest
      ensures LoadVariables(wikiPath, ManifestPath, fs).LoadFailed? ==>
        status == Failure(LoadVariables(wikiPath, ManifestPath, fs).error) &&
        variables.list == old(variables.list)
      ensures PathCatOf([wikiPath, ManifestPath]) !in fs ==> configs.list == old(configs.list)
      ensures PathCatOf([wikiPath, ManifestPath]) in fs && LoadVariables(wikiPath, ManifestPath, fs).LoadFailed? ==>
        configs.list == LoadVariables(wikiPath, ManifestPath, fs).partial
      ensures LoadVariables(wikiPath, ManifestPath, fs).Loaded? ==>
        configs.list == LoadVariables(wikiPath, ManifestPath, fs).vars
      // the variables file, read only after the manifest loaded
      ensures (LoadVariables(wikiPath, ManifestPath, fs).Loaded? &&
        LoadVariables(wikiPath, VariablePath, fs).LoadFailed?) ==>
        status == Failure(LoadVariables(wikiPath, VariablePath, fs).error)
      ensures (LoadVariables(wikiPath, ManifestPath, fs).Loaded? &&
        PathCatOf([wikiPath, VariablePath]) !in fs) ==> variables.list == old(variables.list)
      ensures (LoadVariables(wikiPath, ManifestPath, fs).Loaded? &&
        PathCatOf([wikiPath, VariablePath]) in fs && LoadVariables(wikiPath, VariablePath, fs).LoadFailed?) ==>
        variables.list == LoadVariables(wikiPath, VariablePath, fs).partial
      // templates and articles are set up only after both files loaded
      ensures status != Success ==> templates == old(templates) && articles == old(articles)
      ensures status == Success <==>
        LoadVariables(wikiPath, ManifestPath, fs).Loaded? && LoadVariables(wikiPath, VariablePath, fs).Loaded?
      ensures status == Success ==>
        variables.list == LoadVariables(wikiPath, VariablePath, fs).vars &&
        fresh(templates) && templates.templatePath == TemplateDir(wikiPath) && templates.list == [] &&
        fresh(articles) && articles.wikiRoot == wikiPath &&
        articles.list == (if listing.Listed? then ArticlesFrom(ArticleDir(wikiPath), SortDirs(listing.paths)) else [])
    {
      root := wikiPath;
      if listing.Listed? {
        BelowSorted(ArticleDir(wikiPath), listing.paths);
      }
      var err := PopulateVariableContainer(root, ManifestPath, fs, configs);
      if err != Success {
        return err;
      }
      err := PopulateVariableContainer(root, VariablePath, fs, variables);
      if err != Success {
        return err;
      }
      templates := new TemplateContainer.Initialize(root);
      articles := new ArticleContainer.Initialize(root);
      var _ := articles.Populate(listing);
      return Success;
    }

    /** uki_config: the manifest entry at `index` (an 8-bit index), or nothing. */
    function Config(index: nat): (r: Option<Variable>)
      requires index < 256
      reads this, configs
      ensures r.Some? <==> index < |configs.list|
      ensures r.Some? ==> r.value == configs.list[index]
    {
      configs.FindVariableI(index)
    }

    /** uki_variable: the variables-file entry at `index` (an 8-bit index), or nothing. */
    function Variable(index: nat): (r: Option<Config.Variable>)
      requires index < 256
      reads this, variables
      ensures r.Some? <==> index < |variables.list|
      ensures r.Some? ==> r.value == variables.list[index]
    {
      variables.FindVariableI(index)
    }

    /** uki_article: the article entry at `index`, or nothing. */
    function ArticleAt(index: nat): (r: Option<ArticleEntry>)
      reads this, articles
      ensures r.Some? <==> index < |articles.list|
      ensures r.Some? ==> r.value == articles.list[index]
    {
      articles.FindArticleI(index)
    }

    /**
     * uki_render_page: looks up the main template in the manifest, renders
     * it into a new buffer, places the page's article and substitutes the
     * variables there.
     */
    method RenderPage(fs: FileSystem, page: string, fuel: nat) returns (status: Status, rendered: TextBuffer)
      ensures fresh(rendered)
      ensures status == StatusOf(RenderPageText(root, configs.list, variables.list, fs, page, fuel))
      ensures status == Success ==>
        rendered.text == RenderPageText(root, configs.list, variables.list, fs, page, fuel).text
    {
      var idx := configs.FindVariable(MainTemplateKey);
      if idx < 0 {
        rendered := new TextBuffer("");
        return Failure(NoMainTemplate), rendered;
      }
      status, rendered := RenderTemplate(root, fs, configs.list[idx].value, fuel);
      if status != Success {
        return;
      }
      var articlePath := ArticleFile(root, page);
      status := RenderArticleInTemplate(rendered, fs, articlePath);
      if status != Success {
        return;
      }
      status := RenderVariables(rendered, variables, fuel);
    }
  }
}
