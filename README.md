# libuki in Dafny

A model of the core of libuki, a small C library behind a personal wiki.
A wiki is a folder that holds:

- a manifest (`/MANIFEST.uki`) and a variables file (`/VARIABLES.uki`), both made of `key=value` lines;
- HTML templates under `/templates/`;
- articles under `/pages/`;
- assets under `/assets/`.

To render a page, the library works in this order:

1. It looks up the `main_template` entry of the manifest.
2. It renders that template, replacing every `[name]` tag with the rendered template file of that name.
3. It places the article at the `%_body_%` tag.
4. It substitutes every `%name%` tag with the value of that variable.

All of this happens in heap buffers that are spliced in place.

The model keeps the source's own structure:

| module | models |
|---|---|
| `StrUtils` | `strutils.c`; the in-place buffer is the class `TextBuffer` |
| `FileUtils` | the path arithmetic of `fileutils.c`, with array-based methods for the `char[]` routines |
| `DirSort` | the comparator of `fileutils.c` and the sorted listing it yields |
| `Assets` | `substitute_assets` |
| `Config` | `config.c`; the class `VariableContainer` |
| `TemplateIndex`, `TemplateEngine` | `template.c`; the class `TemplateContainer` |
| `Article` | `article.c`; the class `ArticleContainer` |
| `Uki` | `uki.c`; the class `Wiki` holds the module's globals |
| `Constants` | the return codes and fixed paths of `constants.h` |

The model uses these conventions:

- **Files.** The filesystem is a parameter, a map from path to contents. A present key is a file that exists. A value of `None` is a file that cannot be read.
- **Listings.** A directory listing is a parameter too. It may be a failure code.
- **Status codes.** Every status code of the source is a value of `Error`, and `Constants.Code` gives its integer.
- **Fuel.** Rendering recurses through templates with no bound in the source. The model's rendering functions therefore take a `fuel` bound.
  - `Exhausted` (`FuelOut` for methods) means the bound ran out, where the source would keep recursing.
  - `TemplateEngine.SelfReferenceDiverges` shows that this really happens for a self-referencing template.
  - The `FuelMonotone` lemmas show that the bound never changes a result it lets finish.

### Where the header files and the code disagree, the model follows the code

- `uki.c` includes `uki.h`, where the article and template extension is `"html"`. `template.c` includes `constants.h`, where both are `"htm"`. So template files are `<name>.htm` (`TemplateExt`), and the page renderer looks for `<page>.html` (`ArticleExt`).
- `uki.c` calls `render_article(rendered, path)`, which `template.h` declares. `template.c` defines the same operation as `render_article_in_template`, and the model uses that definition.
- `uki.c` calls `initialize_templating(wiki_root)` with one argument, but `template.c` takes a container as well. The model gives the engine a fresh container. `uki_initialize` never populates the template container, and neither does the model.
- The status of `populate_articles` is ignored by `uki_initialize`, and by the model too.
- The missing-manifest case returns `UKI_ERROR_NOVARIABLES`, because `populate_variable_container` returns that for either file. `UKI_ERROR_NOMANIFEST` is never returned.
- A template file that exists but is empty renders as the empty text. The source only fails when the read gives no buffer at all.
- A text that starts with `[` (or `%` for variables) makes `sscanf` fail to match, so the result is a parsing failure, not "no tag".
- The rewritten asset path starts with `../` repeated depth + 1 times, because the loop starts at -1.

## Model

| member | source | states |
|---|---|---|
| Constants.Code | src/constants.h:13-32 | every failure has its own integer code, never `UKI_OK`, and never positive |
| Constants.CodeInjective | src/constants.h:14-32 | two failures have the same code only when they are the same failure |
| StrUtils.SearchFromSpec | src/strutils.c:67-82 | the search finds the first occurrence at or after a start position, and finds nothing only when there is none |
| StrUtils.FirstOccurrenceSpec | src/strutils.c:72 | strstr finds the first occurrence of the needle, and finds nothing only when the needle does not occur |
| StrUtils.SubstPos | src/strutils.c:67-82 | strsubstpos always reports a span inside the text |
| StrUtils.SubstPosSpec | src/strutils.c:67-82 | the span covers the first occurrence exactly, or is `(0,0)` when the needle does not occur |
| StrUtils.SpliceSpec | src/strutils.c:18-41 | strnreplace keeps the text before the span and after it verbatim, with the substitute in between; the length changes by the difference |
| StrUtils.ReplaceFirstPresent | src/strutils.c:50-58 | when the needle occurs, only its first occurrence is replaced and later ones are kept |
| StrUtils.ReplaceFirstAbsent | src/strutils.c:50-58 | when the needle does not occur, the `(0,0)` span makes strsreplace prepend the substitute |
| StrUtils.TextBuffer.StrNReplace | src/strutils.c:18-41 | the buffer becomes the splice of its old text |
| StrUtils.TextBuffer.StrSReplace | src/strutils.c:50-58 | the buffer becomes its old text with the first occurrence of the needle replaced |
| FileUtils.PathDeepness | src/fileutils.c:629-643 | path_deepness is the number of `/` characters in the path |
| FileUtils.DeepnessAppend | src/fileutils.c:629-643 | depth adds up over concatenation |
| FileUtils.IndexOf | src/fileutils.c:200-205 | the first index of a character, with none before it, and nothing only when it is absent: where the copy of basename_noext stops at a `.`, and likewise where getline ends a line (src/config.c:47) and where `%*[^open]` stops |
| FileUtils.LastIndexOf | src/fileutils.c:174-213 | the last index of a character, with none after it; nothing only when it is absent |
| FileUtils.LastIndexOfAt | src/fileutils.c:174-213 | the last occurrence is the only one with no later occurrence |
| FileUtils.CollapseSlashes | src/fileutils.c:269-299 | collapsing never lengthens a path and keeps its first character |
| FileUtils.CollapseIsClean | src/fileutils.c:269-299 | after cleanup_path no two separators are adjacent |
| FileUtils.CollapseFixesClean | src/fileutils.c:269-299 | a path without `//` is left unchanged |
| FileUtils.CollapseIdempotent | src/fileutils.c:269-299 | cleaning a cleaned path changes nothing |
| FileUtils.CollapseDropPair | src/fileutils.c:281-295 | one shift of the cleanup loop, which drops one slash of a `//`, does not change the final result |
| FileUtils.CollapseConcat | src/fileutils.c:269-299 | cleaning distributes over a concatenation that does not join two separators |
| FileUtils.NoPairMeansClean | src/fileutils.c:275 | strstr finding no `//` means the path is clean |
| FileUtils.CleanupPath | src/fileutils.c:269-299 | the in-place loop leaves the collapsed path in the buffer and never lengthens it |
| FileUtils.PathCatOf | src/fileutils.c:225-246 | the result of pathcat is clean and no longer than the joined segments |
| FileUtils.Append | src/fileutils.c:236-242 | strncat appends the segment to what the buffer already held |
| FileUtils.PathCatStep | src/fileutils.c:234-243 | one round of the pathcat loop: a segment, then a separator unless it is the last |
| FileUtils.PathCat | src/fileutils.c:225-246 | pathcat writes the segments joined by separators and then cleaned into the buffer, and returns the length |
| FileUtils.ExtCat | src/fileutils.c:255-261 | extcat appends `.` and the extension and returns the new length |
| FileUtils.LastSegmentSpec | src/fileutils.c:174-213 | the last segment is a separator-free suffix that starts the path or follows a separator |
| FileUtils.LastSegmentFrom | src/fileutils.c:174-213 | any such suffix is the last segment |
| FileUtils.UpToDotFrom | src/fileutils.c:200-209 | a dot-free prefix that stops at the end or at a `.` is what the copy keeps |
| FileUtils.UpToDotLongest | src/fileutils.c:200-209 | every dot-free prefix fits in what the copy keeps |
| FileUtils.BaseNameNoExtSpec | src/fileutils.c:174-213 | the base name has no separator and no dot, and is the last segment up to its first dot |
| FileUtils.BaseNameNoExtFrom | src/fileutils.c:174-213 | a dot-free prefix of the last segment ending at a dot or at the end is the base name |
| FileUtils.BaseNameNoExtLongest | src/fileutils.c:174-213 | every dot-free prefix of the last segment fits in the base name |
| FileUtils.ScanLastSlash | src/fileutils.c:180-187 | the forward pointer loop, remembering each separator it passes, ends on the last separator of the range, or reports none; parent_dir_name runs the same loop at lines 111-121 |
| FileUtils.CopyRange | src/fileutils.c:139-160 | the copy loop copies the range to the start of the buffer |
| FileUtils.ScanToDot | src/fileutils.c:200-209 | the copy loop stops at the end of the path or at its first dot |
| FileUtils.LastSegmentAfterScan | src/fileutils.c:183-197 | where the cursor stops after the first loop, the last segment begins |
| FileUtils.BaseNameAfterScan | src/fileutils.c:197-212 | the second loop stops where the base name ends |
| FileUtils.BasenameNoExt | src/fileutils.c:174-213 | without a buffer, the size to allocate for the last segment; with one, the base name is written and its length plus one returned |
| FileUtils.ParentDirSpec | src/fileutils.c:99-164 | a parent name has no separator, and a path has a parent exactly when a separator follows its first character |
| FileUtils.NoParentAfterScan | src/fileutils.c:108-123 | when the first loop meets no separator after a leading one, there is no parent |
| FileUtils.ParentAfterScans | src/fileutils.c:108-138 | the two loops of parent_dir_name delimit the parent's name |
| FileUtils.ParentDirName | src/fileutils.c:99-164 | 0 with no parent; otherwise the parent's name is written and its length returned, or its size is returned when there is no buffer |
| FileUtils.FileExtMatchSpec | src/fileutils.c:563-577 | the extension compared is the text after the last dot, or the whole path when it has no dot |
| DirSort.StrCmp | src/fileutils.c:656-666 | the sign of strcmp is 0 exactly for equal strings |
| DirSort.StrCmpAntisymmetric | src/fileutils.c:665 | swapping the arguments of strcmp flips its sign |
| DirSort.StrCmpTransitive | src/fileutils.c:665 | strcmp orders strings transitively |
| DirSort.DeeperFirst | src/fileutils.c:656-666 | a deeper path always sorts first; equally deep paths sort as strcmp does |
| DirSort.DirCompareAntisymmetric | src/fileutils.c:656-666 | the comparator is antisymmetric and calls only equal paths equal |
| DirSort.DirCompareTransitive | src/fileutils.c:656-666 | the comparator is transitive, so it is a total order qsort can rely on |
| DirSort.InsertSorted | src/fileutils.c:306-308 | inserting into a sorted listing keeps it sorted and adds exactly one path |
| DirSort.SortDirsSpec | src/fileutils.c:306-308 | the sorted listing is sorted and a permutation of the listing |
| DirSort.SortedUnique | src/fileutils.c:306-308 | a listing has exactly one sorted arrangement, so the order qsort visits elements in does not matter |
| DirSort.SortDirList | src/fileutils.c:306-308 | sort_dirlist sorts the array in place into a permutation of itself, which is the sorted listing |
| DirSort.SortedDeeperFirstBelow | src/fileutils.c:656-666 | in a sorted listing of one directory, the parts below that directory come deeper first |
| DirSort.BelowSorted | src/fileutils.c:306-308 | sorting keeps every path at least as long as the directory listed |
| DirSort.RelativeDeeper | src/fileutils.c:656-666 | of two paths below one directory, the one sorted first is at least as deep below it |
| Assets.SpaceRunSpec | src/fileutils.c:44 | the `\s+` run is white space throughout and ends where white space ends |
| Assets.QuoteRunSpec | src/fileutils.c:44 | the `[^"]+` group holds no quote and ends at a quote or the end |
| Assets.MatchAt | src/fileutils.c:44-45 | a match's group lies after `<img`, the space and `src="`, and is closed inside the text |
| Assets.MatchAtSpec | src/fileutils.c:44-45 | a match starts with `<img` in any case, and its group is a run of non-quotes closed by a quote |
| Assets.FindImg | src/fileutils.c:50 | regexec reports a position at or after the cursor where the pattern matches |
| Assets.FindImgNone | src/fileutils.c:50 | regexec reports no match only when no position matches |
| Assets.FindImgLeftmost | src/fileutils.c:50 | the match regexec reports is the leftmost one |
| Assets.AssetPathShape | src/fileutils.c:65-76 | the new source is `../` repeated depth + 1 times, then `assets`, then the old source behind one separator |
| Assets.AssetPathRelative | src/fileutils.c:65-76 | a relative source keeps its own name under `assets/` |
| Assets.RewriteUnfold | src/fileutils.c:50-83 | at the leftmost match the rewrite replaces the source and carries on after it |
| Assets.BackPath | src/fileutils.c:65-68 | the loop from -1 up to the depth builds `../` depth + 1 times |
| Assets.NewAssetPath | src/fileutils.c:75 | pathcat of the back path, the assets root and the old source is the new asset path |
| Assets.LoopStep | src/fileutils.c:71-82 | one splice-and-skip round keeps the loop invariant, and the text left to scan shrinks |
| Assets.SubstituteAssets | src/fileutils.c:37-88 | every image source of the page is rewritten, and rewritten text is never matched again |
| Config.ScanSetSpec | src/config.c:12 | a `%<width>[set]` conversion reads only characters of the set and stops at the width, the end, or the first other character |
| Config.ScanSetStops | src/config.c:12 | any run that stops in one of those ways is what the conversion reads |
| Config.ParseVariableLineSplit | src/config.c:133-152 | the key conversion's stop point decides the rest of the parse |
| Config.ParseVariableLineSound | src/config.c:133-152 | a parsed line is `key=value…`: a key of 1 to 49 characters other than `=`, then `=`, then a value of 1 to 99 value characters that could not be extended |
| Config.ParseVariableLineComplete | src/config.c:133-152 | every well-formed `key=value` line, whatever follows the value, parses to exactly that variable |
| Config.ParseVariableLineNeedsEquals | src/config.c:133-152 | a line with no `=` within the key's width does not parse |
| Config.LinesConcat | src/config.c:47 | the lines getline delivers, put together again, are the file |
| Config.LinesShaped | src/config.c:47 | every line but the last ends in its only line break |
| Config.ParseLinesAt | src/config.c:47-64 | one round of the loop: a blank line stops with success, a bad line with failure, a good one is pushed |
| Config.ParseLinesSpec | src/config.c:34-71 | the file parses exactly when every line before the first blank one parses, and the entries are those lines' variables in order |
| Config.FormatFileRoundTrip | src/config.c:34-71 | a file written from well-formed variables, one `key=value` line each, reads back as exactly those variables |
| Config.FirstKeyIndex | src/config.c:116-124 | the index of the first entry with the key, or -1 exactly when no entry has it |
| Config.FirstKeyWins | src/config.c:116-124 | with duplicate keys, the first entry is the one found |
| Config.VariableContainer.Initialize | src/config.c:22-25 | initialize_variables empties the container in place |
| Config.VariableContainer.Push | src/config.c:61-63 | the realloc-and-append adds one entry at the end |
| Config.VariableContainer.Populate | src/config.c:34-71 | an unopenable file fails and adds nothing; otherwise the parsed entries are appended in file order, and the result is whether the file parsed |
| Config.VariableContainer.PopulateLines | src/config.c:47-64 | the getline loop appends the parsed entries and reports whether every line before the first blank one parsed |
| Config.VariableContainer.FindVariableI | src/config.c:96-106 | the entry at the index, and nothing exactly when the index is past the end |
| Config.VariableContainer.FindVariable | src/config.c:116-124 | the linear search returns the index of the first entry with the key, or -1 |
| TemplateIndex.TemplateFromPathSpec | src/template.c:99-121 | an entry names its file relative to the template directory; its name has no folder or extension; its depth counts the folders; it has a parent exactly when it sits in a folder |
| TemplateIndex.TemplatesFromOrigin | src/template.c:159-162 | every entry comes from a listed path with the template extension |
| TemplateIndex.TemplatesFromComplete | src/template.c:159-162 | every listed path with the template extension gets an entry |
| TemplateIndex.TemplatesDeeperFirst | src/template.c:147-167 | since the listing is sorted first, the index lists deeper templates first |
| TemplateIndex.DeeperFirstTemplates | src/template.c:159-162 | the entries keep the depth order of the paths they come from |
| TemplateIndex.TemplatesFromStep | src/template.c:159-162 | one round of the loop adds the path's entry exactly when it has the template extension |
| TemplateIndex.TemplateContainer.Initialize | src/template.c:46-55 | the engine remembers the wiki root, builds the template directory and starts empty |
| TemplateIndex.TemplateContainer.FindTemplateI | src/template.c:64-78 | the entry at the index, and nothing exactly when the index is past the end |
| TemplateIndex.TemplateContainer.Push | src/template.c:86-90 | one entry is appended |
| TemplateIndex.TemplateContainer.Add | src/template.c:130-139 | the entry built from the path is appended and returned |
| TemplateIndex.TemplateContainer.Populate | src/template.c:147-167 | a listing error is returned before anything is added; otherwise each template file of the sorted listing is added in order |
| TemplateIndex.TemplateContainer.AddTemplates | src/template.c:159-162 | the loop appends the entries of the template files in listing order |
| Article.ArticleFromPathSpec | src/article.c:76-87 | an entry names its file relative to the article directory; its name is the file name without folder or extension; its depth counts the folders |
| Article.ArticlesFromStep | src/article.c:74-93 | one round of the loop appends the entry of one listed path |
| Article.ArticlesDeeperFirst | src/article.c:58-98 | since the listing is sorted first, the index lists deeper articles first |
| Article.ArticleContainer.Initialize | src/article.c:23-29 | the container remembers the wiki root and starts empty |
| Article.ArticleContainer.FindArticleI | src/article.c:38-50 | the entry at the index, and nothing (the NULL record) exactly when the index is past the end |
| Article.ArticleContainer.Populate | src/article.c:58-98 | a listing error is returned before anything is added; otherwise every file of the sorted listing is added in order |
| Article.ArticleContainer.AddArticles | src/article.c:74-93 | the loop appends one entry per listed path, in order |
| TemplateEngine.NameEndSpec | src/template.c:25-26 | the `%49[^close]` conversion reads no closing character and stops only at the width, the end, or a closing character |
| TemplateEngine.NameEndStops | src/template.c:25-26 | any run that stops in one of those ways is what the conversion reads |
| TemplateEngine.ScanTag | src/template.c:25-26 | a tag name found by sscanf has 1 to 49 characters |
| TemplateEngine.ScanFromSkip | src/template.c:25-26 | `%*[^open]` skips any stretch without the opening character |
| TemplateEngine.ScanTagAt | src/template.c:25-26 | the outcome is decided at the first opening character: a matching failure when it comes first or a closing character follows, end of input when it is last, otherwise the name |
| TemplateEngine.ScanTagNoOpen | src/template.c:25-26 | a text without the opening character holds no tag |
| TemplateEngine.ScanTagSound | src/template.c:25-26 | a name found sits right after the first opening character, which is not the first character; it holds no closing character and could not be longer |
| TemplateEngine.ScanTagComplete | src/template.c:25-26 | a prefix without the opening character, then a tag, yields exactly that name |
| TemplateEngine.ReplaceString | src/template.c:334-349 | replace_string replaces the first occurrence of the built needle in the buffer |
| TemplateEngine.TagReplacedInPlace | src/template.c:207 | when the scanned tag is closed, the first occurrence of its needle is that tag, so exactly the tag is spliced |
| TemplateEngine.InjectArticle | src/template.c:303-324 | placing the article succeeds only when the article exists and is readable and the template holds the body tag; the first body tag is replaced |
| TemplateEngine.ExpandWithoutTags | src/template.c:192-224 | a text without `[` is left as it is |
| TemplateEngine.SubstituteWithoutTags | src/template.c:259-294 | a text without `%` is left as it is |
| TemplateEngine.ExpandDoneHasNoTag | src/template.c:192-224 | a successful expansion leaves no template tag behind |
| TemplateEngine.SubstituteDoneHasNoTag | src/template.c:259-294 | a successful substitution leaves no variable tag behind |
| TemplateEngine.RenderErrors | src/template.c:233-250 | rendering a template fails only with a missing, unreadable or unparsable template |
| TemplateEngine.ExpandErrors | src/template.c:192-224 | expanding template tags fails only with those three codes |
| TemplateEngine.SubstituteErrors | src/template.c:259-294 | substituting variables fails only with a missing variable or a parsing failure |
| TemplateEngine.RenderFuelMonotone | src/template.c:233-250 | once a template renders within the bound, a larger bound gives the same result |
| TemplateEngine.ExpandFuelMonotone | src/template.c:192-224 | the same for the expansion of template tags |
| TemplateEngine.SubstituteFuelMonotone | src/template.c:259-294 | the same for the substitution of variables |
| TemplateEngine.SelfReferenceDiverges | src/template.c:192-250 | a template whose text refers to itself never finishes rendering, whatever the bound |
| TemplateEngine.VariableExample | src/template.c:259-294 | `<%title%>` with two `title` variables becomes `<Hi>`, the value of the first one |
| TemplateEngine.MissingVariableExample | src/template.c:268-273 | a tag naming no variable is a variable-not-found failure |
| TemplateEngine.RenderTemplate | src/template.c:233-250 | render_template reports the status of the rendering specification and, on success, holds the rendered text in a new buffer |
| TemplateEngine.SubstituteTemplates | src/template.c:192-224 | substitute_templates reports the status of the expansion and, on success, leaves the expanded text in the buffer |
| TemplateEngine.RenderVariables | src/template.c:259-294 | render_variables reports the status of the substitution and, on success, leaves the substituted text in the buffer |
| TemplateEngine.RenderArticleInTemplate | src/template.c:303-324 | the article is placed at the body tag in the order of checks of the source, and the buffer is untouched on failure |
| Uki.ErrorMessageKnown | src/uki.c:147-184 | every failure except the index and asset-regex ones has its own message; those two get the unknown-error message |
| Uki.ErrorMessageUnknown | src/uki.c:182-183 | an integer that is no failure code, `UKI_OK` included, gets the unknown-error message |
| Uki.LoadFormatted | src/uki.c:205-226 | a variables file written from well-formed variables loads back to exactly those variables |
| Uki.LoadErrors | src/uki.c:205-226 | loading fails only with "no variables" or "parsing variables", and with the first exactly when the file is missing |
| Uki.PopulateVariableContainer | src/uki.c:205-226 | a missing file is reported as "no variables" and leaves the caller's container as it was; otherwise the container is emptied and refilled, holding the loaded entries (or those read before a bad line), and the status is the loading result |
| Uki.RenderPageSound | src/uki.c:89-109 | a rendered page comes from the first `main_template` entry, its template rendered, its article exists and is readable, and no variable tag is left |
| Uki.RenderPageFailureOrder | src/uki.c:93-106 | a missing main template is reported first; a rendered template whose article is missing gives "article not found" |
| Uki.RenderPageErrors | src/uki.c:89-109 | a page fails only with the codes its steps return, and each of them has a message |
| Uki.RenderPageFuelMonotone | src/uki.c:89-109 | once a page renders within the bound, a larger bound gives the same page |
| Uki.Wiki.constructor | src/uki.c:19-23 | the library's globals start out empty |
| Uki.Wiki.Initialize | src/uki.c:57-80 | the manifest is loaded first and then the variables, stopping at the first failure; a missing file leaves its container, and a container not yet reached keeps its old entries, as do the template engine and the articles; on success the template engine starts empty under the wiki root and the articles are indexed from the sorted listing |
| Uki.Wiki.Config | src/uki.c:117-119 | the manifest entry at an 8-bit index, and nothing exactly past the end |
| Uki.Wiki.Variable | src/uki.c:127-129 | the variables-file entry at an 8-bit index, and nothing exactly past the end |
| Uki.Wiki.ArticleAt | src/uki.c:137-139 | the article entry at the index, and nothing exactly past the end |
| Uki.Wiki.RenderPage | src/uki.c:89-109 | uki_render_page reports the status of the page rendering specification and, on success, returns the rendered page in a new buffer |

## Left out

- File I/O is not modelled. `fopen`, `getline`, `slurp_file`, `file_exists` and `file_contents_size` become lookups in the filesystem map.
- `list_directory_files` and `n_list_directory_files` walk directories with `opendir`/`readdir`. They are replaced by a listing given as a parameter. `Below` only requires that each listed path is at least as long as the directory, which a listing of that directory always meets.
- The POSIX regex engine is not called. `Assets` writes out the one pattern `substitute_assets` compiles, matching letters in either case as `REG_ICASE` does. The regcomp failure code (`UKI_ERROR_REGEX_ASSET_IMAGE`) cannot arise in the model.
- The `#ifdef WINDOWS` branches are not modelled. These are the DLL entry point, wide-character conversions, backslash paths, and the `nmatches == 0` test that treats a matching failure as "no tag".
- `malloc`, `realloc` and `free` are left out, with their failures and leaks. So are `uki_clean` and the `free_*` functions.
- The fixed buffer sizes `UKI_MAX_PATH` and `UKI_MAX_TEMPLATE_NAME` are left out. The model has no overflow of `template_path`, `article_path` or `cmpneedle`. `ReplaceString` keeps the one limit the source states, through `NeedleFits`.
- Config.VariableContainer.Push: the container's `size` is unbounded, and the 8-bit wrap of the source's counters is not modelled.
- FileUtils.ParentDirName: the 8-bit separator counter `slcount` is unbounded.
- The rendering functions take a `fuel` bound. A recursion that the source would never finish is reported as `Exhausted`/`FuelOut` instead of exhausting the stack.
- RenderTemplate, SubstituteTemplates and RenderVariables: after a failure they state only the status, not what the buffer holds. The source's buffer at that point is whatever partial substitution happened.
- TemplateEngine.RenderTemplate: the template directory comes from the wiki root that the caller passes. The source reads it from the `wiki_root_path` global set by `initialize_templating`. `Uki.Wiki.RenderPage` passes the wiki's root, which is what that global holds there.
- Config.ValueChar: the `_-+` in the value scanset of src/config.c:12 is read as the three characters `_`, `-` and `+`. That is glibc's reading of a range whose end lies below its start. Other C libraries may read it otherwise.
- Strings are sequences of characters without a terminating NUL. A path with an embedded NUL is not modelled.
- `strcmp` is modelled by its sign only.
- `main.c` and `general_example.c` are example programs, not part of this model.
