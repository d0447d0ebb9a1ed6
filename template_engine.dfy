/**
 * Template rendering: `[name]` tags are replaced by the rendered template file
 * of that name, `%name%` tags by the value of that variable, and `%_body_%` by
 * the article. Each step finds the first tag with sscanf and splices the
 * buffer in place.
 */
module TemplateEngine {
  import opened Wrappers
  import opened Constants
  import opened StrUtils
  import opened FileUtils
  import opened Config

  // ----- finding a tag -----

  /** `%49[...]`: at most 49 characters of tag name. */
  const TagNameWidth: nat := 49

  /** What sscanf makes of a tag pattern: end of input, a matching failure, or one name read. */
  datatype TagScan = NoTag | BadTag | Tag(name: string)

  /** Where a name conversion that stops at `close` ends, reading at most `width` characters. */
  function NameEnd(s: string, from: nat, width: nat, close: char): (k: nat)
    requires from <= |s|
    ensures from <= k <= |s| && k - from <= width
    decreases width
  {
    if width == 0 || from == |s| || s[from] == close then from
    else NameEnd(s, from + 1, width - 1, close)
  }

  /**
   * sscanf with `%*[^<open>]<open>%49[^<close>]`: at least one character
   * other than `open` must come first (else a matching failure); running out
   * of input before a name character is reached is end of input; a `close`
   * right after the first `open` is a matching failure.
   */
  function ScanTag(text: string, open: char, close: char): (r: TagScan)
    ensures r.Tag? ==> 1 <= |r.name| <= TagNameWidth
  {
    ScanFrom(text, 0, open, close)
  }

  /** The scan from index `i` on: `%*[^<open>]` skips to the first `open`, then the name is read. */
  function ScanFrom(text: string, i: nat, open: char, close: char): (r: TagScan)
    requires i <= |text|
    ensures r.Tag? ==> 1 <= |r.name| <= TagNameWidth
    decreases |text| - i
  {
    if i == |text| then NoTag
    else if text[i] != open then ScanFrom(text, i + 1, open, close)
    else if i == 0 then BadTag
    else if i + 1 == |text| then NoTag
    else if text[i + 1] == close then BadTag
    else Tag(text[i + 1..NameEnd(text, i + 1, TagNameWidth, close)])
  }

  /** The name conversion reads no `close` and stops only where it must. */
  lemma {:induction false} NameEndSpec(s: string, from: nat, width: nat, close: char, k: nat)
    requires from <= |s| && k == NameEnd(s, from, width, close)
    ensures close !in s[from..k]
    ensures k - from == width || k == |s| || s[k] == close
    decreases width
  {
    if !(width == 0 || from == |s| || s[from] == close) {
      NameEndSpec(s, from + 1, width - 1, close, k);
      assert s[from..k] == [s[from]] + s[from + 1..k];
    }
  }

  /** A run without `close` that ends where the conversion must stop is what it reads. */
  lemma {:induction false} NameEndStops(s: string, from: nat, width: nat, close: char, k: nat)
    requires from <= k <= |s| && k - from <= width && close !in s[from..k]
    requires k - from == width || k == |s| || s[k] == close
    ensures NameEnd(s, from, width, close) == k
    decreases width
  {
    if k > from {
      assert s[from] in s[from..k];
      assert s[from + 1..k] == s[from..k][1..];
      NameEndStops(s, from + 1, width - 1, close, k);
    }
  }

  /** Skipping a stretch without `open` does not change the scan. */
  lemma {:induction false} ScanFromSkip(text: string, from: nat, i: nat, open: char, close: char)
    requires from <= i <= |text| && open !in text[from..i]
    ensures ScanFrom(text, from, open, close) == ScanFrom(text, i, open, close)
    decreases i - from
  {
    if from < i {
      assert text[from] in text[from..i];
      assert text[from + 1..i] == text[from..i][1..];
      ScanFromSkip(text, from + 1, i, open, close);
    }
  }

  /** The scan is decided at the first `open`. */
  lemma ScanTagAt(text: string, open: char, close: char, i: nat)
    requires i < |text| && text[i] == open && open !in text[..i]
    ensures ScanTag(text, open, close) ==
      if i == 0 then BadTag
      else if i + 1 == |text| then NoTag
      else if text[i + 1] == close then BadTag
      else Tag(text[i + 1..NameEnd(text, i + 1, TagNameWidth, close)])
  {
    assert text[0..i] == text[..i];
    ScanFromSkip(text, 0, i, open, close);
  }

  /** Without any `open`, there is no tag. */
  lemma ScanTagNoOpen(text: string, open: char, close: char)
    requires open !in text
    ensures ScanTag(text, open, close) == NoTag
  {
    assert text[0..|text|] == text;
    ScanFromSkip(text, 0, |text|, open, close);
  }

  /**
   * A name is found right after the first `open`, which is not the first
   * character; it holds no `close` and the conversion could not read more.
   */
  lemma ScanTagSound(text: string, open: char, close: char, n: string)
    requires ScanTag(text, open, close) == Tag(n)
    ensures exists i :: (0 < i && i + 1 + |n| <= |text| && text[i] == open && open !in text[..i] &&
      text[i + 1..i + 1 + |n|] == n && close !in n &&
      (|n| == TagNameWidth || i + 1 + |n| == |text| || text[i + 1 + |n|] == close))
  {
    if open !in text {
      ScanTagNoOpen(text, open, close);
    } else {
      var i := IndexOf(text, open).value;
      ScanTagAt(text, open, close, i);
      var k := NameEnd(text, i + 1, TagNameWidth, close);
      NameEndSpec(text, i + 1, TagNameWidth, close, k);
      assert n == text[i + 1..k] && k == i + 1 + |n|;
      assert 0 < i && i + 1 + |n| <= |text| && text[i] == open && open !in text[..i] &&
        text[i + 1..i + 1 + |n|] == n && close !in n &&
        (|n| == TagNameWidth || i + 1 + |n| == |text| || text[i + 1 + |n|] == close);
    }
  }

  /** A text made of a prefix without `open`, then `open`, a name and where the name must stop, yields that name. */
  lemma ScanTagComplete(pre: string, n: string, rest: string, open: char, close: char)
    requires |pre| > 0 && open !in pre
    requires 1 <= |n| <= TagNameWidth && close !in n
    requires |n| == TagNameWidth || rest == [] || rest[0] == close
    ensures ScanTag(pre + [open] + n + rest, open, close) == Tag(n)
  {
    var text := pre + [open] + n + rest;
    var i := |pre|;
    TagTextShape(pre, n, rest, open, text);
    ScanTagAt(text, open, close, i);
    NameEndStops(text, i + 1, TagNameWidth, close, i + 1 + |n|);
    assert n[0] in n;
  }

  /** Where the parts of `pre + [open] + n + rest` sit. */
  lemma TagTextShape(pre: string, n: string, rest: string, open: char, text: string)
    requires text == pre + [open] + n + rest
    ensures |text| == |pre| + 1 + |n| + |rest|
    ensures text[..|pre|] == pre && text[|pre|] == open
    ensures text[|pre| + 1..|pre| + 1 + |n|] == n
    ensures |n| > 0 ==> text[|pre| + 1] == n[0]
    ensures rest != [] ==> text[|pre| + 1 + |n|] == rest[0]
  {
  }

  // ----- replace_string -----

  /** How replace_string builds the needle it looks for. */
  datatype SubstKind = SubstString | SubstVariable | SubstTemplate

  /** `cmpneedle` holds a name of at most 255 characters (NAME_MAX) plus the brackets. */
  const NameMax: nat := 255

  /** The needle fits `cmpneedle`; a plain string must leave room for its terminator. */
  predicate NeedleFits(needle: string, kind: SubstKind) {
    match kind
    case SubstString => |needle| < NameMax
    case _ => |needle| <= NameMax
  }

  /** The needle replace_string searches for: `[name]`, `%name%`, or the string itself. */
  function NeedleFor(needle: string, kind: SubstKind): (r: string)
    ensures kind == SubstTemplate ==> r == "[" + needle + "]"
    ensures kind == SubstVariable ==> r == "%" + needle + "%"
    ensures kind == SubstString ==> r == needle
  {
    match kind
    case SubstTemplate => "[" + needle + "]"
    case SubstVariable => "%" + needle + "%"
    case SubstString => needle
  }

  /** replace_string: replaces the first occurrence of the built needle in the buffer. */
  method ReplaceString(haystack: TextBuffer, needle: string, substr: string, kind: SubstKind)
    requires NeedleFits(needle, kind)
    modifies haystack
    ensures haystack.text == ReplaceFirst(old(haystack.text), NeedleFor(needle, kind), substr)
  {
    var cmpneedle := NeedleFor(needle, kind);
    haystack.StrSReplace(cmpneedle, substr);
  }

  /**
   * The tag found is the first occurrence of its needle when the conversion
   * stopped at `close`, so replacing the needle splices exactly that tag.
   */
  lemma TagReplacedInPlace(text: string, open: char, close: char, n: string, sub: string, i: nat)
    requires ScanTag(text, open, close) == Tag(n)
    requires i < |text| && text[i] == open && open !in text[..i]
    requires i + 1 + |n| < |text| && text[i + 1 + |n|] == close
    ensures ReplaceFirst(text, [open] + n + [close], sub) == text[..i] + sub + text[i + 2 + |n|..]
  {
    var needle := [open] + n + [close];
    ScanTagAt(text, open, close, i);
    var k := NameEnd(text, i + 1, TagNameWidth, close);
    assert n == text[i + 1..k];
    assert text[i..i + |needle|] == needle;
    forall j | 0 <= j < i ensures !OccursAt(text, needle, j) {
      assert text[..i][j] == text[j];
    }
    ReplaceFirstPresent(text, needle, sub, i);
  }

  // ----- the rendering specification -----

  /** The file a template name refers to: `<root>/templates/<name>.htm`. */
  function TemplateFile(root: string, name: string): string
  {
    ExtCatOf(PathCatOf([root, TemplateRoot, name]), TemplateExt)
  }

  /**
   * render_template: the template file must exist and be readable; an empty
   * file is fine. Its contents then have their template tags expanded.
   * `fuel` bounds the nesting of template references the model follows.
   */
  function RenderTemplateText(root: string, fs: FileSystem, name: string, fuel: nat): Outcome
    decreases fuel, 1
  {
    var path := TemplateFile(root, name);
    if path !in fs then Failed(NoTemplate)
    else if fs[path].None? then Failed(ReadingTemplate)
    else ExpandTemplates(root, fs, fs[path].value, fuel)
  }

  /**
   * substitute_templates: with a tag, render the template it names, splice
   * it over the first `[name]`, and go on with the result; a failure after
   * the splice is reported as a parsing failure.
   */
  function ExpandTemplates(root: string, fs: FileSystem, text: string, fuel: nat): Outcome
    decreases fuel, 0
  {
    match ScanTag(text, '[', ']')
    case NoTag => Done(text)
    case BadTag => Failed(ParsingTemplate)
    case Tag(n) =>
      if fuel == 0 then Exhausted
      else match RenderTemplateText(root, fs, n, fuel - 1)
        case Failed(e) => Failed(e)
        case Exhausted => Exhausted
        case Done(inner) =>
          match ExpandTemplates(root, fs, ReplaceFirst(text, NeedleFor(n, SubstTemplate), inner), fuel - 1)
          case Done(r) => Done(r)
          case Failed(_) => Failed(ParsingTemplate)
          case Exhausted => Exhausted
  }

  /**
   * render_variables: with a tag, the variable must exist; its value is
   * spliced over the first `%name%` and the rest is rendered. A missing
   * variable further on is reported as such, any other failure as a parsing
   * failure.
   */
  function SubstituteVariables(vars: seq<Variable>, text: string, fuel: nat): Outcome
    decreases fuel
  {
    match ScanTag(text, '%', '%')
    case NoTag => Done(text)
    case BadTag => Failed(ParsingTemplate)
    case Tag(n) =>
      var ivar := FirstKeyIndex(vars, n);
      if ivar < 0 then Failed(VariableNotFound)
      else if fuel == 0 then Exhausted
      else match SubstituteVariables(vars, ReplaceFirst(text, NeedleFor(n, SubstVariable), vars[ivar].value), fuel - 1)
        case Done(r) => Done(r)
        case Failed(e) => if e == VariableNotFound then Failed(VariableNotFound) else Failed(ParsingTemplate)
        case Exhausted => Exhausted
  }

  /** The body tag an article is placed at. */
  const BodyMatch: string := "%_body_%"

  /**
   * render_article_in_template: the article must exist, the template must
   * hold the body tag, and the article must be readable, checked in that
   * order; the article then replaces the first body tag.
   */
  function InjectArticle(text: string, fs: FileSystem, path: string): (r: Outcome)
    ensures r.Done? ==> path in fs && fs[path].Some? && FirstOccurrence(text, BodyMatch).Some?
    ensures r.Done? ==> r.text == ReplaceFirst(text, BodyMatch, fs[path].value)
  {
    if path !in fs then Failed(NoArticle)
    else if FirstOccurrence(text, BodyMatch).None? then Failed(BodyVarNotFound)
    else if fs[path].None? then Failed(ParsingArticle)
    else Done(ReplaceFirst(text, BodyMatch, fs[path].value))
  }

  // ----- properties of the specification -----

  /** A text without `[` has nothing to expand, whatever the fuel. */
  lemma ExpandWithoutTags(root: string, fs: FileSystem, text: string, fuel: nat)
    requires '[' !in text
    ensures ExpandTemplates(root, fs, text, fuel) == Done(text)
  {
    ScanTagNoOpen(text, '[', ']');
  }

  /** A text without `%` has no variable to substitute, whatever the fuel. */
  lemma SubstituteWithoutTags(vars: seq<Variable>, text: string, fuel: nat)
    requires '%' !in text
    ensures SubstituteVariables(vars, text, fuel) == Done(text)
  {
    ScanTagNoOpen(text, '%', '%');
  }

  /** A successful expansion leaves no template tag behind. */
  lemma {:induction false} ExpandDoneHasNoTag(root: string, fs: FileSystem, text: string, fuel: nat)
    requires ExpandTemplates(root, fs, text, fuel).Done?
    ensures ScanTag(ExpandTemplates(root, fs, text, fuel).text, '[', ']') == NoTag
    decreases fuel
  {
    match ScanTag(text, '[', ']')
    case NoTag =>
    case BadTag =>
    case Tag(n) =>
      var inner := RenderTemplateText(root, fs, n, fuel - 1).text;
      ExpandDoneHasNoTag(root, fs, ReplaceFirst(text, NeedleFor(n, SubstTemplate), inner), fuel - 1);
  }

  /** A successful substitution leaves no variable tag behind. */
  lemma {:induction false} SubstituteDoneHasNoTag(vars: seq<Variable>, text: string, fuel: nat)
    requires SubstituteVariables(vars, text, fuel).Done?
    ensures ScanTag(SubstituteVariables(vars, text, fuel).text, '%', '%') == NoTag
    decreases fuel
  {
    match ScanTag(text, '%', '%')
    case NoTag =>
    case BadTag =>
    case Tag(n) =>
      var ivar := FirstKeyIndex(vars, n);
      assert 0 <= ivar && fuel > 0;
      var next := ReplaceFirst(text, NeedleFor(n, SubstVariable), vars[ivar].value);
      assert SubstituteVariables(vars, text, fuel) == SubstituteVariables(vars, next, fuel - 1);
      SubstituteDoneHasNoTag(vars, next, fuel - 1);
  }

  /** Rendering a template fails only with a missing, unreadable or unparsable template. */
  lemma {:induction false} RenderErrors(root: string, fs: FileSystem, name: string, fuel: nat)
    ensures RenderTemplateText(root, fs, name, fuel).Failed? ==>
      RenderTemplateText(root, fs, name, fuel).error in {NoTemplate, ReadingTemplate, ParsingTemplate}
    decreases fuel, 1
  {
    var path := TemplateFile(root, name);
    if path in fs && fs[path].Some? {
      ExpandErrors(root, fs, fs[path].value, fuel);
    }
  }

  /** Expanding template tags fails only with a missing, unreadable or unparsable template. */
  lemma {:induction false} ExpandErrors(root: string, fs: FileSystem, text: string, fuel: nat)
    ensures ExpandTemplates(root, fs, text, fuel).Failed? ==>
      ExpandTemplates(root, fs, text, fuel).error in {NoTemplate, ReadingTemplate, ParsingTemplate}
    decreases fuel, 0
  {
    match ScanTag(text, '[', ']')
    case NoTag =>
    case BadTag =>
    case Tag(n) =>
      if fuel > 0 {
        RenderErrors(root, fs, n, fuel - 1);
      }
  }

  /** Substituting variables fails only with a missing variable or a parsing failure. */
  lemma SubstituteErrors(vars: seq<Variable>, text: string, fuel: nat)
    ensures SubstituteVariables(vars, text, fuel).Failed? ==>
      SubstituteVariables(vars, text, fuel).error in {VariableNotFound, ParsingTemplate}
  {
  }

  /** Once rendering finishes within some fuel, more fuel yields the same result. */
  lemma {:induction false} RenderFuelMonotone(root: string, fs: FileSystem, name: string, fuel: nat, more: nat)
    requires fuel <= more && !RenderTemplateText(root, fs, name, fuel).Exhausted?
    ensures RenderTemplateText(root, fs, name, more) == RenderTemplateText(root, fs, name, fuel)
    decreases fuel, 1
  {
    var path := TemplateFile(root, name);
    if path in fs && fs[path].Some? {
      ExpandFuelMonotone(root, fs, fs[path].value, fuel, more);
    }
  }

  /** Once expansion finishes within some fuel, more fuel yields the same result. */
  lemma {:induction false} ExpandFuelMonotone(root: string, fs: FileSystem, text: string, fuel: nat, more: nat)
    requires fuel <= more && !ExpandTemplates(root, fs, text, fuel).Exhausted?
    ensures ExpandTemplates(root, fs, text, more) == ExpandTemplates(root, fs, text, fuel)
    decreases fuel, 0
  {
    match ScanTag(text, '[', ']')
    case NoTag =>
    case BadTag =>
    case Tag(n) =>
      var inner := RenderTemplateText(root, fs, n, fuel - 1);
      RenderFuelMonotone(root, fs, n, fuel - 1, more - 1);
      if inner.Done? {
        ExpandFuelMonotone(root, fs, ReplaceFirst(text, NeedleFor(n, SubstTemplate), inner.text), fuel - 1, more - 1);
      }
  }

  /** Once substitution finishes within some fuel, more fuel yields the same result. */
  lemma {:induction false} SubstituteFuelMonotone(vars: seq<Variable>, text: string, fuel: nat, more: nat)
    requires fuel <= more && !SubstituteVariables(vars, text, fuel).Exhausted?
    ensures SubstituteVariables(vars, text, more) == SubstituteVariables(vars, text, fuel)
    decreases fuel
  {
    match ScanTag(text, '%', '%')
    case NoTag =>
    case BadTag =>
    case Tag(n) =>
      var ivar := FirstKeyIndex(vars, n);
      if ivar >= 0 {
        SubstituteFuelMonotone(vars, ReplaceFirst(text, NeedleFor(n, SubstVariable), vars[ivar].value), fuel - 1, more - 1);
      }
  }

  /**
   * A template whose own text refers to itself never finishes: with any fuel
   * the model runs out, as the source recurses without end.
   */
  lemma {:induction false} SelfReferenceDiverges(root: string, fs: FileSystem, n: string, x: char, fuel: nat)
    requires 1 <= |n| <= TagNameWidth && ']' !in n && x != '['
    requires TemplateFile(root, n) in fs && fs[TemplateFile(root, n)] == Some([x, '['] + n + "]")
    ensures RenderTemplateText(root, fs, n, fuel) == Exhausted
    decreases fuel
  {
    var body := [x, '['] + n + "]";
    assert body == [x] + ['['] + n + "]";
    ScanTagComplete([x], n, "]", '[', ']');
    if fuel > 0 {
      SelfReferenceDiverges(root, fs, n, x, fuel - 1);
    }
  }

  /** A variable tag is replaced by the value of the first variable with that key. */
  lemma VariableExample()
    ensures SubstituteVariables([Variable("title", "Hi"), Variable("title", "Ho")], "<%title%>", 1) == Done("<Hi>")
  {
    var vars := [Variable("title", "Hi"), Variable("title", "Ho")];
    var text := "<%title%>";
    assert text == "<" + ['%'] + "title" + "%>";
    ScanTagComplete("<", "title", "%>", '%', '%');
    assert FirstKeyIndex(vars, "title") == 0;
    TagReplacedInPlace(text, '%', '%', "title", "Hi", 1);
    assert text[..1] + "Hi" + text[8..] == "<Hi>";
    SubstituteWithoutTags(vars, "<Hi>", 0);
  }

  /** A missing variable is an error, even with other tags later in the text. */
  lemma MissingVariableExample()
    ensures SubstituteVariables([Variable("title", "Hi")], "<%name%>", 5) == Failed(VariableNotFound)
  {
    var text := "<%name%>";
    assert text == "<" + ['%'] + "name" + "%>";
    ScanTagComplete("<", "name", "%>", '%', '%');
  }

  // ----- the rendering methods -----

  /**
   * render_template: builds the template's path, reads the file into a new
   * buffer and expands its template tags there.
   */
  method RenderTemplate(root: string, fs: FileSystem, templateName: string, fuel: nat)
    returns (status: Status, rendered: TextBuffer)
    ensures fresh(rendered)
    ensures status == StatusOf(RenderTemplateText(root, fs, templateName, fuel))
    ensures status == Success ==> rendered.text == RenderTemplateText(root, fs, templateName, fuel).text
    decreases fuel, 1
  {
    var templatePath := TemplateFile(root, templateName);
    if templatePath !in fs {
      rendered := new TextBuffer("");
      return Failure(NoTemplate), rendered;
    }
    var contents := fs[templatePath];
    if contents.None? {
      rendered := new TextBuffer("");
      return Failure(ReadingTemplate), rendered;
    }
    rendered := new TextBuffer(contents.value);
    status := SubstituteTemplates(rendered, root, fs, fuel);
  }

  /** substitute_templates: expands the template tags of the buffer in place, first tag first. */
  method SubstituteTemplates(template: TextBuffer, root: string, fs: FileSystem, fuel: nat) returns (status: Status)
    modifies template
    ensures status == StatusOf(ExpandTemplates(root, fs, old(template.text), fuel))
    ensures status == Success ==> template.text == ExpandTemplates(root, fs, old(template.text), fuel).text
    decreases fuel, 0
  {
    var scan := ScanTag(template.text, '[', ']');
    match scan {
      case NoTag =>
        return Success;
      case BadTag =>
        return Failure(ParsingTemplate);
      case Tag(fname) =>
        if fuel == 0 {
          return FuelOut;
        }
        var err, ntemp := RenderTemplate(root, fs, fname, fuel - 1);
        if err != Success {
          return err;
        }
        ReplaceString(template, fname, ntemp.text, SubstTemplate);
        var rest := SubstituteTemplates(template, root, fs, fuel - 1);
        if rest == Success {
          return Success;
        } else if rest == FuelOut {
          return FuelOut;
        }
        return Failure(ParsingTemplate);
    }
  }

  /** render_variables: substitutes the variable tags of the buffer in place, first tag first. */
  method RenderVariables(filledTemplate: TextBuffer, variables: VariableContainer, fuel: nat) returns (status: Status)
    modifies filledTemplate
    ensures status == StatusOf(SubstituteVariables(variables.list, old(filledTemplate.text), fuel))
    ensures status == Success ==>
      filledTemplate.text == SubstituteVariables(variables.list, old(filledTemplate.text), fuel).text
    decreases fuel
  {
    var scan := ScanTag(filledTemplate.text, '%', '%');
    match scan {
      case NoTag =>
        return Success;
      case BadTag =>
        return Failure(ParsingTemplate);
      case Tag(vname) =>
        var ivar := variables.FindVariable(vname);
        if ivar < 0 {
          return Failure(VariableNotFound);
        }
        if fuel == 0 {
          return FuelOut;
        }
        ReplaceString(filledTemplate, vname, variables.list[ivar].value, SubstVariable);
        var err := RenderVariables(filledTemplate, variables, fuel - 1);
        if err == Success || err == Failure(VariableNotFound) || err == FuelOut {
          return err;
        }
        return Failure(ParsingTemplate);
    }
  }

  /** render_article_in_template: places the article at the body tag of the buffer. */
  method RenderArticleInTemplate(filledTemplate: TextBuffer, fs: FileSystem, path: string) returns (status: Status)
    modifies filledTemplate
    ensures status == StatusOf(InjectArticle(old(filledTemplate.text), fs, path))
    ensures status == Success ==> filledTemplate.text == InjectArticle(old(filledTemplate.text), fs, path).text
    ensures status != Success ==> filledTemplate.text == old(filledTemplate.text)
  {
    if path !in fs {
      return Failure(NoArticle);
    }
    if FirstOccurrence(filledTemplate.text, BodyMatch).None? {
      return Failure(BodyVarNotFound);
    }
    var article := fs[path];
    if article.None? {
      return Failure(ParsingArticle);
    }
    ReplaceString(filledTemplate, BodyMatch, article.value, SubstString);
    return Success;
  }
}
