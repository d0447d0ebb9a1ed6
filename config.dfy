/**
 * The variable store: `key=value` lines read from the manifest and the
 * variables file, kept in order in an append-only container.
 */
module Config {
  import opened Wrappers
  import opened FileUtils

  /** One `key=value` entry. */
  datatype Variable = Variable(key: string, value: string)

  /** `%49[^=]`: at most 49 characters of key. */
  const KeyWidth: nat := 49
  /** `%99[...]`: at most 99 characters of value. */
  const ValueWidth: nat := 99

  /** The characters the value scanset accepts: digits, letters, space and ` '".,;:!@#$%^&*()_-+=`. */
  predicate ValueChar(c: char) {
    ('0' <= c <= '9') || ('a' <= c <= 'z') || ('A' <= c <= 'Z') ||
    c in {' ', '\'', '"', '.', ',', ';', ':', '!', '@', '#', '$', '%', '^', '&', '*', '(', ')', '_', '-', '+', '='}
  }

  predicate KeyChar(c: char) {
    c != '='
  }

  /** The two scansets of the line format: `[^=]` for the key and the value set. */
  datatype Scanset = KeySet | ValueSet

  predicate Accepts(cs: Scanset, c: char) {
    match cs
    case KeySet => KeyChar(c)
    case ValueSet => ValueChar(c)
  }

  // ----- parse_variable_line -----

  /** Where a `%<width>[set]` conversion starting at `from` stops reading. */
  function ScanSet(s: string, from: nat, width: nat, cs: Scanset): (k: nat)
    requires from <= |s|
    ensures from <= k <= |s| && k - from <= width
    decreases width
  {
    if width == 0 || from == |s| || !Accepts(cs, s[from]) then from
    else ScanSet(s, from + 1, width - 1, cs)
  }

  /** The conversion reads characters of the set only, and as many as it may. */
  lemma {:induction false} ScanSetSpec(s: string, from: nat, width: nat, cs: Scanset, k: nat)
    requires from <= |s| && k == ScanSet(s, from, width, cs)
    ensures forall i :: from <= i < k ==> Accepts(cs, s[i])
    ensures k - from == width || k == |s| || !Accepts(cs, s[k])
    decreases width
  {
    if !(width == 0 || from == |s| || !Accepts(cs, s[from])) {
      ScanSetSpec(s, from + 1, width - 1, cs, k);
    }
  }

  /** A run of set characters that stops where the conversion must stop is what it reads. */
  lemma {:induction false} ScanSetStops(s: string, from: nat, width: nat, cs: Scanset, k: nat)
    requires from <= k <= |s| && k - from <= width
    requires forall i :: from <= i < k ==> Accepts(cs, s[i])
    requires k - from == width || k == |s| || !Accepts(cs, s[k])
    ensures ScanSet(s, from, width, cs) == k
    decreases width
  {
    if k > from {
      ScanSetStops(s, from + 1, width - 1, cs, k);
    }
  }

  /**
   * parse_variable_line: sscanf with `%49[^=]=%99[<value set>]`. Both
   * conversions must read at least one character, and an `=` must follow the
   * key. The value is the longest run of value characters, up to 99.
   */
  function ParseVariableLine(line: string): Option<Variable>
  {
    KeyScan(line, 0)
  }

  /** The key conversion, one character at a time from index `i`. */
  function KeyScan(line: string, i: nat): Option<Variable>
    requires i <= |line|
    decreases |line| - i
  {
    if i == KeyWidth || i == |line| || line[i] == '=' then AfterKey(line, i)
    else KeyScan(line, i + 1)
  }

  /** The rest of the parse once the key conversion stopped at `k`. */
  function AfterKey(line: string, k: nat): Option<Variable>
    requires k <= |line|
  {
    if k == 0 || k == |line| || line[k] != '=' then None
    else
      var v := ScanSet(line, k + 1, ValueWidth, ValueSet);
      if v == k + 1 then None else Some(Variable(line[..k], line[k + 1..v]))
  }

  /** The key conversion reads what `%49[^=]` reads. */
  lemma {:induction false} KeyScanFrom(line: string, i: nat)
    requires i <= |line| && i <= KeyWidth
    ensures KeyScan(line, i) == AfterKey(line, ScanSet(line, i, KeyWidth - i, KeySet))
    decreases |line| - i
  {
    if !(i == KeyWidth || i == |line| || line[i] == '=') {
      KeyScanFrom(line, i + 1);
    }
  }

  /** A parse is the key conversion followed by the rest. */
  lemma ParseVariableLineSplit(line: string)
    ensures ParseVariableLine(line) == AfterKey(line, ScanSet(line, 0, KeyWidth, KeySet))
  {
    KeyScanFrom(line, 0);
  }

  /** A key the line syntax can carry. */
  predicate ValidKey(key: string) {
    1 <= |key| <= KeyWidth && forall i :: 0 <= i < |key| ==> KeyChar(key[i])
  }

  /** A value the line syntax can carry. */
  predicate ValidValue(value: string) {
    1 <= |value| <= ValueWidth && forall i :: 0 <= i < |value| ==> ValueChar(value[i])
  }

  /** A successful rest of the parse takes the key up to `k` and the value up to where its conversion stopped. */
  lemma AfterKeyShape(line: string, k: nat, e: nat, v: Variable)
    requires k < |line| && e == ScanSet(line, k + 1, ValueWidth, ValueSet)
    requires AfterKey(line, k) == Some(v)
    ensures line[k] == '=' && k + 1 < e && v == Variable(line[..k], line[k + 1..e])
  {
  }

  /** The key conversion reads a valid key when it reads anything. */
  lemma KeyRunValid(line: string, k: nat)
    requires k == ScanSet(line, 0, KeyWidth, KeySet) && k > 0
    ensures ValidKey(line[..k])
  {
    ScanSetSpec(line, 0, KeyWidth, KeySet, k);
    forall i | 0 <= i < k ensures KeyChar(line[..k][i]) {
      assert line[..k][i] == line[i];
    }
  }

  /** The value conversion reads a valid value, as long as it may, when it reads anything. */
  lemma ValueRunValid(line: string, from: nat, e: nat)
    requires from <= |line| && e == ScanSet(line, from, ValueWidth, ValueSet) && e > from
    ensures ValidValue(line[from..e])
    ensures e - from == ValueWidth || e == |line| || !ValueChar(line[e])
  {
    ScanSetSpec(line, from, ValueWidth, ValueSet, e);
    forall i | 0 <= i < e - from ensures ValueChar(line[from..e][i]) {
      assert line[from..e][i] == line[from + i];
    }
  }

  /**
   * What a successful parse yields: the line starts with a valid key, `=`
   * and a valid value, and the value could not have been any longer.
   */
  lemma ParseVariableLineSound(line: string, v: Variable)
    requires ParseVariableLine(line) == Some(v)
    ensures |v.key| + 1 + |v.value| <= |line|
    ensures ValidKey(v.key) && ValidValue(v.value)
    ensures line[..|v.key|] == v.key && line[|v.key|] == '='
    ensures line[|v.key| + 1..|v.key| + 1 + |v.value|] == v.value
    ensures |v.value| == ValueWidth || |v.key| + 1 + |v.value| == |line| || !ValueChar(line[|v.key| + 1 + |v.value|])
  {
    ParseVariableLineSplit(line);
    var k := ScanSet(line, 0, KeyWidth, KeySet);
    var e := ScanSet(line, k + 1, ValueWidth, ValueSet);
    AfterKeyShape(line, k, e, v);
    KeyRunValid(line, k);
    ValueRunValid(line, k + 1, e);
  }

  /** The rest of the parse of a line made of a valid key, `=` and a valid value that cannot be extended. */
  lemma AfterKeyComplete(key: string, value: string, rest: string, line: string)
    requires ValidKey(key) && ValidValue(value)
    requires |value| == ValueWidth || rest == [] || !ValueChar(rest[0])
    requires line == key + "=" + value + rest
    ensures AfterKey(line, ScanSet(line, 0, KeyWidth, KeySet)) == Some(Variable(key, value))
  {
    var n := |key|;
    forall i | 0 <= i < n ensures KeyChar(line[i]) {
      assert line[i] == key[i];
    }
    assert line[n] == '=';
    ScanSetStops(line, 0, KeyWidth, KeySet, n);
    forall i | n + 1 <= i < n + 1 + |value| ensures ValueChar(line[i]) {
      assert line[i] == value[i - n - 1];
    }
    assert n + 1 + |value| < |line| ==> line[n + 1 + |value|] == rest[0];
    ScanSetStops(line, n + 1, ValueWidth, ValueSet, n + 1 + |value|);
    assert line[..n] == key && line[n + 1..n + 1 + |value|] == value;
  }

  /**
   * Every line made of a valid key, `=` and a valid value that cannot be
   * extended parses back to that key and value, whatever follows.
   */
  lemma ParseVariableLineComplete(key: string, value: string, rest: string)
    requires ValidKey(key) && ValidValue(value)
    requires |value| == ValueWidth || rest == [] || !ValueChar(rest[0])
    ensures ParseVariableLine(key + "=" + value + rest) == Some(Variable(key, value))
  {
    AfterKeyComplete(key, value, rest, key + "=" + value + rest);
    ParseVariableLineSplit(key + "=" + value + rest);
  }

  /** A line that does not start with key characters followed by `=` is rejected. */
  lemma ParseVariableLineNeedsEquals(line: string)
    requires forall i :: 0 <= i < |line| && i <= KeyWidth ==> line[i] != '='
    ensures ParseVariableLine(line).None?
  {
    ParseVariableLineSplit(line);
    ScanSetSpec(line, 0, KeyWidth, KeySet, ScanSet(line, 0, KeyWidth, KeySet));
  }

  // ----- the lines getline delivers -----

  /** The file split as getline reads it: each line keeps its `\n`; the last one may lack it. */
  function Lines(s: string): seq<string>
    decreases |s|
  {
    if s == [] then []
    else match IndexOf(s, '\n')
      case None => [s]
      case Some(i) => [s[..i + 1]] + Lines(s[i + 1..])
  }

  /** The lines joined back together. */
  function Concat(lines: seq<string>): string
  {
    if lines == [] then "" else lines[0] + Concat(lines[1..])
  }

  /** Reading line by line loses nothing: the lines join back to the file. */
  lemma {:induction false} LinesConcat(s: string)
    ensures Concat(Lines(s)) == s
    decreases |s|
  {
    if s != [] {
      match IndexOf(s, '\n')
      case None =>
      case Some(i) =>
        LinesConcat(s[i + 1..]);
        assert s[..i + 1] + s[i + 1..] == s;
    }
  }

  /** A line as getline delivers it: not empty, with a `\n` only at its end, and there unless it is the last. */
  predicate LineShaped(line: string, last: bool) {
    |line| > 0 && '\n' !in line[..|line| - 1] && (!last ==> line[|line| - 1] == '\n')
  }

  /** Every line of the split is shaped as getline delivers it. */
  lemma {:induction false} LinesShaped(s: string)
    ensures forall i :: 0 <= i < |Lines(s)| ==> LineShaped(Lines(s)[i], i == |Lines(s)| - 1)
    decreases |s|
  {
    if s != [] {
      match IndexOf(s, '\n')
      case None =>
        assert s[..|s| - 1] == s[..|s|][..|s| - 1];
      case Some(i) =>
        LinesShaped(s[i + 1..]);
        assert s[..i + 1][..i] == s[..i];
        var ls := Lines(s);
        var tail := Lines(s[i + 1..]);
        assert ls == [s[..i + 1]] + tail;
        forall j | 0 <= j < |ls| ensures LineShaped(ls[j], j == |ls| - 1) {
          if j > 0 {
            assert ls[j] == tail[j - 1];
          }
        }
    }
  }

  // ----- populate_variables -----

  /** What populate_variables leaves: whether it succeeded, and the entries it pushed. */
  datatype Parsed = Parsed(ok: bool, vars: seq<Variable>)

  /** A line that ends the variable list: it starts with `\n` or `\r`. */
  predicate BlankLine(line: string) {
    |line| > 0 && (line[0] == '\n' || line[0] == '\r')
  }

  /**
   * The loop of populate_variables: parse the lines in order until a blank
   * one or the end; a line that fails to parse stops it with failure, keeping
   * the entries pushed before.
   */
  function ParseLines(lines: seq<string>): Parsed
  {
    if lines == [] || BlankLine(lines[0]) then Parsed(true, [])
    else match ParseVariableLine(lines[0])
      case None => Parsed(false, [])
      case Some(v) =>
        var rest := ParseLines(lines[1..]);
        Parsed(rest.ok, [v] + rest.vars)
  }

  /** One step of the loop: what ParseLines makes of the lines from `i` on. */
  lemma ParseLinesAt(lines: seq<string>, i: nat)
    requires i < |lines|
    ensures BlankLine(lines[i]) ==> ParseLines(lines[i..]) == Parsed(true, [])
    ensures !BlankLine(lines[i]) && ParseVariableLine(lines[i]).None? ==> ParseLines(lines[i..]) == Parsed(false, [])
    ensures !BlankLine(lines[i]) && ParseVariableLine(lines[i]).Some? ==>
      ParseLines(lines[i..]).ok == ParseLines(lines[i + 1..]).ok &&
      ParseLines(lines[i..]).vars == [ParseVariableLine(lines[i]).value] + ParseLines(lines[i + 1..]).vars
  {
    assert lines[i..][0] == lines[i] && lines[i..][1..] == lines[i + 1..];
  }

  /** The number of lines before the first blank one. */
  function BlankIndex(lines: seq<string>): (n: nat)
    ensures n <= |lines|
  {
    if lines == [] || BlankLine(lines[0]) then 0 else 1 + BlankIndex(lines[1..])
  }

  /**
   * populate_variables succeeds exactly when every line before the first
   * blank one parses; it then holds one entry per such line, in file order.
   */
  lemma {:induction false} ParseLinesSpec(lines: seq<string>)
    ensures var p, n := ParseLines(lines), BlankIndex(lines);
      (p.ok <==> forall i :: 0 <= i < n ==> ParseVariableLine(lines[i]).Some?) &&
      (p.ok ==> |p.vars| == n) &&
      |p.vars| <= n &&
      forall i :: 0 <= i < |p.vars| ==> ParseVariableLine(lines[i]) == Some(p.vars[i])
  {
    if !(lines == [] || BlankLine(lines[0])) {
      ParseLinesSpec(lines[1..]);
      var n := BlankIndex(lines);
      assert forall i :: 1 <= i < n ==> lines[i] == lines[1..][i - 1];
    }
  }

  /** A variable as one line of a variables file. */
  function FormatLine(v: Variable): string
  {
    v.key + "=" + v.value + "\n"
  }

  /** The variables file holding `vars`, one per line. */
  function FormatFile(vars: seq<Variable>): string
  {
    if vars == [] then "" else FormatLine(vars[0]) + FormatFile(vars[1..])
  }

  /** A variable that survives a write and a read: its key holds no line break and does not start with `\r`. */
  predicate Writable(v: Variable) {
    ValidKey(v.key) && ValidValue(v.value) && '\n' !in v.key && v.key[0] != '\r'
  }

  /** The lines of a formatted file are the formatted variables. */
  lemma {:induction false} LinesOfFormatFile(vars: seq<Variable>)
    requires forall i :: 0 <= i < |vars| ==> Writable(vars[i])
    ensures Lines(FormatFile(vars)) == seq(|vars|, i requires 0 <= i < |vars| => FormatLine(vars[i]))
  {
    if vars != [] {
      var v := vars[0];
      var line := FormatLine(v);
      var rest := FormatFile(vars[1..]);
      var s := line + rest;
      var n := |v.key| + 1 + |v.value|;
      assert line[n] == '\n';
      assert forall j :: 0 <= j < |v.key| ==> s[j] == v.key[j];
      assert forall j :: |v.key| < j < n ==> s[j] == v.value[j - |v.key| - 1];
      assert forall j :: 0 <= j < n ==> s[j] != '\n';
      assert s[..n + 1] == line && s[n + 1..] == rest;
      LinesOfFormatFile(vars[1..]);
    }
  }

  /** Writing variables out and reading the file back yields them again, in order. */
  lemma {:induction false} FormatFileRoundTrip(vars: seq<Variable>)
    requires forall i :: 0 <= i < |vars| ==> Writable(vars[i])
    ensures ParseLines(Lines(FormatFile(vars))) == Parsed(true, vars)
  {
    LinesOfFormatFile(vars);
    ParseLinesOfFormatted(vars);
  }

  /** Parsing the formatted lines yields the variables. */
  lemma {:induction false} ParseLinesOfFormatted(vars: seq<Variable>)
    requires forall i :: 0 <= i < |vars| ==> Writable(vars[i])
    ensures ParseLines(seq(|vars|, i requires 0 <= i < |vars| => FormatLine(vars[i]))) == Parsed(true, vars)
  {
    var lines := seq(|vars|, i requires 0 <= i < |vars| => FormatLine(vars[i]));
    if vars != [] {
      var v := vars[0];
      assert lines[0] == v.key + "=" + v.value + "\n";
      assert !BlankLine(lines[0]) by {
        assert lines[0][0] == v.key[0];
        assert v.key[0] != '\n' by {
          assert v.key[0] in v.key;
        }
      }
      ParseVariableLineComplete(v.key, v.value, "\n");
      assert lines[1..] == seq(|vars[1..]|, i requires 0 <= i < |vars[1..]| => FormatLine(vars[1..][i]));
      ParseLinesOfFormatted(vars[1..]);
      assert [v] + vars[1..] == vars;
    }
  }

  // ----- find_variable -----

  /** find_variable's answer: the index of the first entry with this key, or -1. */
  function FirstKeyIndex(list: seq<Variable>, key: string): (r: int)
    ensures -1 <= r < |list|
    ensures r >= 0 ==> list[r].key == key && forall j :: 0 <= j < r ==> list[j].key != key
    ensures r == -1 ==> forall j :: 0 <= j < |list| ==> list[j].key != key
  {
    if list == [] then -1
    else if list[0].key == key then 0
    else
      var r := FirstKeyIndex(list[1..], key);
      if r < 0 then -1 else r + 1
  }

  /** A duplicate key always resolves to its first entry. */
  lemma FirstKeyWins(list: seq<Variable>, key: string, i: nat, j: nat)
    requires i < j < |list| && list[i].key == key && list[j].key == key
    ensures FirstKeyIndex(list, key) != j && 0 <= FirstKeyIndex(list, key) <= i
  {
  }

  /** A variable container: the `list` and `size` that populate_variables grows. */
  class VariableContainer {
    var list: seq<Variable>

    /** A container as a zero-initialized global holds it: empty. */
    constructor ()
      ensures list == []
    {
      list := [];
    }

    /** initialize_variables: empties the container in place. */
    method Initialize()
      modifies this
      ensures list == []
    {
      list := [];
    }

    /** The realloc-and-append of populate_variables. */
    method Push(v: Variable)
      modifies this
      ensures list == old(list) + [v]
    {
      list := list + [v];
    }

    /**
     * populate_variables: `file` is the variables file, or None when it
     * cannot be opened. Appends the parsed entries in file order.
     */
    method Populate(file: Option<string>) returns (ok: bool)
      modifies this
      ensures file.None? ==> !ok && list == old(list)
      ensures file.Some? ==>
        ok == ParseLines(Lines(file.value)).ok && list == old(list) + ParseLines(Lines(file.value)).vars
    {
      if file.None? {
        return false;
      }
      ok := PopulateLines(Lines(file.value));
    }

    /** The getline loop of populate_variables over the lines of the file. */
    method PopulateLines(lines: seq<string>) returns (ok: bool)
      modifies this
      ensures ok == ParseLines(lines).ok && list == old(list) + ParseLines(lines).vars
    {
      ghost var whole := ParseLines(lines);
      var i := 0;
      while i < |lines|
        invariant 0 <= i <= |lines|
        invariant ParseLines(lines[i..]).ok == whole.ok
        invariant list + ParseLines(lines[i..]).vars == old(list) + whole.vars
      {
        var line := lines[i];
        ParseLinesAt(lines, i);
        if BlankLine(line) {
          return true;
        }
        var v := ParseVariableLine(line);
        if v.None? {
          return false;
        }
        Push(v.value);
        i := i + 1;
      }
      assert lines[i..] == [];
      return true;
    }

    /** find_variable_i: the entry at `index` (an 8-bit index), or nothing past the end. */
    function FindVariableI(index: nat): (r: Option<Variable>)
      requires index < 256
      reads this
      ensures r.Some? <==> index < |list|
      ensures r.Some? ==> r.value == list[index]
    {
      if index >= |list| then None else Some(list[index])
    }

    /** find_variable: scans the entries in order and stops at the first key that matches. */
    method FindVariable(key: string) returns (idx: int)
      ensures idx == FirstKeyIndex(list, key)
    {
      var i := 0;
      while i < |list|
        invariant 0 <= i <= |list|
        invariant forall j :: 0 <= j < i ==> list[j].key != key
      {
        if list[i].key == key {
          return i;
        }
        i := i + 1;
      }
      return -1;
    }
  }
}
