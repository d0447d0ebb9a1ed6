/**
 * Positional string splicing: find the first occurrence of a needle and
 * replace a `[begin, end)` span of a text buffer.
 */
module StrUtils {
  import opened Wrappers

  /** A substitution position: the half-open span `[begin, end)`. */
  datatype Span = Span(begin: nat, end: nat)

  predicate ValidSpan(h: string, p: Span) {
    p.begin <= p.end <= |h|
  }

  /** `needle` occurs in `h` starting at index `i`. */
  predicate OccursAt(h: string, needle: string, i: nat) {
    i + |needle| <= |h| && h[i..i + |needle|] == needle
  }

  /** The first index at or after `from` where `needle` occurs. */
  function SearchFrom(h: string, needle: string, from: nat): (r: Option<nat>)
    requires from <= |h|
    decreases |h| - from
    ensures r.Some? ==> from <= r.value && r.value + |needle| <= |h|
  {
    if OccursAt(h, needle, from) then Some(from)
    else if from == |h| then None
    else SearchFrom(h, needle, from + 1)
  }

  /** The search reports the first occurrence at or after `from`, and nothing only when there is none. */
  lemma {:induction false} SearchFromSpec(h: string, needle: string, from: nat, r: Option<nat>)
    requires from <= |h| && r == SearchFrom(h, needle, from)
    ensures r.Some? ==> from <= r.value && OccursAt(h, needle, r.value)
    ensures r.Some? ==> forall j :: from <= j < r.value ==> !OccursAt(h, needle, j)
    ensures r.None? ==> forall j :: from <= j ==> !OccursAt(h, needle, j)
    decreases |h| - from
  {
    if !OccursAt(h, needle, from) && from < |h| {
      SearchFromSpec(h, needle, from + 1, r);
    }
  }

  /** The position `strstr` reports: the first occurrence of `needle`, if any. */
  function FirstOccurrence(h: string, needle: string): Option<nat>
  {
    SearchFrom(h, needle, 0)
  }

  /** strstr finds the first occurrence, and finds nothing only when the needle does not occur. */
  lemma FirstOccurrenceSpec(h: string, needle: string, r: Option<nat>)
    requires r == FirstOccurrence(h, needle)
    ensures r.Some? ==> OccursAt(h, needle, r.value)
    ensures r.Some? ==> forall j :: 0 <= j < r.value ==> !OccursAt(h, needle, j)
    ensures r.None? ==> forall j :: !OccursAt(h, needle, j)
  {
    SearchFromSpec(h, needle, 0, r);
  }

  /**
   * strsubstpos: the span of the first occurrence of `needle`, or `(0,0)`
   * when there is none.
   */
  function SubstPos(h: string, needle: string): (p: Span)
    ensures ValidSpan(h, p)
  {
    match FirstOccurrence(h, needle)
    case Some(i) => Span(i, i + |needle|)
    case None => Span(0, 0)
  }

  /** The span strsubstpos reports covers the first occurrence exactly, or is `(0,0)`. */
  lemma SubstPosSpec(h: string, needle: string, p: Span)
    requires p == SubstPos(h, needle)
    ensures FirstOccurrence(h, needle).Some? ==>
              p.end == p.begin + |needle| && h[p.begin..p.end] == needle &&
              forall j :: 0 <= j < p.begin ==> !OccursAt(h, needle, j)
    ensures FirstOccurrence(h, needle).None? ==> p == Span(0, 0) && forall j :: !OccursAt(h, needle, j)
  {
    FirstOccurrenceSpec(h, needle, FirstOccurrence(h, needle));
  }

  /**
   * strnreplace: `h` with the span `p` replaced by `sub`. Everything before
   * `p.begin` and from `p.end` on is kept verbatim.
   */
  function Splice(h: string, p: Span, sub: string): string
    requires ValidSpan(h, p)
  {
    h[..p.begin] + sub + h[p.end..]
  }

  /** The spliced text keeps what lies outside the span and holds `sub` in its place. */
  lemma SpliceSpec(h: string, p: Span, sub: string, r: string)
    requires ValidSpan(h, p) && r == Splice(h, p, sub)
    ensures |r| == |h| - (p.end - p.begin) + |sub|
    ensures r[..p.begin] == h[..p.begin]
    ensures r[p.begin..p.begin + |sub|] == sub
    ensures r[p.begin + |sub|..] == h[p.end..]
  {
  }

  /** strsreplace: splice `sub` over the span strsubstpos reports for `needle`. */
  function ReplaceFirst(h: string, needle: string, sub: string): (r: string)
  {
    Splice(h, SubstPos(h, needle), sub)
  }

  /**
   * When the needle occurs, only its first occurrence is replaced: the text
   * before it and everything after it (later occurrences included) is kept.
   */
  lemma ReplaceFirstPresent(h: string, needle: string, sub: string, i: nat)
    requires OccursAt(h, needle, i)
    requires forall j :: 0 <= j < i ==> !OccursAt(h, needle, j)
    ensures ReplaceFirst(h, needle, sub) == h[..i] + sub + h[i + |needle|..]
  {
    FirstOccurrenceSpec(h, needle, FirstOccurrence(h, needle));
  }

  /** An absent needle makes strsreplace prepend `sub`, because of the `(0,0)` span. */
  lemma ReplaceFirstAbsent(h: string, needle: string, sub: string)
    requires forall j :: !OccursAt(h, needle, j)
    ensures ReplaceFirst(h, needle, sub) == sub + h
  {
    FirstOccurrenceSpec(h, needle, FirstOccurrence(h, needle));
    assert h[..0] == [] && h[0..] == h;
  }

  /** The caller's heap buffer that strnreplace and strsreplace reallocate in place. */
  class TextBuffer {
    var text: string

    constructor (s: string)
      ensures text == s
    {
      text := s;
    }

    /** strnreplace: replace the span `pos` of the buffer by `substr`. */
    method StrNReplace(pos: Span, substr: string)
      requires ValidSpan(text, pos)
      modifies this
      ensures text == Splice(old(text), pos, substr)
    {
      var left := text[..pos.begin];
      var right := text[pos.end..];
      text := left + substr + right;
    }

    /** strsreplace: replace the first occurrence of `needle` by `substr`. */
    method StrSReplace(needle: string, substr: string)
      modifies this
      ensures text == ReplaceFirst(old(text), needle, substr)
    {
      var pos := SubstPos(text, needle);
      StrNReplace(pos, substr);
    }
  }
}
