/** `MaxLengthInputFilter`: an Android `InputFilter` that lets an edit through only as far as it
    keeps the text within `maxLength` characters, and reports (`onExceed`) an edit it cut. */
module MaxLengthFilter {
  import opened Common

  /** What `InputFilter.filter` returns: `null` (take the offered span unchanged) or a
      replacement text. */
  datatype FilterResult = Accept | Replace(text: string)

  /** The filter's answer, with whether its callback (`onExceed` / `onOverflow`) was invoked. */
  datatype Filtered = Filtered(result: FilterResult, exceeded: bool)

  /** `x?.length ?: 0`. */
  function Len(s: Option<string>): nat {
    if s.Some? then |s.value| else 0
  }

  /** The arguments the framework passes: the offered span `source[start..end)` replaces
      `dest[dstart..dend)`. */
  predicate FilterArgs(source: Option<string>, start: int, end: int, dest: Option<string>, dstart: int, dend: int) {
    && 0 <= start <= end
    && (source.Some? ==> end <= |source.value|)
    && 0 <= dstart <= dend <= Len(dest)
  }

  /** Room left for the offered text once the replaced span of `dest` is removed. */
  function Keep(maxLength: int, destLength: int, dstart: int, dend: int): int {
    maxLength - (destLength - (dend - dstart))
  }

  /** `MaxLengthInputFilter.filter`. */
  function Filter(maxLength: int, source: Option<string>, start: int, end: int,
                  dest: Option<string>, dstart: int, dend: int): (r: Filtered)
    requires FilterArgs(source, start, end, dest, dstart, dend)
    ensures var keep := Keep(maxLength, Len(dest), dstart, dend);
      r.result.Accept? <==> 0 < keep && (end - start <= keep || source.None?)
  {
    var sourceLength := Len(source);
    var keep := Keep(maxLength, Len(dest), dstart, dend);
    if keep <= 0 then
      Filtered(Replace(""), sourceLength > 0)
    else if keep >= end - start then
      Filtered(Accept, false)
    else
      Filtered(if source.Some? then Replace(source.value[start..start + keep]) else Accept, true)
  }

  /** The text that ends up inserted: the whole offered span when the filter accepts it,
      otherwise the replacement. */
  function Inserted(source: string, start: int, end: int, r: FilterResult): string
    requires 0 <= start <= end <= |source|
  {
    if r.Accept? then source[start..end] else r.text
  }

  /** The edited text: the replaced span of `dest` swapped for what was inserted. */
  function Applied(dest: string, dstart: int, dend: int, inserted: string): string
    requires 0 <= dstart <= dend <= |dest|
  {
    dest[..dstart] + inserted + dest[dend..]
  }

  /** What `MaxLengthInputFilter` inserts is the longest prefix of the offered span that fits:
      a prefix of `source[start..end)` whose length is `keep` clamped to `[0, end - start]`. */
  lemma InsertedIsLongestFittingPrefix(maxLength: int, source: string, start: int, end: int,
                                       dest: Option<string>, dstart: int, dend: int)
    requires FilterArgs(Some(source), start, end, dest, dstart, dend)
    ensures var keep := Keep(maxLength, Len(dest), dstart, dend);
      var ins := Inserted(source, start, end, Filter(maxLength, Some(source), start, end, dest, dstart, dend).result);
      && |ins| == (if keep <= 0 then 0 else if keep >= end - start then end - start else keep)
      && ins == source[start..start + |ins|]
  {
  }

  /** If the part of `dest` that is kept is within `maxLength`, the edited text is too. */
  lemma ResultWithinMaxLength(maxLength: int, source: string, start: int, end: int,
                              dest: string, dstart: int, dend: int)
    requires FilterArgs(Some(source), start, end, Some(dest), dstart, dend)
    requires |dest| - (dend - dstart) <= maxLength
    ensures var ins := Inserted(source, start, end, Filter(maxLength, Some(source), start, end, Some(dest), dstart, dend).result);
      |Applied(dest, dstart, dend, ins)| <= maxLength
  {
    InsertedIsLongestFittingPrefix(maxLength, source, start, end, Some(dest), dstart, dend);
  }

  /** `onExceed` reports lost characters: it never fires when the offered span is taken whole
      or for an empty source, and always fires when characters of the offered span are lost.
      The one case where it fires although nothing is lost is an empty span offered into a
      full field (`start == end`, `keep <= 0`) from a non-empty source. */
  lemma ExceedReportsCuts(maxLength: int, source: string, start: int, end: int,
                          dest: Option<string>, dstart: int, dend: int)
    requires FilterArgs(Some(source), start, end, dest, dstart, dend)
    ensures var r := Filter(maxLength, Some(source), start, end, dest, dstart, dend);
      && (r.exceeded ==> |source| > 0 && r.result.Replace?)
      && (r.result.Accept? ==> !r.exceeded)
      && (|Inserted(source, start, end, r.result)| < end - start ==> r.exceeded)
      && (r.exceeded ==> |Inserted(source, start, end, r.result)| < end - start
                         || (start == end && Keep(maxLength, Len(dest), dstart, dend) <= 0))
  {
  }

  /** A source of `null` in the truncating branch falls through to `null`, which the framework
      takes as accepting the (absent) offered text, while `onExceed` still fires. */
  lemma NullSourceInTruncatingBranch(maxLength: int, start: int, end: int, dest: Option<string>, dstart: int, dend: int)
    requires FilterArgs(None, start, end, dest, dstart, dend)
    requires 0 < Keep(maxLength, Len(dest), dstart, dend) < end - start
    ensures Filter(maxLength, None, start, end, dest, dstart, dend) == Filtered(Accept, true)
  {
  }
}
