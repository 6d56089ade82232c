/**
 * The textual test the audit applies to a handler's source text: does it
 * contain `.preventDefault(`, then any run of whitespace, then `)` (the
 * regular expression `/\.preventDefault\(\s*\)/`)? Defined once by what a
 * match is (MentionsPreventDefault) and once as a left-to-right scan
 * (CallsPreventDefault), and the two are proved to agree.
 */
module HandlerText {

  const PreventDefaultCall: string := ".preventDefault("

  /** The characters the class `\s` of a JavaScript regular expression matches. */
  predicate IsJsWhitespace(c: char) {
    c == '\t' || c == '\n' || c == '\U{000B}' || c == '\U{000C}' || c == '\r' || c == ' '
    || c == '\U{00A0}' || c == '\U{1680}' || '\U{2000}' <= c <= '\U{200A}'
    || c == '\U{2028}' || c == '\U{2029}' || c == '\U{202F}' || c == '\U{205F}'
    || c == '\U{3000}' || c == '\U{FEFF}'
  }

  /** `s[start..close]` is `.preventDefault(`, whitespace, and `s[close]` is `)`. */
  ghost predicate MatchAt(s: string, start: int, close: int) {
    0 <= start && start + |PreventDefaultCall| <= close < |s|
    && s[start..start + |PreventDefaultCall|] == PreventDefaultCall
    && (forall k :: start + |PreventDefaultCall| <= k < close ==> IsJsWhitespace(s[k]))
    && s[close] == ')'
  }

  /** The regular expression matches somewhere in `s`. */
  ghost predicate MentionsPreventDefault(s: string) {
    exists start, close :: MatchAt(s, start, close)
  }

  /** From position `j`, `s` holds whitespace and then `)`. */
  function ClosesAfterSpaces(s: string, j: nat): (b: bool)
    ensures b <==> exists close :: j <= close < |s| && s[close] == ')'
                                   && forall k :: j <= k < close ==> IsJsWhitespace(s[k])
    decreases |s| - j
  {
    if j >= |s| then false
    else if s[j] == ')' then true
    else if IsJsWhitespace(s[j]) then ClosesAfterSpaces(s, j + 1)
    else false
  }

  /** Some match starts at or after position `i`. */
  function CallsPreventDefaultFrom(s: string, i: nat): (b: bool)
    ensures b <==> exists start, close :: i <= start && MatchAt(s, start, close)
    decreases |s| - i
  {
    if i + |PreventDefaultCall| >= |s| then
      assert forall start, close :: i <= start && MatchAt(s, start, close) ==> false;
      false
    else if s[i..i + |PreventDefaultCall|] == PreventDefaultCall && ClosesAfterSpaces(s, i + |PreventDefaultCall|) then
      MatchFromClose(s, i);
      true
    else
      CallsPreventDefaultFrom(s, i + 1)
  }

  lemma MatchFromClose(s: string, start: nat)
    requires start + |PreventDefaultCall| <= |s|
    requires s[start..start + |PreventDefaultCall|] == PreventDefaultCall
    requires ClosesAfterSpaces(s, start + |PreventDefaultCall|)
    ensures exists close :: MatchAt(s, start, close)
  {
    var close :| start + |PreventDefaultCall| <= close < |s| && s[close] == ')'
                 && forall k :: start + |PreventDefaultCall| <= k < close ==> IsJsWhitespace(s[k]);
    assert MatchAt(s, start, close);
  }

  /** A literal `.preventDefault(` directly followed by `)` is found whatever surrounds it. */
  lemma CallBetween(before: string, after: string)
    requires after != [] && after[0] == ')'
    ensures CallsPreventDefault(before + PreventDefaultCall + after)
  {
    var s := before + PreventDefaultCall + after;
    var start := |before|;
    assert s[start..start + |PreventDefaultCall|] == PreventDefaultCall;
    assert s[start + |PreventDefaultCall|] == ')';
    assert MatchAt(s, start, start + |PreventDefaultCall|);
  }

  /** `description.match(/\.preventDefault\(\s*\)/g)` is truthy. */
  function CallsPreventDefault(description: string): (b: bool)
    ensures b <==> MentionsPreventDefault(description)
  {
    CallsPreventDefaultFrom(description, 0)
  }
}
