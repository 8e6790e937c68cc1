/** The task marker of a block's text: the prefix parser that stands for the
    regular expression `^(TODO|DONE)\s+`, the marker it extracts, the text
    left once the matched prefix is removed, and the table that gives the
    marker a toggle writes next (src/main.ts). */
module TodoMarker {
  import opened Wrappers

  /** The characters JavaScript's `\s` class matches: the ECMAScript
      WhiteSpace characters (tab, vertical tab, form feed, space, no-break
      space, byte order mark and the other space separators) and the
      LineTerminator characters (line feed, carriage return, line and
      paragraph separators). */
  predicate IsWhitespace(c: char) {
    || c == '\t' || c == '\n' || c == '\U{000B}' || c == '\U{000C}' || c == '\r'
    || c == ' ' || c == '\U{00A0}' || c == '\U{1680}'
    || ('\U{2000}' <= c <= '\U{200A}')
    || c == '\U{2028}' || c == '\U{2029}' || c == '\U{202F}' || c == '\U{205F}'
    || c == '\U{3000}' || c == '\U{FEFF}'
  }

  /** True when `s` is empty or does not begin with whitespace. */
  predicate NoLeadingWhitespace(s: string) {
    s == [] || !IsWhitespace(s[0])
  }

  /** The length of the longest run of whitespace at the start of `s`.
      Applied at index 4, where `MarkerMatch` has already checked that one
      whitespace character is there, it is how far the greedy `\s+` of the
      pattern reaches. */
  function WhitespaceRun(s: string): (n: nat)
    ensures n <= |s|
    ensures forall i :: 0 <= i < n ==> IsWhitespace(s[i])
    ensures n == |s| || !IsWhitespace(s[n])
  {
    if s != [] && IsWhitespace(s[0]) then 1 + WhitespaceRun(s[1..]) else 0
  }

  /** A successful match of `^(TODO|DONE)\s+`: the captured marker and the
      index just past the matched prefix. */
  datatype Match = Match(marker: string, end: nat)

  /** True when `s` starts with the four-letter `marker` followed by at least
      one whitespace character. */
  predicate StartsWithMarker(s: string, marker: string) {
    |s| > 4 && s[..4] == marker && IsWhitespace(s[4])
  }

  /** The regular expression `^(TODO|DONE)\s+` as a prefix parser: the match
      is anchored at position 0, needs one of the two literal markers and at
      least one whitespace character after it, and then takes every further
      whitespace character (the quantifier is greedy). */
  function MarkerMatch(s: string): (r: Option<Match>)
    ensures r.Some? <==> StartsWithMarker(s, "TODO") || StartsWithMarker(s, "DONE")
    ensures r.Some? ==> r.value.marker == s[..4]
    ensures r.Some? ==> 4 < r.value.end <= |s|
    ensures r.Some? ==> forall i :: 4 <= i < r.value.end ==> IsWhitespace(s[i])
    ensures r.Some? ==> r.value.end == |s| || !IsWhitespace(s[r.value.end])
  {
    if |s| > 4 && (s[..4] == "TODO" || s[..4] == "DONE") && IsWhitespace(s[4]) then
      Some(Match(s[..4], 4 + WhitespaceRun(s[4..])))
    else
      None
  }

  /** The next marker for a current marker (`getNextTodoState`): a lookup in
      a three-entry table. Any other key is outside the table: the source's
      object-literal lookup gives `undefined`, or an inherited
      `Object.prototype` property such as `toString`; the model gives `None`. */
  function NextTodoState(state: string): (r: Option<string>)
    ensures r.Some? <==> state == "" || state == "TODO" || state == "DONE"
  {
    if state == "TODO" then Some("DONE ")
    else if state == "DONE" then Some("")
    else if state == "" then Some("TODO ")
    else None
  }

  /** The marker of a block's text (`extractTodoState`): the captured group
      of the match, or the empty marker when there is no match. */
  function ExtractTodoState(s: string): (r: string)
    ensures r == "TODO" || r == "DONE" || r == ""
    ensures NextTodoState(r).Some?
    ensures r == "TODO" <==> StartsWithMarker(s, "TODO")
    ensures r == "DONE" <==> StartsWithMarker(s, "DONE")
  {
    match MarkerMatch(s)
    case Some(m) => m.marker
    case None => ""
  }

  /** The text with the matched prefix removed (`content.replace(regex, '')`
      when the pattern matches, the text itself otherwise). */
  function StripMarker(s: string): (r: string)
    ensures ExtractTodoState(s) == "" ==> r == s
    ensures ExtractTodoState(s) != "" ==> |r| < |s| - 4 && NoLeadingWhitespace(r)
  {
    match MarkerMatch(s)
    case Some(m) => s[m.end..]
    case None => s
  }

  /** What the strip removes is exactly the marker and the whole run of
      whitespace after it. */
  lemma StripRemovesMatchedPrefix(s: string)
    requires ExtractTodoState(s) != ""
    ensures exists k ::
      && 4 < k <= |s|
      && s == ExtractTodoState(s) + s[4..k] + StripMarker(s)
      && (forall i :: 4 <= i < k ==> IsWhitespace(s[i]))
  {
    var k := MarkerMatch(s).value.end;
    assert s == s[..4] + s[4..k] + s[k..];
  }

  /** The text a toggle writes for a block (`getNextTodoState(todoState) +
      strippedContent`): when `clear` holds the block is handled as if its
      marker were DONE, otherwise its own marker is advanced. */
  function ToggleContent(s: string, clear: bool): string {
    var state := if clear then "DONE" else ExtractTodoState(s);
    NextTodoState(state).value + StripMarker(s)
  }

  /** Any text that starts with a marker and one space carries that marker,
      whatever follows. */
  lemma {:induction false} PrefixedMarker(prefix: string, t: string)
    requires prefix == "TODO " || prefix == "DONE "
    ensures ExtractTodoState(prefix + t) == prefix[..4]
    ensures NoLeadingWhitespace(t) ==> StripMarker(prefix + t) == t
  {
    var s := prefix + t;
    assert s[..4] == prefix[..4] && s[4] == ' ';
    assert s[4..][1..] == t;
    if NoLeadingWhitespace(t) {
      assert WhitespaceRun(s[4..]) == 1;
    }
  }

  /** The marker is recognised only at position 0 and only with whitespace
      after it. */
  lemma MarkerOnlyAtStartExamples()
    ensures ExtractTodoState("TODO") == ""
    ensures ExtractTodoState("TODOx") == ""
    ensures ExtractTodoState(" TODO x") == ""
    ensures ExtractTodoState("TODO\tbuy") == "TODO"
  {
    assert "TODOx"[4] == 'x';
    assert " TODO x"[..4] == [' ', 'T', 'O', 'D'];
    assert "TODO\tbuy"[..4] == "TODO" && "TODO\tbuy"[4] == '\t';
  }

  /** The whole run of whitespace after the marker is removed with it. */
  lemma StripWhitespaceRunExample()
    ensures StripMarker("DONE \n x") == "x"
  {
    var d := "DONE \n x";
    assert d[..4] == "DONE" && d[4] == ' ';
    assert d[4..] == [' ', '\n', ' ', 'x'];
    assert WhitespaceRun(['x']) == 0;
    assert WhitespaceRun([' ', 'x']) == 1;
    assert WhitespaceRun(['\n', ' ', 'x']) == 2;
    assert WhitespaceRun(d[4..]) == 3;
  }

  /** The table read as a cycle on text: a toggle takes the empty marker to
      TODO and TODO to DONE, and a DONE toggle leaves the stripped text;
      with `clear` every block gets the stripped text. */
  lemma {:induction false} ToggleAdvancesMarker(s: string, clear: bool)
    ensures clear || ExtractTodoState(s) == "DONE" ==>
      ToggleContent(s, clear) == StripMarker(s)
    ensures !clear && ExtractTodoState(s) == "" ==>
      ExtractTodoState(ToggleContent(s, clear)) == "TODO"
    ensures !clear && ExtractTodoState(s) == "TODO" ==>
      ExtractTodoState(ToggleContent(s, clear)) == "DONE"
  {
    PrefixedMarker("TODO ", StripMarker(s));
    PrefixedMarker("DONE ", StripMarker(s));
  }

  /** Three toggles of a text with no marker and no leading whitespace go
      through TODO and DONE and give the text back. */
  lemma {:induction false} ToggleContentCycle(s: string)
    requires ExtractTodoState(s) == "" && NoLeadingWhitespace(s)
    ensures ToggleContent(s, false) == "TODO " + s
    ensures ToggleContent("TODO " + s, false) == "DONE " + s
    ensures ToggleContent("DONE " + s, false) == s
  {
    PrefixedMarker("TODO ", s);
    PrefixedMarker("DONE ", s);
  }
}
