/**
 * The document `keydown` handler of `RSSFeedReader.setupKeyboardShortcuts`:
 * which page action a key press asks for.
 */
module Shortcuts {

  datatype Action = Refresh | ScrollToTop | ShowHelp | HideHelp | NoAction

  /** The parts of a `keydown` event the handler looks at. */
  datatype KeyEvent = KeyEvent(targetTag: string, key: string, ctrlKey: bool, metaKey: bool)

  /** The action taken, and whether the browser's default for the key is cancelled. */
  datatype Response = Response(action: Action, preventDefault: bool)

  /** Keys typed into these elements are left to the element. */
  predicate IsFormField(tag: string) {
    tag == "INPUT" || tag == "TEXTAREA"
  }

  predicate NoModifier(e: KeyEvent) {
    !e.ctrlKey && !e.metaKey
  }

  function LowerChar(c: char): char {
    if 'A' <= c <= 'Z' then (c as int - 'A' as int + 'a' as int) as char else c
  }

  /** `String.prototype.toLowerCase`, on the letters A to Z. */
  function ToLower(s: string): (r: string)
    ensures |r| == |s|
    ensures forall i :: 0 <= i < |s| ==> r[i] == LowerChar(s[i])
  {
    if s == [] then [] else [LowerChar(s[0])] + ToLower(s[1..])
  }

  /** `key` spells `word` (written in lower case) in any mix of cases. */
  predicate MatchesIgnoringCase(key: string, word: string) {
    |key| == |word| && forall i :: 0 <= i < |key| ==> LowerChar(key[i]) == word[i]
  }

  lemma ToLowerEquals(key: string, word: string)
    ensures ToLower(key) == word <==> MatchesIgnoringCase(key, word)
  {
    if MatchesIgnoringCase(key, word) {
      assert ToLower(key) == word;
    }
  }

  /** A one-letter word is matched by its lower- and upper-case letter only. */
  lemma SingleLetterKeys(key: string, c: char)
    requires 'a' <= c <= 'z'
    ensures MatchesIgnoringCase(key, [c]) <==> key == [c] || key == [(c as int - 'a' as int + 'A' as int) as char]
  {
    if MatchesIgnoringCase(key, [c]) {
      assert key == [key[0]];
    }
  }

  function Dispatch(e: KeyEvent): (r: Response)
    ensures IsFormField(e.targetTag) ==> r == Response(NoAction, false)
    ensures r.action == Refresh <==>
      !IsFormField(e.targetTag) && MatchesIgnoringCase(e.key, "r") && NoModifier(e)
    ensures r.action == ScrollToTop <==>
      !IsFormField(e.targetTag) && MatchesIgnoringCase(e.key, "t") && NoModifier(e)
    ensures r.action == ShowHelp <==>
      !IsFormField(e.targetTag) && MatchesIgnoringCase(e.key, "h") && NoModifier(e)
    ensures r.action == HideHelp <==>
      !IsFormField(e.targetTag) && MatchesIgnoringCase(e.key, "escape")
    ensures r.preventDefault <==> r.action in {Refresh, ScrollToTop, ShowHelp}
  {
    ToLowerEquals(e.key, "r");
    ToLowerEquals(e.key, "t");
    ToLowerEquals(e.key, "h");
    ToLowerEquals(e.key, "escape");
    if IsFormField(e.targetTag) then Response(NoAction, false)
    else
      var key := ToLower(e.key);
      if key == "r" then (if NoModifier(e) then Response(Refresh, true) else Response(NoAction, false))
      else if key == "t" then (if NoModifier(e) then Response(ScrollToTop, true) else Response(NoAction, false))
      else if key == "h" then (if NoModifier(e) then Response(ShowHelp, true) else Response(NoAction, false))
      else if key == "escape" then Response(HideHelp, false)
      else Response(NoAction, false)
  }

  /** Upper-case letters work like lower-case ones; Ctrl or Meta turns them off; Escape always closes the help. */
  lemma ShortcutExamples(tag: string, ctrl: bool, meta: bool)
    requires !IsFormField(tag)
    ensures Dispatch(KeyEvent(tag, "R", false, false)) == Response(Refresh, true)
    ensures Dispatch(KeyEvent(tag, "r", true, false)) == Response(NoAction, false)
    ensures Dispatch(KeyEvent(tag, "Escape", ctrl, meta)) == Response(HideHelp, false)
    ensures Dispatch(KeyEvent("INPUT", "h", false, false)) == Response(NoAction, false)
  {
    assert ToLower("R") == "r";
    assert ToLower("Escape") == "escape";
  }
}
