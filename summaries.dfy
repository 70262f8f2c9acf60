/**
 * `RSSFeedReader.setupExpandableSummaries`: a summary whose `data-full-text`
 * attribute is longer than its shown text becomes a button that switches
 * between the short text and the full text on a click, Enter or Space.
 */
module Summaries {
  import opened Wrappers

  const ExpandTitle: string := "Click to expand"
  const CollapseTitle: string := "Click to collapse"

  /** What an expandable summary shows: its text, its `title` and its `aria-expanded`. */
  datatype Presentation = Presentation(text: string, title: string, ariaExpanded: string)

  /**
   * The presentation of an expandable summary in each of its two states:
   * `aria-expanded` tells the state, and the title names what a click will do.
   */
  function Shown(expanded: bool, fullText: string, currentText: string): (p: Presentation)
    ensures p.ariaExpanded == "true" <==> expanded
    ensures p.ariaExpanded == "false" <==> !expanded
    ensures p.title == (if expanded then CollapseTitle else ExpandTitle)
    ensures p.text == fullText || p.text == currentText
  {
    if expanded then Presentation(fullText, CollapseTitle, "true")
    else Presentation(currentText, ExpandTitle, "false")
  }

  /** The full-text attribute is present, non-empty and longer than the shown text. */
  predicate Expandable(fullTextAttr: Option<string>, currentText: string) {
    fullTextAttr.Some? && fullTextAttr.value != "" && |fullTextAttr.value| > |currentText|
  }

  predicate IsToggleKey(key: string) {
    key == "Enter" || key == " "
  }

  /** The events an expandable summary listens to. */
  datatype Input = Click | KeyDown(key: string)

  predicate Toggles(i: Input) {
    i.Click? || IsToggleKey(i.key)
  }

  function ToggleCount(inputs: seq<Input>): nat {
    if inputs == [] then 0 else (if Toggles(inputs[0]) then 1 else 0) + ToggleCount(inputs[1..])
  }

  /**
   * The expansion state after a run of events, starting from `expanded`: it is
   * flipped exactly when the run toggled an odd number of times.
   */
  function ExpandedAfter(expanded: bool, inputs: seq<Input>): (r: bool)
    ensures r == (if ToggleCount(inputs) % 2 == 0 then expanded else !expanded)
    decreases |inputs|
  {
    if inputs == [] then expanded
    else ExpandedAfter(if Toggles(inputs[0]) then !expanded else expanded, inputs[1..])
  }

  /** Running two batches of events is running one after the other. */
  lemma {:induction false} ExpandedAfterAppend(expanded: bool, a: seq<Input>, b: seq<Input>)
    ensures ExpandedAfter(expanded, a + b) == ExpandedAfter(ExpandedAfter(expanded, a), b)
    decreases |a|
  {
    if a == [] {
      assert a + b == b;
    } else {
      assert (a + b)[0] == a[0] && (a + b)[1..] == a[1..] + b;
      ExpandedAfterAppend(if Toggles(a[0]) then !expanded else expanded, a[1..], b);
    }
  }

  /** An even number of toggles brings back the original text, title and `aria-expanded`. */
  lemma EvenTogglesRestore(expanded: bool, inputs: seq<Input>, fullText: string, currentText: string)
    requires ToggleCount(inputs) % 2 == 0
    ensures Shown(ExpandedAfter(expanded, inputs), fullText, currentText) == Shown(expanded, fullText, currentText)
  {
  }

  /** A key other than Enter or Space leaves the state alone. */
  lemma OtherKeysIgnored(expanded: bool, key: string)
    requires !IsToggleKey(key)
    ensures ExpandedAfter(expanded, [KeyDown(key)]) == expanded
  {
  }

  /** On an expandable summary, `aria-expanded` is "true" exactly when the full text is shown. */
  lemma AriaTracksText(expanded: bool, fullText: string, currentText: string)
    requires Expandable(Some(fullText), currentText)
    ensures Shown(expanded, fullText, currentText).ariaExpanded == "true"
        <==> Shown(expanded, fullText, currentText).text == fullText
    ensures Shown(expanded, fullText, currentText).ariaExpanded == "true" <==> expanded
  {
    if !expanded {
      assert |Shown(expanded, fullText, currentText).text| < |fullText|;
    }
  }

  /**
   * A `.summary-text` element. `listening` is whether the click and keydown
   * handlers were installed; `isExpanded`, `fullText` and `currentText` are the
   * variables those handlers close over.
   */
  class SummaryElement {
    var textContent: string
    var title: string
    var ariaExpanded: Option<string>
    var role: Option<string>
    var tabIndex: Option<string>
    var cursor: string
    const fullTextAttr: Option<string>

    var listening: bool
    var isExpanded: bool
    var fullText: string
    var currentText: string

    /** Once the handlers are installed, what the element shows follows the expansion state. */
    ghost predicate Valid()
      reads this
    {
      listening ==>
        Expandable(Some(fullText), currentText) && fullTextAttr == Some(fullText) && ariaExpanded.Some? &&
        Presentation(textContent, title, ariaExpanded.value) == Shown(isExpanded, fullText, currentText)
    }

    constructor (text: string, title: string, fullTextAttr: Option<string>)
      ensures Valid() && !listening && !isExpanded
      ensures textContent == text && this.title == title && this.fullTextAttr == fullTextAttr
      ensures ariaExpanded.None? && role.None? && tabIndex.None? && cursor == ""
    {
      textContent, this.title, this.fullTextAttr := text, title, fullTextAttr;
      ariaExpanded, role, tabIndex, cursor := None, None, None, "";
      listening, isExpanded, fullText, currentText := false, false, "", "";
    }

    /** The body of the `forEach` in `setupExpandableSummaries`, for this element. */
    method Setup()
      requires !listening
      modifies this
      ensures Valid()
      ensures listening == Expandable(fullTextAttr, old(textContent))
      ensures listening ==>
        !isExpanded && Some(fullText) == fullTextAttr && currentText == old(textContent) &&
        textContent == old(textContent) && title == ExpandTitle && ariaExpanded == Some("false") &&
        role == Some("button") && tabIndex == Some("0") && cursor == "pointer"
      ensures !listening ==> unchanged(this)
    {
      if fullTextAttr.Some? && fullTextAttr.value != "" && |fullTextAttr.value| > |textContent| {
        fullText, currentText := fullTextAttr.value, textContent;
        cursor := "pointer";
        title := ExpandTitle;
        tabIndex := Some("0");
        role := Some("button");
        ariaExpanded := Some("false");
        isExpanded := false;
        listening := true;
      }
    }

    /** The `toggleExpansion` closure. */
    method ToggleExpansion()
      requires Valid() && listening
      modifies this`textContent, this`title, this`ariaExpanded, this`isExpanded
      ensures Valid()
      ensures isExpanded == !old(isExpanded)
      ensures Presentation(textContent, title, ariaExpanded.value) == Shown(!old(isExpanded), fullText, currentText)
    {
      if !isExpanded {
        textContent := fullText;
        title := CollapseTitle;
        ariaExpanded := Some("true");
        isExpanded := true;
      } else {
        textContent := currentText;
        title := ExpandTitle;
        ariaExpanded := Some("false");
        isExpanded := false;
      }
    }

    /** A click on the element: it toggles when the handlers are installed. */
    method OnClick()
      requires Valid()
      modifies this`textContent, this`title, this`ariaExpanded, this`isExpanded
      ensures Valid()
      ensures isExpanded == (if listening then ExpandedAfter(old(isExpanded), [Click]) else old(isExpanded))
      ensures !listening ==> unchanged(this)
    {
      if listening {
        ToggleExpansion();
      }
    }

    /** A key pressed on the element: Enter and Space toggle and cancel the default action. */
    method OnKeyDown(key: string) returns (defaultPrevented: bool)
      requires Valid()
      modifies this`textContent, this`title, this`ariaExpanded, this`isExpanded
      ensures Valid()
      ensures defaultPrevented == (listening && IsToggleKey(key))
      ensures isExpanded == (if listening then ExpandedAfter(old(isExpanded), [KeyDown(key)]) else old(isExpanded))
      ensures !defaultPrevented ==> unchanged(this)
    {
      defaultPrevented := false;
      if listening && (key == "Enter" || key == " ") {
        defaultPrevented := true;
        ToggleExpansion();
      }
    }
  }

  /** `setupExpandableSummaries`: runs the setup on every `.summary-text` element of the page. */
  method SetupExpandableSummaries(elements: seq<SummaryElement>)
    requires forall i, j :: 0 <= i < j < |elements| ==> elements[i] != elements[j]
    requires forall e :: e in elements ==> !e.listening
    modifies set e | e in elements
    ensures forall e :: e in elements ==>
      e.Valid() && e.textContent == old(e.textContent) &&
      e.listening == Expandable(e.fullTextAttr, old(e.textContent)) &&
      (e.listening ==> !e.isExpanded && e.currentText == old(e.textContent) &&
                       e.title == ExpandTitle && e.ariaExpanded == Some("false") &&
                       e.role == Some("button") && e.tabIndex == Some("0") && e.cursor == "pointer") &&
      (!e.listening ==> unchanged(e))
  {
    var i := 0;
    while i < |elements|
      invariant 0 <= i <= |elements|
      invariant forall j :: 0 <= j < i ==>
        var e := elements[j];
        e.Valid() && e.textContent == old(e.textContent) &&
        e.listening == Expandable(e.fullTextAttr, old(e.textContent)) &&
        (e.listening ==> !e.isExpanded && e.currentText == old(e.textContent) &&
                         e.title == ExpandTitle && e.ariaExpanded == Some("false") &&
                         e.role == Some("button") && e.tabIndex == Some("0") && e.cursor == "pointer") &&
        (!e.listening ==> unchanged(e))
      invariant forall j :: i <= j < |elements| ==> unchanged(elements[j])
    {
      elements[i].Setup();
      i := i + 1;
    }
  }
}
