/**
 * `RSSFeedReader.updateRelativeTimes`: every `.update-time` element that has a
 * `data-timestamp` attribute gets its text rewritten to the relative time of
 * that timestamp.
 */
module TimeRefresh {
  import opened Wrappers
  import opened RelativeTime

  /** An `.update-time[data-timestamp]` element: its text and its timestamp attribute. */
  class TimeElement {
    var textContent: string
    const timestamp: string

    constructor (text: string, timestamp: string)
      ensures textContent == text && this.timestamp == timestamp
    {
      textContent, this.timestamp := text, timestamp;
    }
  }

  /** The element shows the relative time of its timestamp, when it has one. */
  predicate Refreshed(e: TimeElement, nowMs: int, parseDate: string -> Option<int>)
    reads e
  {
    e.timestamp != "" ==> e.textContent == FormatRelativeTime(nowMs, parseDate(e.timestamp))
  }

  /**
   * Rewrites the text of every element with a non-empty timestamp; an empty
   * timestamp is falsy and leaves its element alone. `parseDate` stands for
   * `new Date(timestamp)` (`None` for an Invalid Date) and `nowMs` for the clock.
   */
  method UpdateRelativeTimes(elements: seq<TimeElement>, nowMs: int, parseDate: string -> Option<int>)
    modifies set e | e in elements
    ensures forall e :: e in elements ==>
      e.textContent == if e.timestamp != "" then FormatRelativeTime(nowMs, parseDate(e.timestamp))
                       else old(e.textContent)
  {
    var i := 0;
    while i < |elements|
      invariant 0 <= i <= |elements|
      invariant forall e :: e in elements[..i] ==> Refreshed(e, nowMs, parseDate)
      invariant forall e :: e in elements && e !in elements[..i] ==> e.textContent == old(e.textContent)
      invariant forall e :: e in elements && e.timestamp == "" ==> e.textContent == old(e.textContent)
    {
      var e := elements[i];
      if e.timestamp != "" {
        e.textContent := FormatRelativeTime(nowMs, parseDate(e.timestamp));
      }
      assert elements[..i + 1] == elements[..i] + [e];
      i := i + 1;
    }
    assert elements[..i] == elements;
  }
}
