# RSS feed reader page controller, modelled in Dafny

The feed reader's page script (`RSSFeedReader` in `app.js`) is mostly DOM
wiring. This project models the three parts of it that follow a rule:

- **Relative times** (`RelativeTime`). `formatRelativeTime` turns the time
  elapsed since a timestamp into "Just now", "N minute(s) ago", "N hour(s) ago"
  or "N day(s) ago". The model splits this into three steps:
  - `ElapsedMinutes` floors the millisecond difference to whole minutes.
  - `Classify` picks the bucket and the count.
  - `Render` spells the label out.

  `ParseLabel` reads a label back from its text. It is the partner of
  `Render`: the two are proved to be inverse, so the displayed text fixes the
  bucket and the number. A timestamp that is an Invalid Date makes every
  comparison on NaN false, so the source falls through to the day branch and
  shows "NaN day ago". The model keeps this case as the label `NotANumber`.
- **Expandable summaries** (`Summaries`). The model has three parts:
  - `SummaryElement` is a `.summary-text` element together with the variables
    that its click and keydown handlers close over.
  - `Setup` is the per-element body of `setupExpandableSummaries`. It installs
    the handlers only when the full text is longer than the shown text.
  - `ToggleExpansion`, `OnClick` and `OnKeyDown` are the handlers.

  The class invariant `Valid` ties the text, `title` and `aria-expanded` to the
  state through the pure function `Shown`. `ExpandedAfter` gives the state after
  any run of events, and `ExpandedAfterAppend` lets the handlers' one-event
  contracts chain into such runs.
- **Relative-time refresh** (`TimeRefresh`). `UpdateRelativeTimes` is the loop
  that rewrites the text of every `.update-time[data-timestamp]` element in
  place.
- **Keyboard shortcuts** (`Shortcuts`). `Dispatch` is the document `keydown`
  handler reduced to its decision. It returns the action (refresh, scroll to
  top, show help, hide help or nothing) and whether the default is prevented.

Date parsing and the clock are inputs. `nowMs` is the current time in
milliseconds. The parsed timestamp is an `Option<int>` of milliseconds, with
`None` for an Invalid Date. In `UpdateRelativeTimes` a function parameter
`parseDate` stands for `new Date(timestamp)`.

## Model

| member | source | states |
|---|---|---|
| `RelativeTime.ElapsedMinutes` | RssReader/feed_reader/static/feed_reader/js/app.js:81-83 | the elapsed minutes are the floor of the millisecond difference divided by 60000; an Invalid Date gives NaN |
| `RelativeTime.Classify` | RssReader/feed_reader/static/feed_reader/js/app.js:85-95 | the four buckets partition all elapsed times. "Just now" holds exactly below 1 minute, negative values included. Minutes hold for 1..59 and show the count itself. Hours hold for 60..1439 and show a count in 1..23. Days hold from 1440 on. Each count is the elapsed time in whole units rounded down, and it is at least 1. NaN gives the NaN label |
| `RelativeTime.NatToString` | RssReader/feed_reader/static/feed_reader/js/app.js:88-94 | a count is written as a decimal numeral without leading zeros whose value is the count |
| `RelativeTime.NumeralRoundTrip` | RssReader/feed_reader/static/feed_reader/js/app.js:88-94 | every decimal numeral without leading zeros is the numeral of its own value |
| `RelativeTime.FormatRelativeTime` | RssReader/feed_reader/static/feed_reader/js/app.js:80-96 | the text returned reads back as the bucket of the elapsed time |
| `RelativeTime.Render` | RssReader/feed_reader/static/feed_reader/js/app.js:85-95 | only the JustNow label reads "Just now", and a count label ends in "s ago" exactly when its count is above one; its partner `ParseLabel` reads every label back (`ParseLabelIff`) |
| `RelativeTime.ParseRender` | RssReader/feed_reader/static/feed_reader/js/app.js:85-95 | every label the page can show is recovered from its text |
| `RelativeTime.RenderParse` | RssReader/feed_reader/static/feed_reader/js/app.js:85-95 | any text that reads back as a label is exactly that label's text |
| `RelativeTime.ParseLabelIff` | RssReader/feed_reader/static/feed_reader/js/app.js:85-95 | a text reads back as a label if and only if it is that label's rendering, so distinct labels never share a text |
| `RelativeTime.NinetyMinutesIsOneHour` | RssReader/feed_reader/static/feed_reader/js/app.js:89-91 | a timestamp 90 minutes in the past shows "1 hour ago" |
| `Summaries.AriaTracksText` | RssReader/feed_reader/static/feed_reader/js/app.js:47-66 | on an expandable summary `aria-expanded` is "true" exactly when the full text is shown, and exactly when it is expanded |
| `Summaries.Shown` | RssReader/feed_reader/static/feed_reader/js/app.js:56-66 | in each state `aria-expanded` says whether the summary is expanded, the title names what a click will do, and the text is the full or the original text |
| `Summaries.ExpandedAfter` | RssReader/feed_reader/static/feed_reader/js/app.js:54-75 | after any run of clicks and key presses the closure's `isExpanded` is flipped exactly when the run toggled an odd number of times |
| `Summaries.ExpandedAfterAppend` | RssReader/feed_reader/static/feed_reader/js/app.js:54-75 | handling two runs of events one after the other is handling their concatenation, so the parity rule applies to any sequence of handler calls |
| `Summaries.EvenTogglesRestore` | RssReader/feed_reader/static/feed_reader/js/app.js:55-75 | any run with an even number of toggles, two toggles included, restores the original text, title and `aria-expanded` |
| `Summaries.OtherKeysIgnored` | RssReader/feed_reader/static/feed_reader/js/app.js:70-75 | a key other than Enter or Space leaves the expansion state alone |
| `Summaries.SummaryElement.Setup` | RssReader/feed_reader/static/feed_reader/js/app.js:44-54 | handlers are installed exactly when `data-full-text` is present, non-empty and longer than the shown text. The element then starts collapsed with its own text, title "Click to expand", `aria-expanded` "false", role "button", tabindex "0" and a pointer cursor. Otherwise nothing changes |
| `Summaries.SummaryElement.ToggleExpansion` | RssReader/feed_reader/static/feed_reader/js/app.js:55-67 | the state flips, and the text, title and `aria-expanded` become those of the new state |
| `Summaries.SummaryElement.OnClick` | RssReader/feed_reader/static/feed_reader/js/app.js:69 | a click toggles an element that has handlers and changes nothing otherwise |
| `Summaries.SummaryElement.OnKeyDown` | RssReader/feed_reader/static/feed_reader/js/app.js:70-75 | only Enter or Space, on an element with handlers, toggles and prevents the default; any other key changes nothing |
| `Summaries.SetupExpandableSummaries` | RssReader/feed_reader/static/feed_reader/js/app.js:42-78 | after the loop every summary satisfies its invariant and keeps its text. It has handlers exactly when it is expandable. An expandable one starts collapsed, with title "Click to expand", `aria-expanded` "false", role "button", tabindex "0" and a pointer cursor. Any other element is left untouched |
| `TimeRefresh.UpdateRelativeTimes` | RssReader/feed_reader/static/feed_reader/js/app.js:104-111 | every element with a non-empty timestamp shows the relative time of that timestamp; elements with an empty timestamp keep their text; no other object changes |
| `Shortcuts.ToLower` | RssReader/feed_reader/static/feed_reader/js/app.js:206 | lower-casing keeps the length and lowers each character |
| `Shortcuts.ToLowerEquals` | RssReader/feed_reader/static/feed_reader/js/app.js:206 | a key lowers to a word exactly when it spells that word in some mix of cases |
| `Shortcuts.SingleLetterKeys` | RssReader/feed_reader/static/feed_reader/js/app.js:207-224 | a one-letter shortcut is matched by its lower- and upper-case letter only |
| `Shortcuts.Dispatch` | RssReader/feed_reader/static/feed_reader/js/app.js:199-229 | a target of INPUT or TEXTAREA gives no action. Otherwise r, t and h in either case give Refresh, ScrollToTop and ShowHelp exactly when neither Ctrl nor Meta is held. "Escape" in any case gives HideHelp whatever the modifiers. Every other key gives nothing. The default is prevented exactly for the first three |
| `Shortcuts.ShortcutExamples` | RssReader/feed_reader/static/feed_reader/js/app.js:202-227 | "R" refreshes, Ctrl+r does nothing, Escape closes the help under any modifiers, and "h" typed into an INPUT does nothing |

## Left out

- Date parsing and the clock (`new Date(...)`, app.js:81-82) are inputs, as described above.
- `UpdateRelativeTimes` reads one `nowMs` for the whole pass. The source calls `new Date()` once per element, so the clock may move during a pass.
- `ElapsedMinutes` uses exact integer arithmetic in place of IEEE-754 doubles. The two agree whenever the difference is below 2^53 ms. A valid JavaScript date lies within ±8.64e15 ms, so a difference beyond that bound is possible only between the extreme ends of the date range.
- `NatToString` writes every count as plain decimal digits. JavaScript switches to exponent notation at 1e21. Counts from valid dates stay below about 3e11, so that switch is never reached.
- `Shortcuts.ToLower` lowers only A to Z. JavaScript's `toLowerCase` covers all of Unicode. The only non-ASCII characters it lowers to ASCII letters give "k" or "i" followed by a combining dot, and neither appears in "r", "t", "h" or "escape". So the action chosen is the same.
- Text lengths are counted in Dafny characters. JavaScript counts UTF-16 code units, so the two differ for characters outside the Basic Multilingual Plane.
- `SummaryElement.Setup` requires handlers not yet installed. The source runs `setupExpandableSummaries` once per page. A second run would stack handlers, and that case is not modelled.
- The page elements are objects with only the fields listed above. Styles other than the cursor, event objects and listener registration are not modelled.
- The current-time display uses `toLocaleTimeString` (app.js:119-130), a locale library call. It is not modelled.
- Timers are not modelled: the minute ticks, the five-minute auto-refresh, `destroy` and the staggered animations (app.js:98-102, 113-117, 132-137, 171-197, 347-351). They are event-loop scheduling.
- The effects of the chosen shortcut are not modelled: the page reload, scrolling, the loading spinner, console output, performance timing and the service-worker stub (app.js:139-169, 338-344, 374-382).
- The help modal's markup and its insertion and removal are not modelled (app.js:281-335). Neither are skip links, ARIA labels on titles or focus management (app.js:232-279). They are DOM construction with no rule to state.
- `views.py` is not part of this model. It is a Django view over feed parsing, caching and hashing libraries.
