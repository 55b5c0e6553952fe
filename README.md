# nse-dhan-automation: a verified model of the grid updater

`main.py` fetches the NSE "volume gainers / spurts" table with one browser. It then drives a
second browser, logged in to Dhan's TradingView page (tv.dhan.co), that shows the
ranked symbols in a grid of 4 pages × 6 chart iframes. This project models that
core:

- **Symbol fetch** (`NSEFetcher.get_top_symbols`). It makes up to three attempts
  and scans the table rows for the first token of each first cell, stopping at
  the limit. A failed attempt is retried, and the result is `[]` after three
  failures. Modules `Fetcher` and `Text`.
- **Slot allocation.** Symbols are split into chunks of six, padded with empty
  chunks up to four pages. Symbol `k` goes to frame `chart-frame-{k/6}-{k%6}`.
  Module `Allocation`.
- **Grid document** (`init_grid`). The tab bar and the 24 iframes come in three
  states:
  - live on page 1;
  - pending behind `data-pending-src` on pages 2–4;
  - blank when unoccupied.

  The injected scripts are `loadTab` (staggered timers, 300 ms per slot),
  `showTab` and `updateChart`. Modules `Layout` and `GridDocument`.
- **Hotkey filter.** The injected `keydown` listener blocks `f`, and `s`/`b`
  with Shift, except in an `INPUT`. Symbols are typed in lower case. Module
  `KeyFilter`.
- **`DhanGrid`** (`is_initialized`, the document's frame, page and button
  arrays, pending timers) and its operations `update_charts` and `cleanup_ui`.
  Module `Grid`.
- **One pass of `main()`'s loop.** It fetches at most 30 symbols, drops the
  first and keeps the next 24 when there is more than one, updates the grid unless nothing was fetched, and stops when
  the browser is gone. Module `MainLoop`.

Browser, driver and network outcomes are parameters of the model:

- the page load of each fetch attempt (`PageLoad`);
- whether `document.write` succeeded;
- what became of each tab switch (`TabSwitch`) and each slot's typing
  (`SlotOutcome`);
- which frames `cleanup_ui` reached;
- whether the liveness probes succeeded.

The driver's effects on the charts are returned as a trace of `Action`s: filter
installed, text typed, toolbar hidden. The JavaScript functions of the written
document are pure functions on a `Doc` value (`GridDocument`), and the
`DhanGrid` class changes its arrays exactly as those functions say.

## Behaviour as written

Where the code's behaviour is surprising, the model follows the code. Two of
these points qualify the code's own comments. The comment at `main.py:160` says
`updateChart` handles pending frames, yet a timer already scheduled overrides it.
The comment at `main.py:321` keeps plain letters usable for typing to search, yet
`f` is still swallowed.

- **No same-symbol skip.** `update_charts` never calls `updateChart`. It clicks
  each non-empty page's tab and types into every occupied frame on every cycle,
  even when the frame already shows that symbol. The only same-symbol no-op is
  inside `updateChart` (`GridDocument.UpdateChart`, `UpdateChartIdempotent`),
  and the Python code never reaches it.
- **Every frame is built on the NIFTY chart.** Every occupied frame is built on
  the generic NIFTY chart source (`SlotTag`, `Written`). A frame's symbol comes
  only from typing.
- **`cleanup_ui` visits all 24 frames**, occupied or not (`CleanupActions`).
- **The filter exempts only `INPUT` targets.** The filter exempts only targets
  whose tag is `INPUT`, and it blocks `f` everywhere else. Any keystroke of a
  typed symbol whose target is not an `INPUT` is swallowed when it is an `f`
  (`TypedKeystrokeBlocked`). The keystrokes go to whatever element has the focus
  after the updater's click on the first canvas (or on the body when the frame
  has no canvas). Whether that element, or a later one, is an `INPUT` depends on
  the chart widget.
- **A timer keeps the source it was scheduled with.** A `loadTab` timer captures
  the pending source when it is scheduled. A later `updateChart` on that frame is
  overwritten when the timer fires (`StaleTimerOverridesUpdate`).
- **Timers may be scheduled twice.** Each tab button is clicked twice, so a
  pending frame can be scheduled twice. This happens unless its timer fires
  between the two clicks, which the zero-delay timer of slot 0 can do. A second
  firing leaves every attribute of the frame as the first left it
  (`FireDuplicate`). The browser still reloads the chart, because `src` is
  assigned again.
- **A limit below 1 still yields one symbol**, because the limit is checked only
  after a symbol is appended (`Quota`, `YieldBound`).
- **A blank first cell fails the whole attempt.** The first cell of a data row
  that is empty or blank makes `split()[0]` raise, so the whole attempt fails and
  is retried. The scan aborts exactly when it reaches such a row before the limit
  (`BlankReachedAborts`, `ScanAbortsOnlyOnBlankCell`). Once the limit is reached
  the loop breaks, so a blank cell further down is never read
  (`LimitReachedFirst`, `BlankAfterLimitIgnored`). Rows without `td` cells are
  skipped.
- **Frames built blank stay blank.** `init_grid` runs once. A slot that had no
  symbol at that first update keeps its blank frame, with nothing pending,
  through that update and the next. The next cycle, if it has more symbols,
  still types into it (`BuiltBlankStaysBlank`).
- **The top-ranked symbol is never shown** when more than one symbol was fetched
  (`Trim`, `TrimmedTyping`).

## Model

| member | source | states |
|---|---|---|
| Text.Lower | main.py:305 | `str.lower()` on a symbol: same length, and each character is lower-cased pointwise |
| Text.LowerIdempotent | main.py:305 | lower-casing twice is lower-casing once |
| Text.LowerFixesExactlyLowercase | main.py:305 | a string is unchanged by lower-casing iff it has no capital letter |
| Text.FirstToken | main.py:77 | `split()` has no first element (the `[0]` raises) iff the cell text is all whitespace |
| Text.FirstTokenShape | main.py:77 | the first token is non-empty and whitespace-free, preceded only by whitespace, and followed by whitespace or the end |
| Allocation.Chunks | main.py:194 | the number of chunks is ⌈n/6⌉ |
| Allocation.ChunksFlatten | main.py:194 | concatenating the chunks gives back the symbol list |
| Allocation.ChunkSizes | main.py:194 | every chunk holds 1 to 6 symbols, and all but the last hold exactly 6 |
| Allocation.ChunkContents | main.py:194 | chunk p holds symbols 6p, 6p+1, … in order, and as many as remain up to 6 |
| Allocation.Padded | main.py:195 | padding gives at least 4 chunks, keeps the existing ones, and adds only empty chunks |
| Allocation.Pad | main.py:195 | the `while len(chunks) < 4` loop computes `Padded` |
| Allocation.Allocate | main.py:194-195 | the chunked and padded symbol list that both `init_grid` and `update_charts` compute; its meaning is stated by `AllocateSlot`, `AllocatePageEmpty` and `AllocateBounded` |
| Allocation.AllocateSlot | main.py:194-203 | slot s of page p is occupied iff 6p+s < n, and then it holds symbol 6p+s |
| Allocation.AllocatePageEmpty | main.py:282-287 | page p's chunk is empty (and the page skipped) iff n ≤ 6p |
| Allocation.AllocateBounded | main.py:194-195 | there are at least 4 chunks, and none holds more than 6 symbols |
| Allocation.FrameIndex | main.py:202 | frame (page, slot) has index 6·page + slot < 24, from which page and slot are recovered |
| Allocation.ParseFrameId | main.py:162-163 | an id that `getElementById` resolves to a frame is `chart-frame-{k/6}-{k%6}` for some k < 24 |
| Allocation.FrameId | main.py:202 | `f"chart-frame-{i}-{slot_idx}"`; stated by `FrameIdRoundTrip`, `FrameIdInjective` and `IdsDistinct` |
| Allocation.FrameIdRoundTrip | main.py:162-163 | looking up a built frame id finds that frame |
| Allocation.FrameIdInjective | main.py:202 | distinct (page, slot) pairs get distinct frame ids |
| Layout.ButtonId | main.py:190 | `f"btn-{i}"`; its ids are distinct from each other and from page and frame ids (`IdsDistinct`) |
| Layout.TabId | main.py:199 | `f"tab-{i}"`; its ids are distinct from each other and from button and frame ids (`IdsDistinct`) |
| Layout.PageLabel | main.py:190 | the caption `f"PAGE {i+1}"`, built into every button by `BuildButtons` |
| Layout.SlotTag | main.py:203-214 | an occupied slot on page 1 is live on the NIFTY chart; on pages 2–4 it is blank, pending the NIFTY chart; an unoccupied slot is blank with nothing pending |
| Layout.BuildButtons | main.py:186-191 | 4 buttons `btn-i` labelled `PAGE i+1`, only the first active, and button i runs `showTab(i)` |
| Layout.BuildPages | main.py:193-216 | 4 pages `tab-i`, only the first active, each holding its 6 frames in slot order with the tag `SlotTag` gives |
| Layout.BuildMarkup | main.py:186-216 | 4 buttons `btn-i` labelled `PAGE i+1`, only the first active, button i running `showTab(i)`; 4 pages `tab-i`, only the first active, each holding its 6 frames in slot order with the tag `SlotTag` gives |
| Layout.IdsDistinct | main.py:190-202 | button, page and frame ids never collide, and each kind is distinct per index |
| KeyFilter.Blocked | main.py:316-333 | the `keydown` listener's decision; stated key by key by `BlockedExactly` |
| KeyFilter.BlockedExactly | main.py:316-333 | a key event is blocked iff its target is not an `INPUT` and the key is `f`/`F`, or Shift is held and the key is `s`, `S`, `b` or `B` |
| KeyFilter.Keystrokes | main.py:353-354 | the keydowns spell the typed text, one per character, all on one target; a keydown holds Shift exactly when lower-casing changes its key |
| KeyFilter.TypedText | main.py:303-305 | the typed text has the symbol's length and no capital letter |
| KeyFilter.TypedKeystrokeBlocked | main.py:305-333 | no typed keystroke carries Shift; one is blocked iff the target is not an `INPUT` and the character is `f` |
| KeyFilter.LowercasingAvoidsTradeKeys | main.py:304-327 | typing `SBIN` as written would send Shift+S and be blocked; typing `sbin` is not blocked |
| KeyFilter.EnterPasses | main.py:356 | the Enter that confirms the search is never blocked |
| GridDocument.Armed | main.py:139-140 | the `if(pending)` test on `data-pending-src`; used by `ScheduleExactly` |
| GridDocument.Schedule | main.py:137-147 | the timers `loadTab` schedules; stated timer by timer by `ScheduleExactly`, `ScheduleInRange` and `SchedulePrefix` |
| GridDocument.ScheduleExactly | main.py:134-148 | `loadTab(p)` schedules a timer for slot i of page p iff that frame has a non-empty pending source; the delay is 300·i and the timer carries the pending source as it was then |
| GridDocument.LoadTab | main.py:134-148 | `loadTab` changes no frame and no class; for a page it appends exactly that page's `Schedule` (characterised by `ScheduleExactly`), and it does nothing for a missing container |
| GridDocument.ShowTab | main.py:150-158 | after `showTab(i)` exactly page i and button i are active and page i's pending frames are scheduled (`Schedule`); an unknown index leaves nothing active; frames are untouched |
| GridDocument.UpdateChart | main.py:161-175 | a pending frame gets a new pending target; a loaded frame on another symbol is reloaded on the new one; a frame already on the symbol, or an unknown id, is left alone; other frames and the classes are untouched |
| GridDocument.UpdateChartIdempotent | main.py:161-175 | applying `updateChart` twice with the same arguments equals applying it once |
| GridDocument.Fire | main.py:142-145 | a firing timer loads its captured source into its frame, drops the pending marker and is consumed; other frames and the classes are untouched |
| GridDocument.FireDuplicate | main.py:142-145 | firing a duplicate of a timer that already fired changes no frame attribute |
| GridDocument.Written | main.py:181-221 | the written document: page 1 active; page-1 occupied frames live on NIFTY; later occupied frames pending; unoccupied frames blank; no timers |
| GridDocument.WrittenFirstPageNotPending | main.py:177-178 | the `loadTab(0)` run by the written script schedules nothing, because page 1 has no pending frame |
| GridDocument.SchedulePrefix | main.py:138-147 | the timers for the first m slots are a prefix of those for the first n ≥ m slots |
| GridDocument.StaleTimerOverridesUpdate | main.py:139-145 | after page 2 is shown, an `updateChart` on its first frame is overwritten when the scheduled timer fires: the frame loads the NIFTY source while its symbol names the new one |
| GridDocument.SevenSymbolGrid | main.py:194-214 | seven symbols give six live frames on page 1, one pending frame on page 2 (scheduled with no delay when page 2 is shown), and seventeen blank frames |
| Grid.DhanGrid.constructor | main.py:98-114 | a new grid is not initialized |
| Grid.DhanGrid.LoadTab | main.py:134-148 | the document becomes `GridDocument.LoadTab` of the old one |
| Grid.DhanGrid.ShowTab | main.py:150-158 | the document becomes `GridDocument.ShowTab` of the old one; `ok` says whether the index named a page |
| Grid.DhanGrid.UpdateChart | main.py:161-175 | the document becomes `GridDocument.UpdateChart` of the old one |
| Grid.DhanGrid.Fire | main.py:142-145 | the document becomes `GridDocument.Fire` of the old one |
| Grid.DhanGrid.InitGrid | main.py:118-228 | a successful write makes the document `Written(symbols)` and sets `is_initialized`; a failed write changes nothing |
| Grid.DhanGrid.CleanupUi | main.py:230-269 | the toolbar is hidden in exactly the reachable frames among all 24, in frame order |
| Grid.DhanGrid.TurnPage | main.py:285-307 | a page with symbols gets `showTab` once per successful click, then its slot actions; an empty page is skipped |
| Grid.DhanGrid.TypePage | main.py:300-368 | the actions of a page's slots, in slot order, up to the chunk's length |
| Grid.DhanGrid.UpdateCharts | main.py:271-372 | builds the grid first if not initialized (a failed build aborts with no change); then the document has gone through the tab switches of every non-empty page; the trace is the typing actions followed by the cleanup |
| Grid.Clicks | main.py:292-294 | how many of the two `click()` calls ran `showTab`: 2, 1 when the second raised, 0 otherwise; used by `TurnPage` and `SwitchPagesKeepsOneActive` |
| Grid.ShowRepeatedly | main.py:292-294 | `showTab(page)` run once per click; stated by `ShowRepeatedlyActive` |
| Grid.SlotActions | main.py:309-366 | one slot's actions: none when the frame is unreachable, the filter only when typing failed, the filter then the typed text otherwise; stated by `PageActionsExactly` |
| Grid.PageActions | main.py:300-368 | the actions of a page's slots in slot order; stated by `PageActionsExactly` and `PageActionsTargets` |
| Grid.SlotsUsed | main.py:300-301 | the slots the loop visits, `range(6)` cut at the chunk's end; `TypePage` is proved against it |
| Grid.PageTurn | main.py:285-298 | a page's actions: none for an empty chunk or a failed tab switch; stated by `UpdateActionsExactly` and checked by `TurnPage` |
| Grid.SwitchPages | main.py:285-298 | the document after the tab clicks of an update; stated by `SwitchPagesKeepsOneActive` |
| Grid.UpdateActions | main.py:285-368 | the typing trace of an update; stated by `UpdateActionsExactly`, `UpdateActionsTargets` and `UpdateTraceShape` |
| Grid.CleanupActions | main.py:253-268 | the trace of `cleanup_ui`; stated by `CleanupExactly` |
| Grid.BuiltBlankStaysBlank | main.py:285-357 | a frame with no symbol at the first update stays blank, with nothing pending, through that update and a later one; a later update with a symbol for it types into it |
| Grid.CleanupExactly | main.py:253-268 | the cleanup trace sanitizes frame k iff k < 24 and frame k was reachable, only sanitizes, and visits frames in increasing order |
| Grid.PageActionsTargets | main.py:300-307 | a page's actions name only its own frames, in non-decreasing slot order |
| Grid.PageActionsExactly | main.py:300-368 | on a page, the filter is installed in frame k iff k's slot is occupied and reachable; text is typed iff typing succeeded, and the text is the lower-cased symbol |
| Grid.UpdateActionsTargets | main.py:285-307 | the typing trace names frames below 24 in page-major, slot-minor order |
| Grid.UpdateActionsExactly | main.py:282-368 | over a whole update, the filter goes into frame k iff k < n, page k/6's tab switch succeeded and frame k was reachable; `Typed(k, t)` appears iff typing succeeded too and t is symbol k lower-cased |
| Grid.UpdateTraceShape | main.py:285-371 | every typed frame holds a symbol; typing goes in frame order; all sanitizing comes after all typing |
| Grid.SwitchPagesKeepsOneActive | main.py:285-298 | after the tab clicks exactly one page is active: the last non-empty page whose tab was clicked, or the one shown before |
| Grid.ShowRepeatedlyActive | main.py:293-294 | clicking a tab twice leaves that page active, like clicking it once |
| Fetcher.DataRows | main.py:73 | `find_all("tr")[1:]`; that dropping the first row is all it does to an attempt is stated by `HeaderIgnored` |
| Fetcher.HeaderIgnored | main.py:73 | the table's first row, the header, has no effect on what an attempt yields |
| Fetcher.ScanRows | main.py:74-80 | the row scan: skip rows without cells, abort on a blank first cell, stop once the limit is reached; its meaning is stated by `ScanIsTakeOfTokens`, `BlankReachedAborts`, `ScanAbortsOnlyOnBlankCell`, `LimitReachedFirst` and `ScanBound` |
| Fetcher.ScrapeTable | main.py:72-80 | the row loop computes the scan `ScanRows` of the data rows |
| Fetcher.ScanIsTakeOfTokens | main.py:72-80 | without blank cells, the scan yields the first tokens of the cell-bearing rows, cut to the limit (at least one) |
| Fetcher.ScanAbortsOnlyOnBlankCell | main.py:74-80 | an attempt aborts only at a row whose first cell is all whitespace and which the scan reaches: every earlier row has a token or no cells, and they supply fewer tokens than the limit |
| Fetcher.LimitReachedFirst | main.py:79-80 | once earlier rows supply the tokens the limit asks for, the scan yields them and reads no later row, blank or not |
| Fetcher.BlankAfterLimitIgnored | main.py:79-80 | rows `["A"]` then a blank cell with limit 1 yield `["A"]`: the `break` comes before the blank row |
| Fetcher.BlankReachedAborts | main.py:74-80 | a row whose first cell is blank aborts the scan when the scan reaches it: every earlier row has a token or no cells, and they supply fewer tokens than the scan still takes |
| Fetcher.ScanBound | main.py:77-80 | a scan yields at most max(limit, 1) symbols, each a non-empty whitespace-free token |
| Fetcher.Yield | main.py:46-89 | one attempt yields nothing when the page load failed; on a found table it yields nothing exactly when the scan met a blank first cell or no data row has a cell |
| Fetcher.ScanNothing | main.py:72-83 | a scan with no blank cell yields nothing exactly when no data row has a cell (the "No symbols parsed" exception) |
| Fetcher.FirstYield | main.py:45-92 | the retry loop's result: empty iff every attempt yields nothing; otherwise the yield of the first attempt that yields something |
| Fetcher.Quota | main.py:79-80 | how many more symbols the scan takes: up to the limit, but at least one; used by `ScanIsTakeOfTokens` and `BlankReachedAborts` |
| Fetcher.YieldBound | main.py:72-86 | one attempt yields at most max(limit, 1) symbols |
| Fetcher.GetTopSymbols | main.py:43-92 | the result is the yield of the first successful attempt; it is empty iff all three attempts fail; it is bounded by the limit |
| MainLoop.Trim | main.py:409-411 | with more than one symbol, drop the first and keep at most 24; otherwise keep the list; the result is empty iff the input is |
| MainLoop.TrimmedTyping | main.py:407-412 | frame k is typed with the lower-cased symbol ranked k+1, and only when the tab switch and the slot succeed |
| MainLoop.Cycle | main.py:405-425 | nothing fetched: grid and trace unchanged, and the loop goes on iff the browser is alive; otherwise `update_charts` on the trimmed list, and a failed first build ends `main()` |

## Left out

- **Selenium, BeautifulSoup and the network** are not modelled:
  - page loads, waits and the `SYMBOL`-header table search are folded into `PageLoad`;
  - a table is given as the text of each row's cells;
  - `get_text(strip=True)` is taken as the given cell text.
- **`time.sleep` and the refresh interval** are not modelled, because timing is not part of the model. Timer delays are recorded. The order in which timers fire is chosen by the caller (`Fire(k)` for any k).
- **The CSS, the `preconnect` link and the HTML text itself** are not modelled. The markup is modelled as structured values (`Markup`, `Doc`).
- **`updateChart` on ids that name a button, a page or `custom-ui`**: the model treats such ids as unknown. It does not record the `data-symbol` attribute such a call would set on that element.
- **A failure of `switch_to.default_content()`** inside an `except` or `finally` is not modelled. The model assumes the switch back to the top document always succeeds.
- **Repeated hotkey listeners** are not modelled. Each injection adds another identical listener; the trace records one `FilterInstalled` per injection, and listeners are not counted.
- **No timer fires during `update_charts` in the model.** The caller fires timers (`Fire`) between calls. In the browser, timers fire during the sleeps inside `update_charts`, including between the two tab clicks.
- **Reloads are not modelled.** `Doc` records attributes only. Assigning an iframe's `src` again (a duplicate timer) reloads the chart in the browser, and the model does not record that reload.
- **Which element receives each keystroke** is not modelled. `TypedKeystrokeBlocked` is stated for a given target tag. The element that has the focus after the click, and after each keystroke, depends on the chart widget.
- **KeyFilter.Keystrokes: assumes `send_keys` holds Shift exactly for the capitals `A`–`Z`.** This is the driver's behaviour, not something derived from `main.py`.
- **The chart's own response to the typed symbol and Enter** is not modelled. The code does not observe it either.
- **`start`, `stop`, `close`, `check_console`, the login prompt, logging, `KeyboardInterrupt` and the outer exception handler of `main()`** are left out: they are driver lifecycle and I/O.
- **The endless `while True` loop** is modelled one pass at a time (`MainLoop.Cycle`). The 30 liveness probes are collapsed into one `alive` flag.
- **Text.Lower: lower-cases ASCII capitals only.** Python's `str.lower()` also maps non-ASCII capitals, and so does JavaScript's `toLowerCase()`. NSE symbols and key names are ASCII.
- **Text.IsSpace:** the whitespace set is that of Python's `str.isspace()`, listed by code point.
- **test_url_fix.py and debug_fetcher.py** are not part of this model; they are stand-alone scripts.
