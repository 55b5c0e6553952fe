/** The state of the injected grid document and the behaviour of the script
    that `init_grid` writes into it: `loadTab`, `showTab` and `updateChart`,
    and the firing of the timers `loadTab` schedules. Each is a function from
    the document before to the document after; the class DhanGrid performs the
    same steps in place. */
module GridDocument {
  import opened Wrappers
  import opened Allocation
  import opened Layout

  /** Delay between two staggered frame activations, in milliseconds. */
  const Stagger: nat := 300
  /** The source `updateChart` gives a frame: this prefix and the symbol. */
  const SymbolSrcPrefix := "https://tv.dhan.co/?symbol=NSE:"

  /** An iframe's `src`, its `data-pending-src` attribute and its
      `data-symbol` attribute (absent attributes are `None`). */
  datatype Frame = Frame(src: string, pendingSrc: Option<string>, symbol: Option<string>)

  /** A `setTimeout` callback that `loadTab` scheduled: `delay` milliseconds
      after scheduling it sets the frame's source to the pending source
      captured at scheduling time and removes the pending marker. */
  datatype Timer = Timer(delay: nat, frame: nat, src: string)

  /** The grid: 24 frames in page-major order, the `active-page` class of the
      four page containers, the `active` class of the four tab buttons, and
      the timers not yet fired. */
  datatype Doc = Doc(frames: seq<Frame>, pageActive: seq<bool>, buttonActive: seq<bool>, timers: seq<Timer>)

  predicate WellFormed(d: Doc)
  {
    |d.frames| == Capacity && |d.pageActive| == Pages && |d.buttonActive| == Pages
    && forall i :: 0 <= i < |d.timers| ==> d.timers[i].frame < Capacity
  }

  /** Page `n` (a valid page index or not) is the one visible page and its
      button the one highlighted button. */
  predicate OnlyActive(d: Doc, n: int)
    requires WellFormed(d)
  {
    forall j :: 0 <= j < Pages ==> d.pageActive[j] == (j == n) && d.buttonActive[j] == (j == n)
  }

  /** `seq` of four flags with only flag `n` set. */
  function Flags(n: int): (r: seq<bool>)
    ensures |r| == Pages && forall j :: 0 <= j < Pages ==> r[j] == (j == n)
  {
    seq(Pages, j => j == n)
  }

  /** `iframe.getAttribute('data-pending-src')` when it is truthy (present and
      not the empty string). */
  function Armed(f: Frame): Option<string>
  {
    if f.pendingSrc.Some? && f.pendingSrc.value != "" then f.pendingSrc else None
  }

  /** The timers `loadTab(page)` schedules for the first `n` frames of the
      page, in frame order. */
  function Schedule(frames: seq<Frame>, page: nat, n: nat): seq<Timer>
    requires |frames| == Capacity && page < Pages && n <= SlotsPerPage
  {
    if n == 0 then []
    else
      var k := FrameIndex(page, n - 1);
      Schedule(frames, page, n - 1)
      + match Armed(frames[k]) case Some(p) => [Timer((n - 1) * Stagger, k, p)] case None => []
  }

  /** `loadTab(page)` schedules a timer for a frame exactly when the frame is on
      that page, carries a pending source, and sits at slot i, where the timer
      fires after i * 300 ms with that pending source. */
  lemma {:induction false} ScheduleExactly(frames: seq<Frame>, page: nat, n: nat, t: Timer)
    requires |frames| == Capacity && page < Pages && n <= SlotsPerPage
    ensures t in Schedule(frames, page, n) <==>
      t.frame < Capacity && t.frame / SlotsPerPage == page && t.frame % SlotsPerPage < n
      && Armed(frames[t.frame]) == Some(t.src)
      && t.delay == (t.frame % SlotsPerPage) * Stagger
  {
    if n > 0 {
      ScheduleExactly(frames, page, n - 1, t);
    }
  }

  /** Timers only ever name frames of the grid. */
  lemma {:induction false} ScheduleInRange(frames: seq<Frame>, page: nat, n: nat)
    requires |frames| == Capacity && page < Pages && n <= SlotsPerPage
    ensures forall i :: 0 <= i < |Schedule(frames, page, n)| ==> Schedule(frames, page, n)[i].frame < Capacity
  {
    if n > 0 {
      ScheduleInRange(frames, page, n - 1);
    }
  }

  /** `window.loadTab(index)`: a missing container does nothing; otherwise the
      page's pending frames are scheduled. Frames are not touched until a
      timer fires. */
  function LoadTab(d: Doc, index: int): (r: Doc)
    requires WellFormed(d)
    ensures WellFormed(r)
    ensures r.frames == d.frames && r.pageActive == d.pageActive && r.buttonActive == d.buttonActive
    ensures |r.timers| >= |d.timers| && r.timers[..|d.timers|] == d.timers
    ensures 0 <= index < Pages ==> r.timers == d.timers + Schedule(d.frames, index, SlotsPerPage)
    ensures !(0 <= index < Pages) ==> r == d
  {
    if 0 <= index < Pages then
      ScheduleInRange(d.frames, index, SlotsPerPage);
      d.(timers := d.timers + Schedule(d.frames, index, SlotsPerPage))
    else d
  }

  /** `window.showTab(index)`: every page and button loses its active class;
      then page `index` and button `index` gain it and the page is loaded.
      When `index` names no page, `getElementById` yields null and the script
      throws after the classes were removed, leaving nothing active. */
  function ShowTab(d: Doc, index: int): (r: Doc)
    requires WellFormed(d)
    ensures WellFormed(r)
    ensures r.frames == d.frames
    ensures 0 <= index < Pages ==> OnlyActive(r, index)
    // the page's pending frames are scheduled, as `ScheduleExactly` states
    ensures 0 <= index < Pages ==> r.timers == d.timers + Schedule(d.frames, index, SlotsPerPage)
    ensures !(0 <= index < Pages) ==> r == d.(pageActive := Flags(-1), buttonActive := Flags(-1))
  {
    var cleared := d.(pageActive := Flags(-1), buttonActive := Flags(-1));
    if 0 <= index < Pages then LoadTab(cleared.(pageActive := Flags(index), buttonActive := Flags(index)), index)
    else cleared
  }

  /** `window.updateChart(id, symbol)`. */
  function UpdateChart(d: Doc, id: string, symbol: string): (r: Doc)
    requires WellFormed(d)
    ensures WellFormed(r)
    ensures r.pageActive == d.pageActive && r.buttonActive == d.buttonActive && r.timers == d.timers
    // an id that names no frame changes nothing
    ensures ParseFrameId(id).None? ==> r == d
    ensures ParseFrameId(id).Some? ==>
      var k := ParseFrameId(id).value;
      var f := d.frames[k];
      var src := SymbolSrcPrefix + symbol;
      // every other frame is left alone
      (forall j :: 0 <= j < Capacity && j != k ==> r.frames[j] == d.frames[j])
      // a pending frame keeps its blank source; only its pending target and symbol move
      && (f.pendingSrc.Some? ==> r.frames[k] == Frame(f.src, Some(src), Some(symbol)))
      // a loaded frame showing another symbol is reloaded on the new one
      && (f.pendingSrc.None? && f.symbol != Some(symbol) ==> r.frames[k] == Frame(src, None, Some(symbol)))
      // a loaded frame already showing the symbol is left alone
      && (f.pendingSrc.None? && f.symbol == Some(symbol) ==> r == d)
  {
    match ParseFrameId(id)
    case None => d
    case Some(k) =>
      var f := d.frames[k];
      var src := SymbolSrcPrefix + symbol;
      if f.pendingSrc.Some? then d.(frames := d.frames[k := f.(pendingSrc := Some(src), symbol := Some(symbol))])
      else if f.symbol != Some(symbol) then d.(frames := d.frames[k := f.(src := src, symbol := Some(symbol))])
      else d
  }

  /** Applying `updateChart` twice with the same arguments is applying it once. */
  lemma UpdateChartIdempotent(d: Doc, id: string, symbol: string)
    requires WellFormed(d)
    ensures UpdateChart(UpdateChart(d, id, symbol), id, symbol) == UpdateChart(d, id, symbol)
  {
  }

  /** The firing of timer `k`: its frame's source becomes the pending source
      captured when the timer was scheduled, the pending marker is removed,
      and the timer is gone. */
  function Fire(d: Doc, k: nat): (r: Doc)
    requires WellFormed(d) && k < |d.timers|
    ensures WellFormed(r)
    ensures r.pageActive == d.pageActive && r.buttonActive == d.buttonActive
    ensures |r.timers| == |d.timers| - 1
    ensures multiset(r.timers) + multiset{d.timers[k]} == multiset(d.timers)
    ensures var t := d.timers[k];
      r.frames[t.frame] == Frame(t.src, None, d.frames[t.frame].symbol)
      && forall j :: 0 <= j < Capacity && j != t.frame ==> r.frames[j] == d.frames[j]
  {
    var t := d.timers[k];
    assert d.timers == d.timers[..k] + [t] + d.timers[k + 1..];
    d.(frames := d.frames[t.frame := d.frames[t.frame].(src := t.src, pendingSrc := None)],
       timers := d.timers[..k] + d.timers[k + 1..])
  }

  /** A page clicked twice schedules each pending frame twice; firing the
      second copy after the first leaves the frames as the first left them. */
  lemma FireDuplicate(d: Doc, k: nat, k2: nat)
    requires WellFormed(d) && k < |d.timers|
    requires k2 < |Fire(d, k).timers| && Fire(d, k).timers[k2] == d.timers[k]
    ensures Fire(Fire(d, k), k2).frames == Fire(d, k).frames
  {
  }

  /** The document `document.write` produces from the markup of `init_grid`:
      frames with the markup's sources and pending sources and no symbol,
      the first page and button active, no timers. */
  function Written(symbols: seq<string>): (d: Doc)
    ensures WellFormed(d) && OnlyActive(d, 0) && d.timers == []
    ensures forall k :: 0 <= k < Capacity ==>
      var f := d.frames[k];
      // occupied slots of the first page are live
      (k < SlotsPerPage && k < |symbols| ==> f == Frame(ChartSrc, None, None))
      // occupied slots of later pages are blank with the chart parked as pending
      && (SlotsPerPage <= k < |symbols| ==> f == Frame(BlankSrc, Some(ChartSrc), None))
      // unoccupied slots are inert
      && (|symbols| <= k ==> f == Frame(BlankSrc, None, None))
  {
    var frames := seq(Capacity, k requires 0 <= k < Capacity =>
      var tag := SlotTag(k / SlotsPerPage, k % SlotsPerPage, k < |symbols|);
      Frame(tag.src, tag.pendingSrc, None));
    Doc(frames, Flags(0), Flags(0), [])
  }

  /** The first page of a freshly written grid has nothing pending, so the
      script's closing `loadTab(0)` schedules nothing. (The script comes before
      the markup in the written text, so that call may instead find no `tab-0`
      and return at once; the document is the same either way.) */
  lemma {:induction false} WrittenFirstPageNotPending(symbols: seq<string>, n: nat)
    requires n <= SlotsPerPage
    ensures Schedule(Written(symbols).frames, 0, n) == []
  {
    if n > 0 {
      WrittenFirstPageNotPending(symbols, n - 1);
    }
  }

  /** The timers scheduled for the first `m` slots come first, in the same
      order, among those scheduled for the first `n`. */
  lemma {:induction false} SchedulePrefix(frames: seq<Frame>, page: nat, m: nat, n: nat)
    requires |frames| == Capacity && page < Pages && m <= n <= SlotsPerPage
    ensures |Schedule(frames, page, m)| <= |Schedule(frames, page, n)|
    ensures Schedule(frames, page, n)[..|Schedule(frames, page, m)|] == Schedule(frames, page, m)
  {
    if m < n {
      SchedulePrefix(frames, page, m, n - 1);
    }
  }

  /** As written, a timer captures the pending source when it is scheduled:
      an `updateChart` that retargets a pending frame after `loadTab` is
      overridden when the timer fires, and the frame ends up loaded on the
      old source while its `data-symbol` names the new symbol. */
  lemma StaleTimerOverridesUpdate(symbols: seq<string>, symbol: string)
    requires |symbols| > SlotsPerPage
    ensures var updated := UpdateChart(ShowTab(Written(symbols), 1), FrameId(1, 0), symbol);
      updated.timers != []
      && updated.frames[SlotsPerPage].pendingSrc == Some(SymbolSrcPrefix + symbol)
      && Fire(updated, 0).frames[SlotsPerPage] == Frame(ChartSrc, None, Some(symbol))
  {
    var cleared := Written(symbols).(pageActive := Flags(1), buttonActive := Flags(1));
    assert Armed(cleared.frames[FrameIndex(1, 0)]) == Some(ChartSrc);
    assert Schedule(cleared.frames, 1, 1) == [Timer(0, SlotsPerPage, ChartSrc)];
    SchedulePrefix(cleared.frames, 1, 1, SlotsPerPage);
    FrameIdRoundTrip(1, 0);
  }

  /** Seven ranked symbols: page 1 shows the first six, live from the start;
      page 2 holds the seventh, pending until page 2 is shown, when its single
      timer is scheduled with no delay; the other seventeen frames are inert. */
  lemma SevenSymbolGrid()
    ensures var s := ["RELIANCE", "TCS", "HDFCBANK", "ICICIBANK", "INFY", "SBIN", "BHARTIARTL"];
      Allocate(s) == [s[..6], ["BHARTIARTL"], [], []]
      && (forall k :: 0 <= k < 6 ==> Written(s).frames[k] == Frame(ChartSrc, None, None))
      && Written(s).frames[6] == Frame(BlankSrc, Some(ChartSrc), None)
      && (forall k :: 7 <= k < Capacity ==> Written(s).frames[k] == Frame(BlankSrc, None, None))
      && ShowTab(Written(s), 1).timers == [Timer(0, 6, ChartSrc)]
  {
  }
}
