/** `DhanGrid`: the Python object that owns the grid (its `is_initialized`
    flag) together with the document it injects (frames, page and button
    classes, pending timers). The JavaScript functions of that document are
    methods here that change the arrays in place; `update_charts` and
    `cleanup_ui` drive them and report the driver actions they perform. */
module Grid {
  import opened Wrappers
  import opened Text
  import opened Allocation
  import opened Layout
  import opened GridDocument
  import opened KeyFilter

  /** What became of the two clicks on a page's tab button
      (`find_element(By.ID, f"btn-{i}")`, then `click()` twice). */
  datatype TabSwitch = Switched | TabNotFound | FirstClickFailed | SecondClickFailed

  /** What became of one slot's update: the frame could not be reached or the
      hotkey filter not injected; the filter was injected but focusing or
      typing failed; or the symbol was typed and Enter pressed. */
  datatype SlotOutcome = FrameUnreachable | TypingFailed | TypedOk

  /** The driver actions an update cycle performs on the frames. */
  datatype Action =
    | FilterInstalled(frame: nat)      // the hotkey killer was injected into the frame
    | Typed(frame: nat, text: string)  // `text` was typed into the frame, then Enter
    | Sanitized(frame: nat)            // the toolbar-hiding style was injected

  function Target(a: Action): nat
  {
    match a
    case FilterInstalled(k) => k
    case Typed(k, _) => k
    case Sanitized(k) => k
  }

  /** How many `onclick="showTab(i)"` handlers ran for a tab switch. */
  function Clicks(t: TabSwitch): nat
  {
    match t
    case Switched => 2
    case SecondClickFailed => 1
    case _ => 0
  }

  /** `showTab(page)` run `n` times in a row. */
  function ShowRepeatedly(d: Doc, page: nat, n: nat): (r: Doc)
    requires WellFormed(d) && page < Pages
    ensures WellFormed(r)
  {
    if n == 0 then d else GridDocument.ShowTab(ShowRepeatedly(d, page, n - 1), page)
  }

  /** The document after the tab clicks of the first `n` pages of an update:
      a page with an empty chunk is skipped, any other gets its clicks. */
  function SwitchPages(d: Doc, chunks: seq<seq<string>>, tabs: seq<TabSwitch>, n: nat): (r: Doc)
    requires WellFormed(d) && n <= Pages && |chunks| >= Pages && |tabs| == Pages
    ensures WellFormed(r)
  {
    if n == 0 then d
    else
      var before := SwitchPages(d, chunks, tabs, n - 1);
      if |chunks[n - 1]| == 0 then before else ShowRepeatedly(before, n - 1, Clicks(tabs[n - 1]))
  }

  /** The actions of one slot, whose frame is `k` and whose typed text is `text`. */
  function SlotActions(k: nat, text: string, o: SlotOutcome): seq<Action>
  {
    match o
    case FrameUnreachable => []
    case TypingFailed => [FilterInstalled(k)]
    case TypedOk => [FilterInstalled(k), Typed(k, text)]
  }

  /** The actions of the first `n` slots of page `page`, whose chunk is `chunk`. */
  function PageActions(chunk: seq<string>, page: nat, slots: seq<SlotOutcome>, n: nat): seq<Action>
    requires page < Pages && |slots| == Capacity && n <= |chunk| && n <= SlotsPerPage
  {
    if n == 0 then []
    else
      var k := FrameIndex(page, n - 1);
      PageActions(chunk, page, slots, n - 1) + SlotActions(k, TypedText(chunk[n - 1]), slots[k])
  }

  /** Number of slots of a page the updater visits: `range(6)` cut short at
      the end of the chunk. */
  function SlotsUsed(chunk: seq<string>): nat
  {
    if |chunk| < SlotsPerPage then |chunk| else SlotsPerPage
  }

  /** The actions of one page: none when its chunk is empty or its tab could not
      be switched, otherwise those of its occupied slots. */
  function PageTurn(chunk: seq<string>, page: nat, tab: TabSwitch, slots: seq<SlotOutcome>): seq<Action>
    requires page < Pages && |slots| == Capacity
  {
    if |chunk| == 0 || tab != Switched then [] else PageActions(chunk, page, slots, SlotsUsed(chunk))
  }

  /** The typing actions of the first `n` pages of an update. */
  function UpdateActions(chunks: seq<seq<string>>, tabs: seq<TabSwitch>, slots: seq<SlotOutcome>, n: nat): seq<Action>
    requires n <= Pages && |chunks| >= Pages && |tabs| == Pages && |slots| == Capacity
  {
    if n == 0 then []
    else UpdateActions(chunks, tabs, slots, n - 1) + PageTurn(chunks[n - 1], n - 1, tabs[n - 1], slots)
  }

  /** The actions of `cleanup_ui` over the first `n` frames, in page-major
      order; a frame whose injection failed is skipped. */
  function CleanupActions(cleaned: seq<bool>, n: nat): seq<Action>
    requires n <= |cleaned|
  {
    if n == 0 then []
    else CleanupActions(cleaned, n - 1) + (if cleaned[n - 1] then [Sanitized(n - 1)] else [])
  }

  class DhanGrid {
    /** `self.is_initialized`. */
    var initialized: bool
    /** The 24 iframes, page-major: `chart-frame-{p}-{s}` is `frames[6 * p + s]`. */
    const frames: array<Frame>
    /** Whether `tab-{i}` has the `active-page` class. */
    const pageActive: array<bool>
    /** Whether `btn-{i}` has the `active` class. */
    const buttonActive: array<bool>
    /** Timers scheduled by `loadTab` and not yet fired. */
    var timers: seq<Timer>

    ghost predicate Valid()
      reads this
    {
      frames.Length == Capacity && pageActive.Length == Pages && buttonActive.Length == Pages
      && pageActive != buttonActive
      && forall i :: 0 <= i < |timers| ==> timers[i].frame < Capacity
    }

    /** The document as a value. */
    ghost function State(): (d: Doc)
      requires Valid()
      reads this, frames, pageActive, buttonActive
      ensures WellFormed(d)
    {
      Doc(frames[..], pageActive[..], buttonActive[..], timers)
    }

    /** `DhanGrid()` and `start()`: the browser shows the host application and
      no grid has been written. */
    constructor ()
      ensures Valid() && !initialized
    {
      initialized := false;
      frames := new Frame[Capacity](_ => Frame(BlankSrc, None, None));
      pageActive := new bool[Pages](_ => false);
      buttonActive := new bool[Pages](_ => false);
      timers := [];
    }

    /** `window.loadTab(index)`, also run by the written script itself. */
    method LoadTab(index: int)
      requires Valid()
      modifies this`timers
      ensures Valid() && State() == GridDocument.LoadTab(old(State()), index)
    {
      if !(0 <= index < Pages) {
        return;
      }
      ghost var d := State();
      ScheduleInRange(d.frames, index, SlotsPerPage);
      for i := 0 to SlotsPerPage
        invariant Valid() && timers == d.timers + Schedule(d.frames, index, i)
      {
        ScheduleInRange(d.frames, index, i + 1);
        var k := FrameIndex(index, i);
        var pending := frames[k].pendingSrc;
        if pending.Some? && pending.value != "" {
          timers := timers + [Timer(i * Stagger, k, pending.value)];
        }
      }
    }

    /** `window.showTab(index)`; `ok` is false when the script throws because
      no page container has that index. */
    method ShowTab(index: int) returns (ok: bool)
      requires Valid() && initialized
      modifies this`timers, pageActive, buttonActive
      ensures Valid() && ok == (0 <= index < Pages)
      ensures State() == GridDocument.ShowTab(old(State()), index)
    {
      for j := 0 to Pages
        invariant timers == old(timers)
        invariant forall i :: 0 <= i < j ==> !pageActive[i]
      {
        pageActive[j] := false;
      }
      for j := 0 to Pages
        invariant timers == old(timers)
        invariant forall i :: 0 <= i < Pages ==> !pageActive[i]
        invariant forall i :: 0 <= i < j ==> !buttonActive[i]
      {
        buttonActive[j] := false;
      }
      assert pageActive[..] == Flags(-1) && buttonActive[..] == Flags(-1);
      ok := 0 <= index < Pages;
      if !ok {
        return;
      }
      pageActive[index] := true;
      buttonActive[index] := true;
      assert pageActive[..] == Flags(index) && buttonActive[..] == Flags(index);
      LoadTab(index);
    }

    /** `window.updateChart(id, symbol)`. */
    method UpdateChart(id: string, symbol: string)
      requires Valid() && initialized
      modifies frames
      ensures Valid() && State() == GridDocument.UpdateChart(old(State()), id, symbol)
    {
      var found := ParseFrameId(id);
      if found.None? {
        return;
      }
      var k := found.value;
      var f := frames[k];
      var src := SymbolSrcPrefix + symbol;
      if f.pendingSrc.Some? {
        frames[k] := f.(pendingSrc := Some(src), symbol := Some(symbol));
      } else if f.symbol != Some(symbol) {
        frames[k] := f.(src := src, symbol := Some(symbol));
      }
    }

    /** The firing of the pending timer at position `k`. */
    method Fire(k: nat)
      requires Valid() && initialized && k < |timers|
      modifies this`timers, frames
      ensures Valid() && State() == GridDocument.Fire(old(State()), k)
    {
      var t := timers[k];
      frames[t.frame] := frames[t.frame].(src := t.src, pendingSrc := None);
      timers := timers[..k] + timers[k + 1..];
    }

    /** `init_grid(symbols)`: builds the markup and writes it over the
      document; `written` is whether the driver's `execute_script` succeeded.
      On failure the exception leaves `is_initialized` unset. */
    method InitGrid(symbols: seq<string>, written: bool) returns (ok: bool)
      requires Valid()
      modifies this, frames, pageActive, buttonActive
      ensures Valid() && ok == written
      ensures ok ==> initialized && State() == Written(symbols)
      ensures !ok ==> initialized == old(initialized) && State() == old(State())
    {
      var m := BuildMarkup(symbols);
      if !written {
        return false;
      }
      ghost var w := Written(symbols);
      for k := 0 to Capacity
        invariant forall j :: 0 <= j < k ==> frames[j] == w.frames[j]
      {
        var tag := m.pages[k / SlotsPerPage].frames[k % SlotsPerPage];
        frames[k] := Frame(tag.src, tag.pendingSrc, None);
      }
      for i := 0 to Pages
        invariant forall j :: 0 <= j < Capacity ==> frames[j] == w.frames[j]
        invariant forall j :: 0 <= j < i ==> pageActive[j] == (j == 0) && buttonActive[j] == (j == 0)
      {
        pageActive[i] := m.pages[i].active;
        buttonActive[i] := m.buttons[i].active;
      }
      timers := [];
      assert State() == w;
      // The script's closing `loadTab(0)`. The script precedes the markup it
      // writes, so in the browser `tab-0` may not exist yet and the call
      // returns at once; either way nothing is scheduled.
      LoadTab(0);
      WrittenFirstPageNotPending(symbols, SlotsPerPage);
      initialized := true;
      ok := true;
    }

    /** `cleanup_ui()`: visits the 24 frames page by page and slot by slot;
      `cleaned[k]` is whether injecting the style into frame k succeeded. */
    method CleanupUi(cleaned: seq<bool>) returns (actions: seq<Action>)
      requires |cleaned| == Capacity
      ensures actions == CleanupActions(cleaned, Capacity)
      ensures forall k: nat :: Sanitized(k) in actions <==> k < Capacity && cleaned[k]
      ensures forall i :: 0 <= i < |actions| ==> actions[i].Sanitized?
      ensures forall i, j :: 0 <= i < j < |actions| ==> Target(actions[i]) < Target(actions[j])
    {
      actions := [];
      for i := 0 to Pages
        invariant actions == CleanupActions(cleaned, i * SlotsPerPage)
      {
        for slot := 0 to SlotsPerPage
          invariant actions == CleanupActions(cleaned, i * SlotsPerPage + slot)
        {
          var k := FrameIndex(i, slot);
          if cleaned[k] {
            actions := actions + [Sanitized(k)];
          }
        }
      }
      CleanupExactly(cleaned, Capacity);
    }

    /** One page of `update_charts`: a page with an empty chunk is skipped;
      otherwise its tab button is clicked twice and, if both clicks went
      through, the page's symbols are typed. Button `btn-{page}` runs
      `showTab(page)` on each click (`Layout.BuildMarkup` builds it so). */
    method TurnPage(page: nat, chunk: seq<string>, tab: TabSwitch, slots: seq<SlotOutcome>)
      returns (actions: seq<Action>)
      requires Valid() && initialized && page < Pages && |slots| == Capacity
      modifies this`timers, pageActive, buttonActive
      ensures Valid() && initialized
      ensures State() == if |chunk| == 0 then old(State()) else ShowRepeatedly(old(State()), page, Clicks(tab))
      ensures actions == PageTurn(chunk, page, tab, slots)
    {
      actions := [];
      if |chunk| == 0 {
        return;
      }
      ghost var d := State();
      if Clicks(tab) >= 1 {
        var _ := ShowTab(page);
        assert State() == ShowRepeatedly(d, page, 1);
      }
      if Clicks(tab) >= 2 {
        var _ := ShowTab(page);
        assert State() == ShowRepeatedly(d, page, 2);
      }
      assert State() == ShowRepeatedly(d, page, Clicks(tab));
      if tab != Switched {
        return;
      }
      actions := TypePage(page, chunk, slots);
    }

    /** The slot loop of one page: for each occupied slot, the hotkey filter
      and the lower-cased symbol go to frame `chart-frame-{page}-{slot}`. */
    method TypePage(page: nat, chunk: seq<string>, slots: seq<SlotOutcome>) returns (actions: seq<Action>)
      requires page < Pages && |slots| == Capacity
      ensures actions == PageActions(chunk, page, slots, SlotsUsed(chunk))
    {
      actions := [];
      for slot := 0 to SlotsPerPage
        invariant slot <= |chunk|
        invariant actions == PageActions(chunk, page, slots, slot)
      {
        if slot >= |chunk| {
          break;
        }
        var text := TypedText(chunk[slot]);
        var k := FrameIndex(page, slot);
        match slots[k]
        case FrameUnreachable =>
        case TypingFailed =>
          actions := actions + [FilterInstalled(k)];
        case TypedOk =>
          actions := actions + [FilterInstalled(k), Typed(k, text)];
      }
    }

    /** `update_charts(symbols)`: writes the grid if it is not written yet,
      then for every page with symbols clicks its tab twice and, if that
      worked, installs the hotkey filter and types each symbol of the page in
      lower case into its frame; finally runs `cleanup_ui`. A failing
      `init_grid` aborts the call with an exception (`ok` false). */
    method UpdateCharts(symbols: seq<string>, written: bool, tabs: seq<TabSwitch>,
                        slots: seq<SlotOutcome>, cleaned: seq<bool>)
      returns (ok: bool, actions: seq<Action>)
      requires Valid()
      requires |tabs| == Pages && |slots| == Capacity && |cleaned| == Capacity
      modifies this, frames, pageActive, buttonActive
      ensures Valid() && ok == (old(initialized) || written)
      ensures !ok ==> actions == [] && !initialized && State() == old(State())
      ensures ok ==> initialized
      ensures ok ==>
        var start := if old(initialized) then old(State()) else Written(symbols);
        State() == SwitchPages(start, Allocate(symbols), tabs, Pages)
        && actions == UpdateActions(Allocate(symbols), tabs, slots, Pages) + CleanupActions(cleaned, Capacity)
    {
      if !initialized {
        ok := InitGrid(symbols, written);
        if !ok {
          return false, [];
        }
      }
      ok := true;
      ghost var start := State();
      var chunks := Pad(Chunks(symbols));
      AllocateBounded(symbols);
      actions := [];
      for i := 0 to Pages
        invariant Valid() && initialized
        invariant State() == SwitchPages(start, chunks, tabs, i)
        invariant actions == UpdateActions(chunks, tabs, slots, i)
      {
        var turned := TurnPage(i, chunks[i], tabs[i], slots);
        actions := actions + turned;
      }
      var cleanup := CleanupUi(cleaned);
      actions := actions + cleanup;
    }
  }

  /** `cleanup_ui` sanitizes exactly the frames whose injection succeeded,
      visiting them in page-major order. */
  lemma {:induction false} CleanupExactly(cleaned: seq<bool>, n: nat)
    requires n <= |cleaned|
    ensures forall k: nat :: Sanitized(k) in CleanupActions(cleaned, n) <==> k < n && cleaned[k]
    ensures forall i :: 0 <= i < |CleanupActions(cleaned, n)| ==>
      CleanupActions(cleaned, n)[i].Sanitized? && Target(CleanupActions(cleaned, n)[i]) < n
    ensures forall i, j :: 0 <= i < j < |CleanupActions(cleaned, n)| ==>
      Target(CleanupActions(cleaned, n)[i]) < Target(CleanupActions(cleaned, n)[j])
  {
    if n > 0 {
      CleanupExactly(cleaned, n - 1);
    }
  }

  /** Within a page, the actions name frames of that page only, among its
      first `n` slots, in slot order, and none of them is a sanitize step. */
  lemma {:induction false} PageActionsTargets(chunk: seq<string>, page: nat, slots: seq<SlotOutcome>, n: nat)
    requires page < Pages && |slots| == Capacity && n <= |chunk| && n <= SlotsPerPage
    ensures forall i :: 0 <= i < |PageActions(chunk, page, slots, n)| ==>
      var a := PageActions(chunk, page, slots, n)[i];
      !a.Sanitized? && page * SlotsPerPage <= Target(a) < page * SlotsPerPage + n
    ensures forall i, j :: 0 <= i < j < |PageActions(chunk, page, slots, n)| ==>
      Target(PageActions(chunk, page, slots, n)[i]) <= Target(PageActions(chunk, page, slots, n)[j])
  {
    if n > 0 {
      PageActionsTargets(chunk, page, slots, n - 1);
    }
  }

  /** Which slot actions a page produces: frame k gets the filter when it is
      among the first `n` slots of the page and its frame was reachable, and
      gets `text` typed when, in addition, typing succeeded and `text` is the
      lower-cased symbol of its slot. */
  lemma {:induction false} PageActionsExactly(chunk: seq<string>, page: nat, slots: seq<SlotOutcome>, n: nat, k: nat, text: string)
    requires page < Pages && |slots| == Capacity && n <= |chunk| && n <= SlotsPerPage
    ensures FilterInstalled(k) in PageActions(chunk, page, slots, n) <==>
      k < Capacity && k / SlotsPerPage == page && k % SlotsPerPage < n && slots[k] != FrameUnreachable
    ensures Typed(k, text) in PageActions(chunk, page, slots, n) <==>
      k < Capacity && k / SlotsPerPage == page && k % SlotsPerPage < n && slots[k] == TypedOk
      && text == TypedText(chunk[k % SlotsPerPage])
  {
    if n > 0 {
      PageActionsExactly(chunk, page, slots, n - 1, k, text);
      var here := FrameIndex(page, n - 1);
      var tail := SlotActions(here, TypedText(chunk[n - 1]), slots[here]);
      assert PageActions(chunk, page, slots, n) == PageActions(chunk, page, slots, n - 1) + tail;
      assert FilterInstalled(k) in tail <==> k == here && slots[here] != FrameUnreachable;
      assert Typed(k, text) in tail <==> k == here && slots[here] == TypedOk && text == TypedText(chunk[n - 1]);
      assert k == here <==> k < Capacity && k / SlotsPerPage == page && k % SlotsPerPage == n - 1;
    }
  }

  /** The typing actions of an update name only frames of the first `n`
      pages, in page-major order, and none of them is a sanitize step. */
  lemma {:induction false} UpdateActionsTargets(chunks: seq<seq<string>>, tabs: seq<TabSwitch>, slots: seq<SlotOutcome>, n: nat)
    requires n <= Pages && |chunks| >= Pages && |tabs| == Pages && |slots| == Capacity
    requires forall p :: 0 <= p < |chunks| ==> |chunks[p]| <= SlotsPerPage
    ensures forall i :: 0 <= i < |UpdateActions(chunks, tabs, slots, n)| ==>
      var a := UpdateActions(chunks, tabs, slots, n)[i];
      !a.Sanitized? && Target(a) < n * SlotsPerPage
    ensures forall i, j :: 0 <= i < j < |UpdateActions(chunks, tabs, slots, n)| ==>
      Target(UpdateActions(chunks, tabs, slots, n)[i]) <= Target(UpdateActions(chunks, tabs, slots, n)[j])
  {
    if n > 0 {
      UpdateActionsTargets(chunks, tabs, slots, n - 1);
      var chunk := chunks[n - 1];
      if |chunk| != 0 && tabs[n - 1] == Switched {
        PageActionsTargets(chunk, n - 1, slots, SlotsUsed(chunk));
      }
    }
  }

  /** The allocation property of an update: frame k has the filter installed
      exactly when symbol k exists, k is below 24, the tab of page k / 6 was
      switched and frame k was reachable; and the text typed into frame k is
      the lower-cased symbol k, typed exactly when typing succeeded there. No
      symbol at index 24 or later reaches any frame. */
  lemma {:induction false} UpdateActionsExactly(symbols: seq<string>, tabs: seq<TabSwitch>, slots: seq<SlotOutcome>,
                                                n: nat, k: nat, text: string)
    requires n <= Pages && |tabs| == Pages && |slots| == Capacity
    ensures |Allocate(symbols)| >= Pages
    ensures FilterInstalled(k) in UpdateActions(Allocate(symbols), tabs, slots, n) <==>
      k < n * SlotsPerPage && k < |symbols| && tabs[k / SlotsPerPage] == Switched && slots[k] != FrameUnreachable
    ensures Typed(k, text) in UpdateActions(Allocate(symbols), tabs, slots, n) <==>
      k < n * SlotsPerPage && k < |symbols| && tabs[k / SlotsPerPage] == Switched && slots[k] == TypedOk
      && text == TypedText(symbols[k])
  {
    AllocateBounded(symbols);
    if n > 0 {
      UpdateActionsExactly(symbols, tabs, slots, n - 1, k, text);
      var page := n - 1;
      var chunk := Allocate(symbols)[page];
      if |chunk| != 0 && tabs[page] == Switched {
        PageActionsExactly(chunk, page, slots, SlotsUsed(chunk), k, text);
        if k / SlotsPerPage == page && k < Capacity {
          AllocateSlot(symbols, page, k % SlotsPerPage);
        }
      } else if k / SlotsPerPage == page && k < Capacity {
        AllocateSlot(symbols, page, k % SlotsPerPage);
        AllocatePageEmpty(symbols, page);
      }
    }
  }

  /** The whole trace of an update: every typing action names an occupied
      frame, the typing comes in page-major order, and every sanitize step
      comes after all of the typing. */
  lemma UpdateTraceShape(symbols: seq<string>, tabs: seq<TabSwitch>, slots: seq<SlotOutcome>, cleaned: seq<bool>)
    requires |tabs| == Pages && |slots| == Capacity && |cleaned| == Capacity
    ensures |Allocate(symbols)| >= Pages
    ensures var typing := UpdateActions(Allocate(symbols), tabs, slots, Pages);
      var trace := typing + CleanupActions(cleaned, Capacity);
      (forall i :: 0 <= i < |typing| ==> Target(typing[i]) < |symbols| && Target(typing[i]) < Capacity)
      && (forall i, j :: 0 <= i < j < |typing| ==> Target(typing[i]) <= Target(typing[j]))
      && (forall i, j :: 0 <= i < j < |trace| && trace[i].Sanitized? ==> trace[j].Sanitized?)
  {
    AllocateBounded(symbols);
    var typing := UpdateActions(Allocate(symbols), tabs, slots, Pages);
    UpdateActionsTargets(Allocate(symbols), tabs, slots, Pages);
    CleanupExactly(cleaned, Capacity);
    forall i | 0 <= i < |typing|
      ensures Target(typing[i]) < |symbols|
    {
      var a := typing[i];
      assert a in typing;
      match a
      case FilterInstalled(k) =>
        UpdateActionsExactly(symbols, tabs, slots, Pages, k, "");
      case Typed(k, text) =>
        UpdateActionsExactly(symbols, tabs, slots, Pages, k, text);
    }
  }

  /** A frame built blank, because the first update had no symbol for it,
      stays blank through the first update and any later one: tab switches
      never touch a frame, and no timer targets a frame without a pending
      source. A later update with a symbol for it still types into it. */
  lemma BuiltBlankStaysBlank(first: seq<string>, later: seq<string>, tabs1: seq<TabSwitch>, tabs2: seq<TabSwitch>,
                             slots: seq<SlotOutcome>, k: nat)
    requires |tabs1| == Pages && |tabs2| == Pages && |slots| == Capacity && |first| <= k < Capacity
    ensures |Allocate(first)| >= Pages && |Allocate(later)| >= Pages
    ensures var d1 := SwitchPages(Written(first), Allocate(first), tabs1, Pages);
      var d2 := SwitchPages(d1, Allocate(later), tabs2, Pages);
      d1.frames[k] == Frame(BlankSrc, None, None) && d2.frames[k] == Frame(BlankSrc, None, None)
      && Armed(d2.frames[k]).None?
      && (k < |later| && tabs2[k / SlotsPerPage] == Switched && slots[k] == TypedOk ==>
            Typed(k, TypedText(later[k])) in UpdateActions(Allocate(later), tabs2, slots, Pages))
  {
    AllocateBounded(first);
    AllocateBounded(later);
    var w := Written(first);
    assert w.frames[k] == Frame(BlankSrc, None, None);
    var d1 := SwitchPages(w, Allocate(first), tabs1, Pages);
    SwitchPagesKeepsOneActive(w, Allocate(first), tabs1, Pages, 0);
    assert d1.frames == w.frames;
    var last := LastShown(Allocate(first), tabs1, Pages, 0);
    var d2 := SwitchPages(d1, Allocate(later), tabs2, Pages);
    SwitchPagesKeepsOneActive(d1, Allocate(later), tabs2, Pages, last);
    assert d2.frames == d1.frames;
    if k < |later| && tabs2[k / SlotsPerPage] == Switched && slots[k] == TypedOk {
      UpdateActionsExactly(later, tabs2, slots, Pages, k, TypedText(later[k]));
    }
  }

  /** The page shown after the tab clicks of the first `n` pages: the last
      page with symbols whose tab was clicked at least once, or `start`. */
  function LastShown(chunks: seq<seq<string>>, tabs: seq<TabSwitch>, n: nat, start: int): int
    requires n <= Pages && |chunks| >= Pages && |tabs| == Pages
  {
    if n == 0 then start
    else if |chunks[n - 1]| != 0 && Clicks(tabs[n - 1]) >= 1 then n - 1
    else LastShown(chunks, tabs, n - 1, start)
  }

  /** An update keeps exactly one page and one button active: the last page
      it clicked, or the one that was active before. */
  lemma {:induction false} SwitchPagesKeepsOneActive(d: Doc, chunks: seq<seq<string>>, tabs: seq<TabSwitch>, n: nat, start: nat)
    requires WellFormed(d) && n <= Pages && |chunks| >= Pages && |tabs| == Pages
    requires start < Pages && OnlyActive(d, start)
    ensures 0 <= LastShown(chunks, tabs, n, start) < Pages
    ensures OnlyActive(SwitchPages(d, chunks, tabs, n), LastShown(chunks, tabs, n, start))
    ensures SwitchPages(d, chunks, tabs, n).frames == d.frames
  {
    if n > 0 {
      SwitchPagesKeepsOneActive(d, chunks, tabs, n - 1, start);
      var before := SwitchPages(d, chunks, tabs, n - 1);
      if |chunks[n - 1]| != 0 {
        ShowRepeatedlyActive(before, n - 1, Clicks(tabs[n - 1]));
      }
    }
  }

  /** Clicking a tab at least once makes its page the one active page; the
      frames themselves are not touched by clicking. */
  lemma {:induction false} ShowRepeatedlyActive(d: Doc, page: nat, n: nat)
    requires WellFormed(d) && page < Pages
    ensures ShowRepeatedly(d, page, n).frames == d.frames
    ensures n >= 1 ==> OnlyActive(ShowRepeatedly(d, page, n), page)
    ensures n == 0 ==> ShowRepeatedly(d, page, n) == d
  {
    if n > 0 {
      ShowRepeatedlyActive(d, page, n - 1);
    }
  }
}
