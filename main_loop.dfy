/** One cycle of `main()`'s endless loop: fetch up to 30 symbols, drop the
    first and keep the next 24 when there is more than one, update the grid
    unless nothing was fetched, then probe the browser before sleeping. */
module MainLoop {
  import opened Allocation
  import opened GridDocument
  import opened KeyFilter
  import opened Fetcher
  import opened Grid

  /** `get_top_symbols(limit=30)`. */
  const FetchLimit: int := 30

  /** `symbols[1:25]` when there is more than one symbol, else the list as is. */
  function Trim(symbols: seq<string>): (r: seq<string>)
    ensures |r| <= Capacity
    ensures r == [] <==> symbols == []
    ensures |symbols| <= 1 ==> r == symbols
    ensures |symbols| > 1 ==>
      |r| == (if |symbols| - 1 < Capacity then |symbols| - 1 else Capacity)
      && forall i :: 0 <= i < |r| ==> r[i] == symbols[i + 1]
  {
    if |symbols| > 1 then symbols[1..if |symbols| < Capacity + 1 then |symbols| else Capacity + 1]
    else symbols
  }

  /** What a cycle shows when more than one symbol was fetched: frame k gets
      the lower-cased symbol ranked k + 1 (the top-ranked one is never shown),
      and only ranks 1 to 24 reach a frame. */
  lemma TrimmedTyping(fetched: seq<string>, tabs: seq<TabSwitch>, slots: seq<SlotOutcome>, k: nat, text: string)
    requires |fetched| > 1 && |tabs| == Pages && |slots| == Capacity
    ensures |Allocate(Trim(fetched))| >= Pages
    ensures Typed(k, text) in UpdateActions(Allocate(Trim(fetched)), tabs, slots, Pages) <==>
      k < Capacity && k + 1 < |fetched| && tabs[k / SlotsPerPage] == Switched && slots[k] == TypedOk
      && text == TypedText(fetched[k + 1])
  {
    UpdateActionsExactly(Trim(fetched), tabs, slots, Pages, k, text);
  }

  /** One pass of the `while True` loop of `main()`. `loads` are the fetch
      attempts' outcomes, `written`, `tabs`, `slots` and `cleaned` the driver's
      outcomes for the update, and `alive` whether every liveness probe
      (`grid.driver.title`) of the sleep succeeded. `running` is false when
      `main()` returns: the browser was closed or `init_grid` raised. */
  method Cycle(grid: DhanGrid, loads: seq<PageLoad>, written: bool, tabs: seq<TabSwitch>,
               slots: seq<SlotOutcome>, cleaned: seq<bool>, alive: bool)
    returns (running: bool, actions: seq<Action>)
    requires grid.Valid()
    requires |loads| == MaxAttempts && |tabs| == Pages && |slots| == Capacity && |cleaned| == Capacity
    modifies grid, grid.frames, grid.pageActive, grid.buttonActive
    ensures grid.Valid()
    // nothing fetched: no update, no action, the grid as it was
    ensures FirstYield(loads, FetchLimit) == [] ==>
      running == alive && actions == [] && grid.initialized == old(grid.initialized)
      && grid.State() == old(grid.State())
    // something fetched: the update of `update_charts` on the trimmed list
    ensures FirstYield(loads, FetchLimit) != [] ==>
      var symbols := Trim(FirstYield(loads, FetchLimit));
      var ok := old(grid.initialized) || written;
      |symbols| <= Capacity
      && (!ok ==> !running && actions == [] && !grid.initialized && grid.State() == old(grid.State()))
      && (ok ==>
            running == alive && grid.initialized
            && grid.State() == SwitchPages(if old(grid.initialized) then old(grid.State()) else Written(symbols),
                                           Allocate(symbols), tabs, Pages)
            && actions == UpdateActions(Allocate(symbols), tabs, slots, Pages) + CleanupActions(cleaned, Capacity))
  {
    var symbols := GetTopSymbols(loads, FetchLimit);
    actions := [];
    if symbols != [] {
      if |symbols| > 1 {
        symbols := symbols[1..if |symbols| < Capacity + 1 then |symbols| else Capacity + 1];
      }
      var ok;
      ok, actions := grid.UpdateCharts(symbols, written, tabs, slots, cleaned);
      if !ok {
        return false, actions;
      }
    }
    running := alive;
  }
}
