/** The layout builder of `init_grid`: four tab buttons, four page containers
    and six iframes per page, accumulated in nested loops. The styling, the
    preconnect link and the script text carry no behaviour here; the script's
    functions are modelled in GridDocument. */
module Layout {
  import opened Wrappers
  import opened Allocation

  const ChartSrc := "https://tv.dhan.co/?symbol=NSE:NIFTY"
  const BlankSrc := "about:blank"

  /** `<button id=... class="tab-btn [active]" onclick="showTab(shows)">caption</button>`. */
  datatype Button = Button(id: string, caption: string, active: bool, shows: nat)
  /** `<iframe id=... src=... [data-pending-src=...]>`. */
  datatype FrameTag = FrameTag(id: string, src: string, pendingSrc: Option<string>)
  /** `<div id=... class="grid-page [active-page]">` and its iframes. */
  datatype PageTag = PageTag(id: string, active: bool, frames: seq<FrameTag>)
  datatype Markup = Markup(buttons: seq<Button>, pages: seq<PageTag>)

  function ButtonId(i: nat): string
    requires i < Pages
  {
    "btn-" + [Digit(i)]
  }

  function TabId(i: nat): string
    requires i < Pages
  {
    "tab-" + [Digit(i)]
  }

  /** `f"PAGE {i+1}"`. */
  function PageLabel(i: nat): string
    requires i < Pages
  {
    "PAGE " + [Digit(i + 1)]
  }

  /** How the builder renders one slot: an occupied slot of the first page
      gets the live chart source, an occupied slot of a later page gets a blank
      source with the chart source parked in `data-pending-src`, and an
      unoccupied slot gets an inert blank frame. */
  function SlotTag(page: nat, slot: nat, occupied: bool): (t: FrameTag)
    requires page < Pages && slot < SlotsPerPage
    ensures t.id == FrameId(page, slot)
    ensures t.src == ChartSrc <==> occupied && page == 0
    ensures t.src != ChartSrc ==> t.src == BlankSrc
    ensures t.pendingSrc.Some? <==> occupied && page > 0
    ensures t.pendingSrc.Some? ==> t.pendingSrc.value == ChartSrc
  {
    var id := FrameId(page, slot);
    if occupied then
      if page == 0 then FrameTag(id, ChartSrc, None)
      else FrameTag(id, BlankSrc, Some(ChartSrc))
    else FrameTag(id, BlankSrc, None)
  }

  /** The tab bar of `init_grid`: four buttons, the first active, button i
      labelled `PAGE i+1` and showing page i when clicked. */
  method BuildButtons() returns (buttons: seq<Button>)
    ensures |buttons| == Pages
    ensures forall i :: 0 <= i < Pages ==> buttons[i] == Button(ButtonId(i), PageLabel(i), i == 0, i)
  {
    buttons := [];
    for i := 0 to Pages
      invariant |buttons| == i
      invariant forall j :: 0 <= j < i ==> buttons[j] == Button(ButtonId(j), PageLabel(j), j == 0, j)
    {
      buttons := buttons + [Button(ButtonId(i), PageLabel(i), i == 0, i)];
    }
  }

  /** The four page containers of `init_grid`, each with its six frames. */
  method BuildPages(symbols: seq<string>) returns (pages: seq<PageTag>)
    ensures |pages| == Pages
    ensures forall i :: 0 <= i < Pages ==>
      pages[i].id == TabId(i) && pages[i].active == (i == 0) && |pages[i].frames| == SlotsPerPage
    ensures forall i, s :: 0 <= i < Pages && 0 <= s < SlotsPerPage ==>
      pages[i].frames[s] == SlotTag(i, s, FrameIndex(i, s) < |symbols|)
  {
    var chunks := Pad(Chunks(symbols));
    pages := [];
    for i := 0 to Pages
      invariant |pages| == i
      invariant forall j :: 0 <= j < i ==>
        pages[j].id == TabId(j) && pages[j].active == (j == 0) && |pages[j].frames| == SlotsPerPage
      invariant forall j, s :: 0 <= j < i && 0 <= s < SlotsPerPage ==>
        pages[j].frames[s] == SlotTag(j, s, FrameIndex(j, s) < |symbols|)
    {
      var chunk := chunks[i];
      var frames: seq<FrameTag> := [];
      for slot := 0 to SlotsPerPage
        invariant |frames| == slot
        invariant forall s :: 0 <= s < slot ==> frames[s] == SlotTag(i, s, FrameIndex(i, s) < |symbols|)
      {
        AllocateSlot(symbols, i, slot);
        frames := frames + [SlotTag(i, slot, slot < |chunk|)];
      }
      pages := pages + [PageTag(TabId(i), i == 0, frames)];
    }
  }

  /** Builds the grid markup for `symbols` as `init_grid` does. Only the
      occupancy of each slot matters: every live or pending frame points at
      the generic NIFTY chart, not at its symbol. */
  method BuildMarkup(symbols: seq<string>) returns (m: Markup)
    ensures |m.buttons| == Pages && |m.pages| == Pages
    ensures forall i :: 0 <= i < Pages ==>
      m.buttons[i] == Button(ButtonId(i), PageLabel(i), i == 0, i)
    ensures forall i :: 0 <= i < Pages ==>
      m.pages[i].id == TabId(i) && m.pages[i].active == (i == 0)
      && |m.pages[i].frames| == SlotsPerPage
    ensures forall i, s :: 0 <= i < Pages && 0 <= s < SlotsPerPage ==>
      m.pages[i].frames[s] == SlotTag(i, s, FrameIndex(i, s) < |symbols|)
  {
    var buttons := BuildButtons();
    var pages := BuildPages(symbols);
    m := Markup(buttons, pages);
  }

  /** The buttons, page containers and frames all carry distinct ids. */
  lemma IdsDistinct(i: nat, j: nat, p: nat, s: nat)
    requires i < Pages && j < Pages && p < Pages && s < SlotsPerPage
    ensures ButtonId(i) != TabId(j)
    ensures ButtonId(i) != FrameId(p, s) && TabId(j) != FrameId(p, s)
    ensures ButtonId(i) == ButtonId(j) <==> i == j
    ensures TabId(i) == TabId(j) <==> i == j
  {
    assert ButtonId(i)[0] == 'b' && TabId(j)[0] == 't';
    assert ButtonId(i)[4] == Digit(i) && ButtonId(j)[4] == Digit(j);
    assert TabId(i)[4] == Digit(i) && TabId(j)[4] == Digit(j);
    assert FrameId(p, s)[0] == 'c';
  }
}
