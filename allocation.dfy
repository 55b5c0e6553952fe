/** The slot allocator: the ordered symbol list is cut into chunks of six,
    the chunk list is padded with empty chunks up to four pages, and symbol k
    lands on page k / 6, slot k % 6, in the iframe `chart-frame-{page}-{slot}`. */
module Allocation {
  import opened Wrappers

  const Pages: nat := 4
  const SlotsPerPage: nat := 6
  /** Number of iframes in the grid: pages times slots per page. */
  const Capacity: nat := 24

  /** `[symbols[i:i + 6] for i in range(0, len(symbols), 6)]`. */
  function Chunks<T>(s: seq<T>): (c: seq<seq<T>>)
    ensures |c| == (|s| + SlotsPerPage - 1) / SlotsPerPage
    decreases |s|
  {
    if s == [] then []
    else if |s| <= SlotsPerPage then [s]
    else [s[..SlotsPerPage]] + Chunks(s[SlotsPerPage..])
  }

  function Flatten<T>(c: seq<seq<T>>): seq<T>
  {
    if c == [] then [] else c[0] + Flatten(c[1..])
  }

  /** Concatenating the chunks gives back the symbol list. */
  lemma {:induction false} ChunksFlatten<T>(s: seq<T>)
    ensures Flatten(Chunks(s)) == s
  {
    if s != [] && |s| > SlotsPerPage {
      ChunksFlatten(s[SlotsPerPage..]);
      assert Chunks(s)[1..] == Chunks(s[SlotsPerPage..]);
      assert s == s[..SlotsPerPage] + s[SlotsPerPage..];
    }
  }

  /** Every chunk holds between one and six symbols, and every chunk but the
      last holds exactly six. */
  lemma {:induction false} ChunkSizes<T>(s: seq<T>)
    ensures forall i :: 0 <= i < |Chunks(s)| ==> 0 < |Chunks(s)[i]| <= SlotsPerPage
    ensures forall i :: 0 <= i < |Chunks(s)| - 1 ==> |Chunks(s)[i]| == SlotsPerPage
  {
    if s != [] && |s| > SlotsPerPage {
      ChunkSizes(s[SlotsPerPage..]);
      assert forall i :: 1 <= i < |Chunks(s)| ==> Chunks(s)[i] == Chunks(s[SlotsPerPage..])[i - 1];
    }
  }

  /** Chunk p holds the symbols from index 6p, and as many of them as there
      are, up to six. */
  lemma {:induction false} ChunkContents<T>(s: seq<T>, p: nat)
    requires p < |Chunks(s)|
    ensures |Chunks(s)[p]| == if |s| - p * SlotsPerPage < SlotsPerPage then |s| - p * SlotsPerPage else SlotsPerPage
    ensures forall j :: 0 <= j < |Chunks(s)[p]| ==> Chunks(s)[p][j] == s[p * SlotsPerPage + j]
  {
    if p > 0 {
      ChunkContents(s[SlotsPerPage..], p - 1);
      assert Chunks(s)[p] == Chunks(s[SlotsPerPage..])[p - 1];
    }
  }

  /** The chunk list, padded with empty chunks while it has fewer than four. */
  function Padded<T>(c: seq<seq<T>>): (r: seq<seq<T>>)
    ensures |r| == if |c| < Pages then Pages else |c|
    ensures r[..|c|] == c
    ensures forall i :: |c| <= i < |r| ==> r[i] == []
  {
    if |c| < Pages then c + seq(Pages - |c|, _ => []) else c
  }

  /** `while len(chunks) < 4: chunks.append([])`. */
  method Pad<T>(chunks: seq<seq<T>>) returns (r: seq<seq<T>>)
    ensures r == Padded(chunks)
  {
    r := chunks;
    while |r| < Pages
      invariant |chunks| <= |r| <= if |chunks| < Pages then Pages else |chunks|
      invariant r[..|chunks|] == chunks
      invariant forall i :: |chunks| <= i < |r| ==> r[i] == []
    {
      r := r + [[]];
    }
  }

  /** The page-by-page allocation both the layout builder and the updater use. */
  function Allocate<T>(s: seq<T>): seq<seq<T>>
  {
    Padded(Chunks(s))
  }

  /** Slot `slot` of page `page` is occupied exactly when the symbol list
      reaches index 6 * page + slot, and then it holds that symbol. */
  lemma AllocateSlot<T>(s: seq<T>, page: nat, slot: nat)
    requires page < Pages && slot < SlotsPerPage
    ensures |Allocate(s)| >= Pages
    ensures slot < |Allocate(s)[page]| <==> page * SlotsPerPage + slot < |s|
    ensures slot < |Allocate(s)[page]| ==> Allocate(s)[page][slot] == s[page * SlotsPerPage + slot]
  {
    if page < |Chunks(s)| {
      ChunkContents(s, page);
    }
  }

  /** A page is empty exactly when the symbol list stops before it. */
  lemma AllocatePageEmpty<T>(s: seq<T>, page: nat)
    requires page < Pages
    ensures |Allocate(s)| >= Pages
    ensures Allocate(s)[page] == [] <==> |s| <= page * SlotsPerPage
  {
    AllocateSlot(s, page, 0);
  }

  /** Every chunk of the allocation has at most six symbols. */
  lemma AllocateBounded<T>(s: seq<T>)
    ensures |Allocate(s)| >= Pages
    ensures forall p :: 0 <= p < |Allocate(s)| ==> |Allocate(s)[p]| <= SlotsPerPage
  {
    ChunkSizes(s);
  }

  function Digit(d: nat): (c: char)
    requires d < 10
    ensures '0' <= c <= '9'
  {
    ('0' as int + d) as char
  }

  /** `f"chart-frame-{i}-{slot_idx}"`. */
  function FrameId(page: nat, slot: nat): string
    requires page < Pages && slot < SlotsPerPage
  {
    "chart-frame-" + [Digit(page)] + "-" + [Digit(slot)]
  }

  /** The position of a frame in page-major order. */
  function FrameIndex(page: nat, slot: nat): (k: nat)
    requires page < Pages && slot < SlotsPerPage
    ensures k < Capacity && k / SlotsPerPage == page && k % SlotsPerPage == slot
  {
    page * SlotsPerPage + slot
  }

  /** The frame, in page-major order, whose id is `id`, if there is one:
      `document.getElementById(id)` restricted to the grid's iframes. */
  function ParseFrameId(id: string): (r: Option<nat>)
    ensures r.Some? ==> r.value < Capacity && id == FrameId(r.value / SlotsPerPage, r.value % SlotsPerPage)
  {
    if |id| == 15 && id[..12] == "chart-frame-" && id[13] == '-'
       && '0' <= id[12] <= '3' && '0' <= id[14] <= '5'
    then
      var p := id[12] as int - '0' as int;
      var s := id[14] as int - '0' as int;
      assert id == "chart-frame-" + [Digit(p)] + "-" + [Digit(s)];
      Some(FrameIndex(p, s))
    else None
  }

  /** Every grid frame id is recognised, and names its own frame. */
  lemma FrameIdRoundTrip(page: nat, slot: nat)
    requires page < Pages && slot < SlotsPerPage
    ensures ParseFrameId(FrameId(page, slot)) == Some(FrameIndex(page, slot))
  {
  }

  /** Distinct grid positions have distinct frame ids. */
  lemma FrameIdInjective(p1: nat, s1: nat, p2: nat, s2: nat)
    requires p1 < Pages && s1 < SlotsPerPage && p2 < Pages && s2 < SlotsPerPage
    requires FrameId(p1, s1) == FrameId(p2, s2)
    ensures p1 == p2 && s1 == s2
  {
    FrameIdRoundTrip(p1, s1);
    FrameIdRoundTrip(p2, s2);
  }
}
