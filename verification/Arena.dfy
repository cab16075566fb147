/** The element arena (src/arena.rs): a bump allocator over chunks, cleared as a whole. Addresses are
    numbers; what the system allocator returns for a new chunk is an input. */
module Arenas {
  import opened Common
  import opened Arithmetic

  datatype Layout = Layout(size: nat, align: nat)

  datatype Element = Element(value: nat, layout: Layout)

  datatype ChunkState = ChunkState(start: nat, end: nat, offset: nat)

  datatype ArenaState = ArenaState(chunks: seq<ChunkState>, elements: seq<Element>, current: nat, chunkSize: nat)

  // ---------------------------------------------------------------------------------------
  // One chunk
  // ---------------------------------------------------------------------------------------

  /** The least multiple of the alignment from `offset` on. */
  function AlignUp(offset: nat, align: nat): nat
    requires align > 0
  {
    if offset % align == 0 then offset else offset + (align - offset % align)
  }

  lemma AlignUpIsLeast(offset: nat, align: nat)
    requires align > 0
    ensures offset <= AlignUp(offset, align) && AlignUp(offset, align) % align == 0
    ensures forall x: nat :: offset <= x && x % align == 0 ==> AlignUp(offset, align) <= x
  {
    var q, r := offset / align, offset % align;
    assert offset == q * align + r;
    if r != 0 {
      assert offset + (align - r) == (q + 1) * align + 0;
      ModuloIs(offset + (align - r), align, q + 1, 0);
      forall x: nat | offset <= x && x % align == 0 ensures offset + (align - r) <= x {
        assert x == (x / align) * align + 0;
        assert (x / align - q) * align == x - q * align;
        MultipleIsFar(x / align - q - 1, align);
        MultipleIsFar(x / align - q, align);
        assert x / align - q >= 1;
      }
    }
  }

  function Fits(c: ChunkState, layout: Layout): bool
    requires layout.align > 0
  {
    AlignUp(c.offset, layout.align) + layout.size <= c.end
  }

  function Bumped(c: ChunkState, layout: Layout): ChunkState
    requires layout.align > 0
  {
    c.(offset := AlignUp(c.offset, layout.align) + layout.size)
  }

  // ---------------------------------------------------------------------------------------
  // The arena
  // ---------------------------------------------------------------------------------------

  datatype Outcome = Outcome(state: ArenaState, ptr: Option<nat>)

  function NewChunk(start: nat, size: nat): ChunkState {
    ChunkState(start, start + size, start)
  }

  // Allocation in the current chunk, when it fits there.
  function Placing(s: ArenaState, layout: Layout): Outcome
    requires s.current < |s.chunks| && layout.align > 0
  {
    var c := s.chunks[s.current];
    if Fits(c, layout) then
      var ptr := AlignUp(c.offset, layout.align);
      Outcome(s.(chunks := s.chunks[s.current := Bumped(c, layout)],
        elements := s.elements + [Element(ptr, layout)]), Some(ptr))
    else Outcome(s, None)
  }

  // Moving on to the next chunk, which is made when there is none.
  function Advance(s: ArenaState, freshStart: nat): ArenaState {
    s.(current := s.current + 1,
       chunks := if s.current + 1 >= |s.chunks| then s.chunks + [NewChunk(freshStart, s.chunkSize)] else s.chunks)
  }

  /** `alloc`; no pointer where the source panics, with the arena already moved on. */
  function AllocState(s: ArenaState, layout: Layout, freshStart: nat): Outcome
    requires s.current < |s.chunks| && layout.align > 0
  {
    if Fits(s.chunks[s.current], layout) then Placing(s, layout) else Placing(Advance(s, freshStart), layout)
  }

  function ClearState(s: ArenaState): ArenaState
    requires s.current < |s.chunks|
  {
    s.(chunks := ResetUpTo(s.chunks, s.current + 1), elements := [], current := 0)
  }

  function ResetUpTo(chunks: seq<ChunkState>, n: nat): seq<ChunkState>
    requires n <= |chunks|
  {
    seq(|chunks|, k requires 0 <= k < |chunks| => if k < n then chunks[k].(offset := chunks[k].start) else chunks[k])
  }

  ghost predicate Disjoint(start: nat, end: nat, start': nat, end': nat) {
    end <= start' || end' <= start
  }

  ghost predicate ChunkOk(c: ChunkState, chunkSize: nat) {
    0 < c.start <= c.offset <= c.end == c.start + chunkSize
  }

  ghost predicate Within(c: ChunkState, e: Element) {
    c.start <= e.value && e.value + e.layout.size <= c.offset
  }

  ghost predicate Placed(s: ArenaState, e: Element) {
    && e.layout.align > 0 && e.value % e.layout.align == 0
    && exists k :: 0 <= k <= s.current < |s.chunks| && Within(s.chunks[k], e)
  }

  ghost predicate Apart(a: Element, b: Element) {
    Disjoint(a.value, a.value + a.layout.size, b.value, b.value + b.layout.size)
  }

  ghost predicate ChunksOk(s: ArenaState) {
    && s.current < |s.chunks|
    && (forall k :: 0 <= k < |s.chunks| ==> ChunkOk(s.chunks[k], s.chunkSize))
    && (forall j, k :: 0 <= j < k < |s.chunks| ==> ChunksApart(s.chunks[j], s.chunks[k]))
    && (forall k :: s.current < k < |s.chunks| ==> s.chunks[k].offset == s.chunks[k].start)
  }

  ghost predicate ElementsOk(s: ArenaState) {
    && (forall i :: 0 <= i < |s.elements| ==> Placed(s, s.elements[i]))
    && (forall i, j :: 0 <= i < j < |s.elements| ==> Apart(s.elements[i], s.elements[j]))
  }

  /** Every element allocated since the last clear is aligned, lies in the used part of a chunk up to
      the current one and shares no address with another; the chunks past the current one are empty. */
  ghost predicate Inv(s: ArenaState) {
    ChunksOk(s) && ElementsOk(s)
  }

  ghost predicate ChunksApart(c: ChunkState, d: ChunkState) {
    Disjoint(c.start, c.end, d.start, d.end)
  }

  /** What the system allocator promises of a new chunk. */
  ghost predicate FreshFor(s: ArenaState, start: nat) {
    0 < start && forall k :: 0 <= k < |s.chunks| ==> ChunksApart(s.chunks[k], NewChunk(start, s.chunkSize))
  }

  lemma AdvanceKeepsInv(s: ArenaState, freshStart: nat)
    requires Inv(s) && FreshFor(s, freshStart)
    ensures Inv(Advance(s, freshStart))
  {
    hide ChunksApart, Apart, Within;
    var t := Advance(s, freshStart);
    forall i | 0 <= i < |t.elements| ensures Placed(t, t.elements[i]) {
      assert Placed(s, s.elements[i]);
      var k :| 0 <= k <= s.current < |s.chunks| && Within(s.chunks[k], s.elements[i]);
      assert Within(t.chunks[k], t.elements[i]);
    }
  }

  lemma BumpedFacts(c: ChunkState, layout: Layout, chunkSize: nat)
    requires ChunkOk(c, chunkSize) && layout.align > 0 && Fits(c, layout)
    ensures ChunkOk(Bumped(c, layout), chunkSize) && c.offset <= Bumped(c, layout).offset
    ensures Within(Bumped(c, layout), Element(AlignUp(c.offset, layout.align), layout))
    ensures AlignUp(c.offset, layout.align) % layout.align == 0 && c.offset <= AlignUp(c.offset, layout.align)
  {
    AlignUpIsLeast(c.offset, layout.align);
    hide AlignUp;
  }

  lemma PlacingKeepsChunks(s: ArenaState, layout: Layout)
    requires ChunksOk(s) && layout.align > 0 && Fits(s.chunks[s.current], layout)
    ensures ChunksOk(Placing(s, layout).state)
  {
    BumpedFacts(s.chunks[s.current], layout, s.chunkSize);
    hide Fits, AlignUp;
    var t := Placing(s, layout).state;
    forall j, k | 0 <= j < k < |t.chunks| ensures ChunksApart(t.chunks[j], t.chunks[k]) {
      assert ChunksApart(s.chunks[j], s.chunks[k]);
    }
  }

  // An element of a chunk before the bump shares nothing with the new one.
  lemma OldIsApart(s: ArenaState, e: Element, layout: Layout)
    requires ChunksOk(s) && layout.align > 0 && Fits(s.chunks[s.current], layout) && Placed(s, e)
    ensures Placed(Placing(s, layout).state, e)
    ensures Apart(e, Element(AlignUp(s.chunks[s.current].offset, layout.align), layout))
  {
    var c := s.chunks[s.current];
    BumpedFacts(c, layout, s.chunkSize);
    hide AlignUp;
    var k :| 0 <= k <= s.current < |s.chunks| && Within(s.chunks[k], e);
    assert Within(Placing(s, layout).state.chunks[k], e);
    if k < s.current {
      assert ChunksApart(s.chunks[k], c);
    }
  }

  lemma PlacingKeepsElements(s: ArenaState, layout: Layout)
    requires Inv(s) && layout.align > 0 && Fits(s.chunks[s.current], layout)
    ensures ElementsOk(Placing(s, layout).state)
  {
    var c := s.chunks[s.current];
    var t, added := Placing(s, layout).state, Element(AlignUp(c.offset, layout.align), layout);
    BumpedFacts(c, layout, s.chunkSize);
    assert Within(t.chunks[t.current], added);
    assert Placed(t, added);
    hide Fits, AlignUp, Placed, Apart, ChunksOk;
    forall i | 0 <= i < |s.elements| ensures Placed(t, s.elements[i]) && Apart(s.elements[i], added) {
      OldIsApart(s, s.elements[i], layout);
    }
    assert t.elements == s.elements + [added];
  }

  /** Allocation keeps the invariant and everything allocated before; the new element is the last. */
  lemma AllocKeepsInv(s: ArenaState, layout: Layout, freshStart: nat)
    requires Inv(s) && FreshFor(s, freshStart) && layout.align > 0
    ensures var r := AllocState(s, layout, freshStart);
      && Inv(r.state)
      && r.state.elements == s.elements + (if r.ptr.Some? then [Element(r.ptr.value, layout)] else [])
  {
    AdvanceKeepsInv(s, freshStart);
    var t := if Fits(s.chunks[s.current], layout) then s else Advance(s, freshStart);
    if Fits(t.chunks[t.current], layout) {
      PlacingKeepsChunks(t, layout);
      PlacingKeepsElements(t, layout);
    }
    hide ChunksOk, ElementsOk, Fits, AlignUp, Advance;
  }

  lemma ClearKeepsInv(s: ArenaState)
    requires Inv(s)
    ensures Inv(ClearState(s)) && ClearState(s).elements == []
    ensures forall k :: 0 <= k < |s.chunks| ==>
      ClearState(s).chunks[k] == s.chunks[k].(offset := s.chunks[k].start)
  {
    var t := ClearState(s);
    forall j, k | 0 <= j < k < |t.chunks| ensures ChunksApart(t.chunks[j], t.chunks[k]) {
      assert ChunksApart(s.chunks[j], s.chunks[k]);
    }
  }

  // The chunk that is tried when the current one is full, as it is then.
  function NextChunk(s: ArenaState, freshStart: nat): ChunkState {
    if s.current + 1 < |s.chunks| then s.chunks[s.current + 1] else NewChunk(freshStart, s.chunkSize)
  }

  /** `alloc` panics exactly when the current chunk has no room and the type does not fit an empty chunk
      at the address of the next one, whatever alignment that address has. */
  lemma PanicsExactlyWhen(s: ArenaState, layout: Layout, freshStart: nat)
    requires Inv(s) && layout.align > 0
    ensures var start := NextChunk(s, freshStart).start;
      AllocState(s, layout, freshStart).ptr.None?
      <==> !Fits(s.chunks[s.current], layout) && AlignUp(start, layout.align) + layout.size > start + s.chunkSize
    ensures layout.size + layout.align - 1 <= s.chunkSize ==> AllocState(s, layout, freshStart).ptr.Some?
    ensures layout.size > s.chunkSize ==> AllocState(s, layout, freshStart).ptr.None?
  {
    var next := NextChunk(s, freshStart);
    AlignUpIsLeast(s.chunks[s.current].offset, layout.align);
    AlignUpIsLeast(next.start, layout.align);
    AlignUpIsNear(next.start, layout.align);
    assert next.offset == next.start && next.end == next.start + s.chunkSize;
    assert Advance(s, freshStart).chunks[s.current + 1] == next;
    hide AlignUp;
  }

  lemma AlignUpIsNear(offset: nat, align: nat)
    requires align > 0
    ensures AlignUp(offset, align) < offset + align
  {
  }

  /** No state and no chunk address make `alloc` panic exactly if a chunk has room for the type and for
      the padding of the worst alignment. */
  lemma NeverPanicsExactlyIf(layout: Layout, chunkSize: nat)
    requires layout.align > 0
    ensures (forall s, freshStart :: Inv(s) && s.chunkSize == chunkSize && FreshFor(s, freshStart)
               ==> AllocState(s, layout, freshStart).ptr.Some?)
       <==> layout.size + layout.align - 1 <= chunkSize
  {
    if layout.size + layout.align - 1 <= chunkSize {
      forall s, freshStart | Inv(s) && s.chunkSize == chunkSize && FreshFor(s, freshStart)
        ensures AllocState(s, layout, freshStart).ptr.Some?
      {
        PanicsExactlyWhen(s, layout, freshStart);
      }
    } else {
      var s, freshStart := UnluckyArena(layout, chunkSize);
    }
  }

  // Two chunks just past a multiple of the alignment.
  lemma UnluckyArena(layout: Layout, chunkSize: nat) returns (s: ArenaState, freshStart: nat)
    requires layout.align > 0 && layout.size + layout.align - 1 > chunkSize
    ensures Inv(s) && s.chunkSize == chunkSize && FreshFor(s, freshStart)
    ensures AllocState(s, layout, freshStart).ptr.None?
  {
    var a := layout.align;
    var start := a + 1;
    freshStart := (chunkSize + 2) * a + 1;
    s := ArenaState([NewChunk(start, chunkSize)], [], 0, chunkSize);
    PastMultiple(1, a);
    PastMultiple(chunkSize + 2, a);
    LeastMultiple(chunkSize, a);
    PanicsExactlyWhen(s, layout, freshStart);
    hide AlignUp;
  }

  lemma LeastMultiple(n: nat, a: nat)
    requires a > 0
    ensures (n + 2) * a >= n + 2 * a
  {
    assert (n + 2) * a == n * a + 2 * a;
    AtLeast(n, a);
  }

  lemma AtLeast(n: nat, a: nat)
    requires a > 0
    ensures n * a >= n
  {
  }

  lemma PastMultiple(k: nat, a: nat)
    requires a > 0
    ensures AlignUp(k * a + 1, a) == k * a + a
  {
    if a == 1 {
      assert (k * a + 1) % a == 0;
    } else {
      ModuloIs(k * a + 1, a, k, 1);
    }
  }

  /** So a type no larger than a chunk may make it panic: eight bytes, to be aligned to eight, in chunks
      of eight at odd addresses. */
  lemma PanicsThoughItFits(s: ArenaState)
    requires s == ArenaState([NewChunk(1, 8)], [], 0, 8)
    ensures Inv(s) && FreshFor(s, 17) && AllocState(s, Layout(8, 8), 17).ptr.None?
  {
  }

  // ---------------------------------------------------------------------------------------
  // The same allocations after a clear
  // ---------------------------------------------------------------------------------------

  datatype Request = Request(layout: Layout, freshStart: nat)

  predicate HaveAlignment(requests: seq<Request>) {
    forall i :: 0 <= i < |requests| ==> requests[i].layout.align > 0
  }

  predicate SameLayouts(requests: seq<Request>, others: seq<Request>) {
    |requests| == |others| && forall i :: 0 <= i < |requests| ==> requests[i].layout == others[i].layout
  }

  datatype History = History(state: ArenaState, ptrs: seq<Option<nat>>)

  function AllocAll(s: ArenaState, requests: seq<Request>): (h: History)
    requires s.current < |s.chunks| && HaveAlignment(requests)
    ensures h.state.current < |h.state.chunks|
  {
    if requests == [] then History(s, [])
    else
      var last := requests[|requests| - 1];
      var h := AllocAll(s, requests[..|requests| - 1]);
      var r := AllocState(h.state, last.layout, last.freshStart);
      History(r.state, h.ptrs + [r.ptr])
  }

  // `b` has all the chunks `all` of the end of the run; where `a` has a chunk already, they agree.
  ghost predicate Shadows(a: ArenaState, b: ArenaState, all: seq<ChunkState>) {
    && a.current < |a.chunks| <= |b.chunks| == |all|
    && a.current == b.current && a.chunkSize == b.chunkSize && a.elements == b.elements
    && (forall k :: 0 <= k < |a.chunks| ==> a.chunks[k] == b.chunks[k])
    && (forall k :: 0 <= k < |all| ==> b.chunks[k].start == all[k].start)
    && (forall k :: |a.chunks| <= k < |all| ==> b.chunks[k] == NewChunk(all[k].start, a.chunkSize))
  }

  ghost predicate StartsAmong(s: ArenaState, all: seq<ChunkState>) {
    |s.chunks| <= |all| && forall k :: 0 <= k < |s.chunks| ==> s.chunks[k].start == all[k].start
  }

  // Chunks are only added, and never move.
  ghost predicate Grows(a: ArenaState, b: ArenaState) {
    |a.chunks| <= |b.chunks| && a.chunkSize == b.chunkSize
    && forall k :: 0 <= k < |a.chunks| ==> a.chunks[k].start == b.chunks[k].start && a.chunks[k].end == b.chunks[k].end
  }

  lemma AllocGrows(s: ArenaState, layout: Layout, freshStart: nat)
    requires s.current < |s.chunks| && layout.align > 0
    ensures Grows(s, AllocState(s, layout, freshStart).state)
  {
    hide AlignUp;
  }

  lemma AllocShadows(a: ArenaState, b: ArenaState, all: seq<ChunkState>, layout: Layout, freshStart: nat,
                     otherStart: nat)
    requires a.current < |a.chunks| && layout.align > 0
    requires Shadows(a, b, all)
    requires var r := AllocState(a, layout, freshStart).state;
      StartsAmong(r, all)
    ensures var r, q := AllocState(a, layout, freshStart), AllocState(b, layout, otherStart);
      r.ptr == q.ptr && Shadows(r.state, q.state, all)
  {
    hide AlignUp;
  }

  lemma {:induction false} RunShadows(a: ArenaState, b: ArenaState, all: seq<ChunkState>, requests: seq<Request>,
                                      others: seq<Request>)
    requires Shadows(a, b, all) && HaveAlignment(requests) && HaveAlignment(others) && SameLayouts(requests, others)
    requires StartsAmong(AllocAll(a, requests).state, all)
    ensures var g, h := AllocAll(a, requests), AllocAll(b, others);
      g.ptrs == h.ptrs && Shadows(g.state, h.state, all)
  {
    if requests != [] {
      var n := |requests| - 1;
      LastAlloc(a, requests);
      LastAlloc(b, others);
      PrefixLayouts(requests, others);
      hide Shadows, AllocState, AllocAll, SameLayouts, HaveAlignment, StartsAmong, Grows;
      StartsBefore(a, requests, all);
      RunShadows(a, b, all, requests[..n], others[..n]);
      var g, h := AllocAll(a, requests[..n]).state, AllocAll(b, others[..n]).state;
      AllocShadows(g, h, all, requests[n].layout, requests[n].freshStart, others[n].freshStart);
    }
  }

  lemma LastAlloc(s: ArenaState, requests: seq<Request>)
    requires s.current < |s.chunks| && HaveAlignment(requests) && requests != []
    ensures var last := requests[|requests| - 1];
      var h := AllocAll(s, requests[..|requests| - 1]);
      var r := AllocState(h.state, last.layout, last.freshStart);
      && last.layout.align > 0 && HaveAlignment(requests[..|requests| - 1])
      && AllocAll(s, requests) == History(r.state, h.ptrs + [r.ptr])
  {
    hide AllocState;
  }

  lemma PrefixLayouts(requests: seq<Request>, others: seq<Request>)
    requires HaveAlignment(requests) && HaveAlignment(others) && SameLayouts(requests, others) && requests != []
    ensures var n := |requests| - 1;
      && |others| == n + 1 && requests[n].layout == others[n].layout && requests[n].layout.align > 0
      && HaveAlignment(requests[..n]) && HaveAlignment(others[..n]) && SameLayouts(requests[..n], others[..n])
  {
  }

  lemma StartsBefore(s: ArenaState, requests: seq<Request>, all: seq<ChunkState>)
    requires s.current < |s.chunks| && HaveAlignment(requests) && requests != []
    requires StartsAmong(AllocAll(s, requests).state, all)
    ensures StartsAmong(AllocAll(s, requests[..|requests| - 1]).state, all)
  {
    hide AllocAll, AllocState, HaveAlignment, StartsAmong, Grows;
    var last := requests[|requests| - 1];
    LastAlloc(s, requests);
    var g, h := AllocAll(s, requests[..|requests| - 1]).state, AllocAll(s, requests).state;
    AllocGrows(g, last.layout, last.freshStart);
    GrownStarts(g, h, all);
  }

  lemma GrownStarts(g: ArenaState, h: ArenaState, all: seq<ChunkState>)
    requires Grows(g, h) && StartsAmong(h, all)
    ensures StartsAmong(g, all)
  {
  }

  // Chunks past the current one are empty, and all have the arena's chunk size.
  ghost predicate Tidy(s: ArenaState) {
    && s.current < |s.chunks|
    && (forall k :: 0 <= k < |s.chunks| ==> s.chunks[k].end == s.chunks[k].start + s.chunkSize)
    && (forall k :: s.current < k < |s.chunks| ==> s.chunks[k].offset == s.chunks[k].start)
  }

  lemma {:induction false} RunKeepsTidy(s: ArenaState, requests: seq<Request>)
    requires Tidy(s) && HaveAlignment(requests)
    ensures Tidy(AllocAll(s, requests).state) && Grows(s, AllocAll(s, requests).state)
  {
    if requests != [] {
      var n := |requests| - 1;
      RunKeepsTidy(s, requests[..n]);
      var t := AllocAll(s, requests[..n]).state;
      AllocGrows(t, requests[n].layout, requests[n].freshStart);
      AllocKeepsTidy(t, requests[n].layout, requests[n].freshStart);
      hide AllocState, Tidy;
    }
  }

  lemma AllocKeepsTidy(s: ArenaState, layout: Layout, freshStart: nat)
    requires Tidy(s) && layout.align > 0
    ensures Tidy(AllocState(s, layout, freshStart).state)
  {
    hide AlignUp;
  }

  /** Repeating a frame's allocations after a clear gives the same addresses and needs no new chunk. */
  lemma RepeatedFrameNeedsNoChunk(s: ArenaState, requests: seq<Request>, others: seq<Request>)
    requires Inv(s) && HaveAlignment(requests) && HaveAlignment(others) && SameLayouts(requests, others)
    ensures var g := AllocAll(ClearState(s), requests);
      var h := AllocAll(ClearState(g.state), others);
      h.ptrs == g.ptrs && h.state.elements == g.state.elements && |h.state.chunks| == |g.state.chunks|
  {
    ClearIsTidy(s);
    RunKeepsTidy(ClearState(s), requests);
    var g := AllocAll(ClearState(s), requests).state;
    hide AllocAll, Inv, ClearState, HaveAlignment, SameLayouts;
    ClearShadows(s, g);
    RunShadows(ClearState(s), ClearState(g), g.chunks, requests, others);
    hide Tidy, Grows;
  }

  lemma ClearIsTidy(s: ArenaState)
    requires Inv(s)
    ensures Tidy(ClearState(s))
  {
  }

  lemma ClearShadows(s: ArenaState, g: ArenaState)
    requires Inv(s) && Tidy(g) && Grows(ClearState(s), g)
    ensures Shadows(ClearState(s), ClearState(g), g.chunks) && StartsAmong(g, g.chunks)
  {
  }

  // ---------------------------------------------------------------------------------------
  // The arena itself
  // ---------------------------------------------------------------------------------------

  class Chunk {
    const start: nat
    const end: nat
    var offset: nat

    constructor (start: nat, size: nat)
      ensures State() == NewChunk(start, size)
    {
      this.start, this.end, offset := start, start + size, start;
    }

    function State(): ChunkState
      reads this
    {
      ChunkState(start, end, offset)
    }

    method Allocate(layout: Layout) returns (r: Option<nat>)
      requires layout.align > 0
      modifies this`offset
      ensures Fits(old(State()), layout) ==>
        State() == Bumped(old(State()), layout) && r == Some(AlignUp(old(offset), layout.align))
      ensures !Fits(old(State()), layout) ==> State() == old(State()) && r == None
    {
      var aligned := AlignUp(offset, layout.align);
      var next := aligned + layout.size;
      if next <= end {
        offset := next;
        r := Some(aligned);
      } else {
        r := None;
      }
    }

    method Reset()
      modifies this`offset
      ensures State() == old(State()).(offset := start)
    {
      offset := start;
    }
  }

  // Shared between the arena and the boxes it handed out.
  class Flag {
    var isSet: bool

    constructor ()
      ensures isSet
    {
      isSet := true;
    }
  }

  datatype ArenaBox = ArenaBox(ptr: nat, flag: Flag)

  // What `validate` asserts before every use of a box.
  predicate Validates(box: ArenaBox)
    reads box.flag`isSet
  {
    box.flag.isSet
  }

  class Arena {
    var chunks: seq<Chunk>
    var elements: seq<Element>
    var flag: Flag
    var current: nat
    const chunkSize: nat

    // Every element ever allocated and dropped, and every box handed out with the clears before it.
    ghost var made: seq<Element>
    ghost var dropped: seq<Element>
    ghost var issued: seq<(ArenaBox, nat)>
    ghost var clears: nat

    ghost predicate Distinct()
      reads this`chunks
    {
      forall j, k :: 0 <= j < k < |chunks| ==> chunks[j] != chunks[k]
    }

    ghost predicate Valid()
      reads this, chunks, flag, set i | 0 <= i < |issued| :: issued[i].0.flag
    {
      && Distinct()
      && Inv(State())
      && BoxesOk()
      && dropped + elements == made
    }

    /** A box validates if and only if the arena was not cleared since it was handed out. */
    ghost predicate BoxesOk()
      reads this`flag, this`issued, this`clears, flag`isSet, (set i | 0 <= i < |issued| :: issued[i].0.flag)`isSet
    {
      && flag.isSet
      && forall i :: 0 <= i < |issued| ==>
           && issued[i].1 <= clears
           && (Validates(issued[i].0) <==> issued[i].1 == clears)
           && (issued[i].1 == clears <==> issued[i].0.flag == flag)
    }

    function State(): ArenaState
      reads this, chunks
    {
      ArenaState(seq(|chunks|, k requires 0 <= k < |chunks| reads this, chunks => chunks[k].State()), elements,
        current, chunkSize)
    }

    constructor (chunkSize: nat, firstStart: nat)
      requires chunkSize > 0 && firstStart > 0
      ensures Valid() && fresh(chunks) && fresh(flag)
      ensures State() == ArenaState([NewChunk(firstStart, chunkSize)], [], 0, chunkSize)
      ensures made == dropped == [] && issued == [] && clears == 0
    {
      var first := new Chunk(firstStart, chunkSize);
      chunks, elements, current, this.chunkSize := [first], [], 0, chunkSize;
      flag := new Flag();
      made, dropped, issued, clears := [], [], [], 0;
    }

    method PlaceInCurrent(layout: Layout) returns (r: Option<nat>)
      requires Distinct() && current < |chunks| && layout.align > 0
      modifies {chunks[current]}`offset
      ensures State() == Placing(old(State()), layout).state.(elements := elements)
      ensures r == Placing(old(State()), layout).ptr
    {
      hide AlignUp;
      r := chunks[current].Allocate(layout);
    }

    method MoveOn(freshStart: nat)
      requires Distinct() && current < |chunks|
      modifies this`current, this`chunks
      ensures Distinct() && current < |chunks| && State() == Advance(old(State()), freshStart)
      ensures old(chunks) <= chunks && fresh(chunks[|old(chunks)|..])
    {
      current := current + 1;
      if current >= |chunks| {
        var chunk := new Chunk(freshStart, chunkSize);
        chunks := chunks + [chunk];
      }
    }

    /** Places an element and hands out its box; no box where the source panics. */
    method Alloc(layout: Layout, freshStart: nat) returns (r: Option<ArenaBox>)
      requires Valid() && layout.align > 0 && FreshFor(State(), freshStart)
      modifies this, chunks
      ensures Valid()
      ensures State() == AllocState(old(State()), layout, freshStart).state
      ensures var ptr := AllocState(old(State()), layout, freshStart).ptr;
        if ptr.Some? then
          && r == Some(ArenaBox(ptr.value, flag))
          && made == old(made) + [Element(ptr.value, layout)]
          && issued == old(issued) + [(r.value, clears)]
        else r == None && made == old(made) && issued == old(issued)
      ensures dropped == old(dropped) && clears == old(clears) && flag == old(flag)
      ensures old(chunks) <= chunks && fresh(chunks[|old(chunks)|..])
    {
      AllocKeepsInv(State(), layout, freshStart);
      assert current < |chunks|;
      ghost var after := AllocState(State(), layout, freshStart).state;
      hide Inv, FreshFor, BoxesOk, AllocState;
      var ptr := Bump(layout, freshStart);
      if ptr.None? {
        assert State() == after;
        return None;
      }
      Record(ptr.value, layout);
      assert State() == after;
      r := Some(ArenaBox(ptr.value, flag));
    }

    // Finds the place, in the current chunk or the next.
    method Bump(layout: Layout, freshStart: nat) returns (ptr: Option<nat>)
      requires Distinct() && current < |chunks| && layout.align > 0
      modifies this`current, this`chunks, chunks`offset
      ensures Distinct()
      ensures State() == AllocState(old(State()), layout, freshStart).state.(elements := elements)
      ensures ptr == AllocState(old(State()), layout, freshStart).ptr
      ensures old(chunks) <= chunks && fresh(chunks[|old(chunks)|..])
    {
      hide AlignUp;
      ptr := PlaceInCurrent(layout);
      if ptr.None? {
        MoveOn(freshStart);
        if current >= |old(chunks)| {
          assert chunks[current] == chunks[|old(chunks)|..][current - |old(chunks)|];
        }
        ptr := PlaceInCurrent(layout);
      }
    }

    method Record(ptr: nat, layout: Layout)
      requires BoxesOk() && dropped + elements == made
      modifies this`elements, this`made, this`issued
      ensures BoxesOk() && dropped + elements == made
      ensures State() == old(State()).(elements := old(elements) + [Element(ptr, layout)])
      ensures made == old(made) + [Element(ptr, layout)]
      ensures issued == old(issued) + [(ArenaBox(ptr, flag), clears)]
    {
      elements := elements + [Element(ptr, layout)];
      made := made + [Element(ptr, layout)];
      issued := issued + [(ArenaBox(ptr, flag), clears)];
    }

    method Invalidate()
      requires BoxesOk()
      modifies this`flag, this`clears, flag`isSet
      ensures BoxesOk() && fresh(flag) && clears == old(clears) + 1
      ensures forall i :: 0 <= i < |issued| ==> !Validates(issued[i].0)
    {
      flag.isSet := false;
      flag := new Flag();
      clears := clears + 1;
    }

    method ResetUsed()
      requires Distinct() && current < |chunks|
      modifies chunks`offset
      ensures State() == old(State()).(chunks := ResetUpTo(old(State()).chunks, current + 1))
    {
      ghost var before := State();
      for i := 0 to current + 1
        invariant State() == before.(chunks := ResetUpTo(before.chunks, i))
      {
        ghost var s := State();
        chunks[i].Reset();
        assert forall k :: 0 <= k < |chunks| && k != i ==> chunks[k] != chunks[i];
        assert forall k :: 0 <= k < |chunks| && k != i ==> chunks[k].State() == s.chunks[k];
        assert forall k :: 0 <= k < |chunks| ==> chunks[k].State() == ResetUpTo(before.chunks, i + 1)[k];
      }
    }

    /** Drops every element once, in order of allocation, and empties the chunks that were used. */
    method Clear()
      requires Valid()
      modifies this, chunks, flag
      ensures Valid() && chunks == old(chunks) && fresh(flag)
      ensures State() == ClearState(old(State()))
      ensures dropped == old(dropped) + old(elements) == made == old(made)
      ensures issued == old(issued) && clears == old(clears) + 1
      ensures forall i :: 0 <= i < |issued| ==> !Validates(issued[i].0)
    {
      ghost var before := State();
      ClearKeepsInv(before);
      assert current < |chunks|;
      hide Inv, BoxesOk;
      Invalidate();
      dropped, elements := dropped + elements, [];
      assert State() == before.(elements := []);
      ResetUsed();
      current := 0;
      assert State() == ClearState(before);
    }
  }
}
