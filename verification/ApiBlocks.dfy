/** Blocks handed to the application: one aligned allocation with a hidden header in front
    of it, and a chain of further allocations that live as long as the block. */
module ApiBlocks {
  import opened Basics

  const HEADER: nat := 16  // base pointer, then head of the chain
  const WORD: nat := 8
  const MAX_ALIGN: nat := 16

  // ---- alignment -----------------------------------------------------------------------

  /** Bitwise `x & ~m`. */
  function AndNot(x: nat, m: nat): nat {
    if x == 0 then 0 else (if x % 2 == 1 && m % 2 == 0 then 1 else 0) + 2 * AndNot(x / 2, m / 2)
  }

  function RoundUpPow2(alignment: nat): nat {
    if alignment < MAX_ALIGN then MAX_ALIGN else alignment
  }

  function AlignUp(x: nat, a: nat): nat
    requires a > 0
  {
    AndNot(x + (a - 1), a - 1)
  }

  ghost predicate Multiple(x: nat, a: nat) {
    exists q: nat :: IsTimes(x, q, a)
  }

  ghost predicate IsTimes(x: nat, q: nat, a: nat) {
    x == q * a
  }

  lemma {:induction false} AndNotZero(x: nat)
    ensures AndNot(x, 0) == x
  {
    if x > 0 { AndNotZero(x / 2); }
  }

  lemma TwiceTimes(q: nat, p: nat)
    ensures 2 * (q * p) == q * (2 * p)
  {
  }

  /** Masking by a power of two rounds down to a multiple of it. */
  lemma {:induction false} MaskRoundsDown(x: nat, k: nat)
    ensures Multiple(AndNot(x, Pow2(k) - 1), Pow2(k))
    ensures x - Pow2(k) < AndNot(x, Pow2(k) - 1) <= x
  {
    if k == 0 {
      AndNotZero(x);
      assert IsTimes(x, x, Pow2(k));
    } else {
      var p := Pow2(k - 1);
      MaskRoundsDown(x / 2, k - 1);
      MaskStep(x, p);
      var q: nat :| IsTimes(AndNot(x / 2, p - 1), q, p);
      TwiceTimes(q, p);
      assert IsTimes(AndNot(x, Pow2(k) - 1), q, Pow2(k));
    }
  }

  lemma MaskStep(x: nat, p: nat)
    requires p >= 1
    ensures AndNot(x, 2 * p - 1) == 2 * AndNot(x / 2, p - 1)
  {
    assert (2 * p - 1) % 2 == 1 && (2 * p - 1) / 2 == p - 1;
  }

  ghost predicate PowerOfTwo(a: nat) {
    exists k :: a == Pow2(k)
  }

  lemma {:induction false} PowersDivide(j: nat, k: nat)
    requires j <= k
    ensures Multiple(Pow2(k), Pow2(j))
    decreases k
  {
    if j == k {
      assert IsTimes(Pow2(k), 1, Pow2(j));
    } else {
      PowersDivide(j, k - 1);
      var q: nat :| IsTimes(Pow2(k - 1), q, Pow2(j));
      assert Pow2(k) == (2 * q) * Pow2(j);
      assert IsTimes(Pow2(k), 2 * q, Pow2(j));
    }
  }

  lemma MultipleOfMultiple(x: nat, a: nat, b: nat)
    requires Multiple(x, a) && Multiple(a, b)
    ensures Multiple(x, b)
  {
    var q: nat :| IsTimes(x, q, a);
    var r: nat :| IsTimes(a, r, b);
    assert q * (r * b) == (q * r) * b;
    assert IsTimes(x, q * r, b);
  }

  lemma {:induction false} PowersGrow(j: nat, k: nat)
    requires Pow2(j) <= Pow2(k)
    ensures j <= k
    decreases j
  {
    if j > 0 && k > 0 { PowersGrow(j - 1, k - 1); }
  }

  /** The stronger of the two alignments is a multiple of both. */
  lemma RoundedServesBoth(alignment: nat)
    requires PowerOfTwo(alignment)
    ensures PowerOfTwo(RoundUpPow2(alignment))
    ensures Multiple(RoundUpPow2(alignment), alignment) && Multiple(RoundUpPow2(alignment), MAX_ALIGN)
  {
    var k :| alignment == Pow2(k);
    assert Pow2(4) == MAX_ALIGN;
    if alignment < MAX_ALIGN {
      PowersGrow(k, 4);
      PowersDivide(k, 4);
      PowersDivide(4, 4);
    } else {
      PowersGrow(4, k);
      PowersDivide(4, k);
      PowersDivide(k, k);
    }
  }

  /** The usable pointer is aligned as asked, and at least as the platform aligns everything;
      it leaves the room asked for in front, and stays within the slack. */
  lemma AlignedPointer(x: nat, alignment: nat)
    requires PowerOfTwo(alignment)
    ensures var a := RoundUpPow2(alignment);
      x <= AlignUp(x, a) < x + a && Multiple(AlignUp(x, a), alignment) && Multiple(AlignUp(x, a), MAX_ALIGN)
  {
    var a := RoundUpPow2(alignment);
    RoundedServesBoth(alignment);
    var k :| a == Pow2(k);
    MaskRoundsDown(x + (a - 1), k);
    MultipleOfMultiple(AlignUp(x, a), a, alignment);
    MultipleOfMultiple(AlignUp(x, a), a, MAX_ALIGN);
  }

  /** A payload of this size fits at `p` in an allocation of `total` bytes, with room in
      front for a header or link. */
  predicate FitsAt(p: nat, size: nat, front: nat, raw: nat, total: nat) {
    raw + front <= p && p + size < raw + total
  }

  ghost predicate HasRoom(size: nat, front: nat, raw: nat, total: nat) {
    exists p :: FitsAt(p, size, front, raw, total)
  }

  lemma Wraps(n: nat)
    ensures n < TWO_64 ==> n % TWO_64 == n
    ensures n >= TWO_64 ==> n % TWO_64 <= n - TWO_64
  {
    if n >= TWO_64 { assert (n - TWO_64) % TWO_64 == n % TWO_64; }
  }

  lemma RoomExactly(front: nat, slack: nat, size: nat, raw: nat, p: nat, span: nat, total: nat)
    requires span == front + slack + size && slack < TWO_64 && raw + front <= p < raw + front + slack
    requires if span < TWO_64 then total == span else total <= span - TWO_64
    ensures span < TWO_64 <==> HasRoom(size, front, raw, total)
    ensures span < TWO_64 ==> FitsAt(p, size, front, raw, total)
  {
    if span < TWO_64 { assert FitsAt(p, size, front, raw, total); }
  }

  /** The size asked of the allocator below is computed in 64 bits. Its answer has room for
      the payload, wherever it is placed, exactly when front, slack and size fit in them; then
      the aligned pointer is such a place. */
  lemma RequestFitsExactly(front: nat, size: nat, alignment: nat, raw: nat)
    requires PowerOfTwo(alignment) && alignment < TWO_64
    ensures var a := RoundUpPow2(alignment);
      var span := front + a + size;
      && (span < TWO_64 <==> HasRoom(size, front, raw, span % TWO_64))
      && (span < TWO_64 ==> FitsAt(AlignUp(raw + front, a), size, front, raw, span % TWO_64))
  {
    var a := RoundUpPow2(alignment);
    var span := front + a + size;
    AlignedPointer(raw + front, alignment);
    Wraps(span);
    RoomExactly(front, a, size, raw, AlignUp(raw + front, a), span, span % TWO_64);
  }

  // ---- the heap ---------------------------------------------------------------------------

  /** An allocation attached to a block: where it starts, where its payload starts, and
      the payload's size. */
  datatype Piece = Piece(raw: nat, payload: nat, size: nat)

  /** A block, by its usable pointer: its raw allocation, its size, and everything attached
      so far, oldest first. */
  datatype Block = Block(base: nat, size: nat, attached: seq<Piece>)

  /** The raw allocation number `index` of a block: 0 is the block's own. */
  datatype Slot = Slot(p: nat, index: nat)

  /** Live raw allocations with their sizes, the pointer-sized words in memory, the blocks
      the application holds, and what each raw allocation was made for. */
  datatype Heap = Heap(live: map<nat, nat>, words: map<nat, nat>, blocks: map<nat, Block>, madeFor: map<nat, Slot>)

  const EMPTY_HEAP := Heap(map[], map[], map[], map[])

  predicate Touches(word: nat, lo: nat, n: nat) {
    word < lo + n && lo < word + WORD
  }

  /** Writing over a range destroys the words in it. */
  function Clear(words: map<nat, nat>, lo: nat, n: nat): map<nat, nat> {
    map k | k in words && !Touches(k, lo, n) :: words[k]
  }

  function RawAt(b: Block, j: nat): nat
    requires j <= |b.attached|
  {
    if j == 0 then b.base else b.attached[j - 1].raw
  }

  /** The chain pointer to attachment number j: null for none. */
  function Link(b: Block, j: nat): nat
    requires j <= |b.attached|
  {
    if j == 0 then 0 else b.attached[j - 1].raw
  }

  ghost predicate Holds(words: map<nat, nat>, at: nat, value: nat) {
    at in words && words[at] == value
  }

  /** The header is in front of the block, both inside the raw allocation, and records that
      allocation and the newest attachment. */
  ghost predicate HeaderOk(live: map<nat, nat>, words: map<nat, nat>, p: nat, b: Block) {
    && b.base in live && b.base + HEADER <= p && p + b.size < b.base + live[b.base]
    && Holds(words, p - HEADER, b.base) && Holds(words, p - WORD, Link(b, |b.attached|))
  }

  /** A chain link is in front of its payload, both inside their allocation, and leads to
      the next older attachment. */
  ghost predicate LinkOk(live: map<nat, nat>, words: map<nat, nat>, b: Block, j: nat)
    requires 0 < j <= |b.attached|
  {
    var x := b.attached[j - 1];
    && x.raw in live && x.raw + WORD <= x.payload && x.payload + x.size < x.raw + live[x.raw]
    && Holds(words, x.raw, Link(b, j - 1))
  }

  ghost predicate SlotOk(live: map<nat, nat>, words: map<nat, nat>, p: nat, b: Block, j: nat)
    requires j <= |b.attached|
  {
    RawAt(b, j) != 0 && if j == 0 then HeaderOk(live, words, p, b) else LinkOk(live, words, b, j)
  }

  ghost predicate Apart(live: map<nat, nat>, a: nat, b: nat)
    requires a in live && b in live
  {
    a + live[a] <= b || b + live[b] <= a
  }

  ghost predicate LiveApart(live: map<nat, nat>) {
    forall a, b :: a in live && b in live && a != b ==> Apart(live, a, b)
  }

  ghost predicate Slots(h: Heap) {
    forall p, j :: p in h.blocks && 0 <= j <= |h.blocks[p].attached| ==>
      && SlotOk(h.live, h.words, p, h.blocks[p], j)
      && RawAt(h.blocks[p], j) in h.madeFor && h.madeFor[RawAt(h.blocks[p], j)] == Slot(p, j)
  }

  /** This live allocation was made for a block that is still held. */
  ghost predicate Held(h: Heap, a: nat) {
    && a in h.madeFor && h.madeFor[a].p in h.blocks
    && var b := h.blocks[h.madeFor[a].p]; h.madeFor[a].index <= |b.attached| && RawAt(b, h.madeFor[a].index) == a
  }

  ghost predicate Inv(h: Heap) {
    LiveApart(h.live) && Slots(h) && forall a :: a in h.live ==> Held(h, a)
  }

  // ---- operations as functions ----------------------------------------------------------------

  /** What the allocator below may answer: nothing, or memory apart from all live memory. */
  ghost predicate Answers(live: map<nat, nat>, total: nat, answer: Option<nat>) {
    answer.Some? ==>
      && 0 < answer.value && answer.value + total <= TWO_64
      && forall a :: a in live ==> a + live[a] <= answer.value || answer.value + total <= a
  }

  function BlockSpan(size: nat, alignment: nat): nat {
    HEADER + RoundUpPow2(alignment) + size
  }

  function PieceSpan(size: nat, alignment: nat): nat {
    WORD + RoundUpPow2(alignment) + size
  }

  function BlockPointer(base: nat, alignment: nat): nat {
    AlignUp(base + HEADER, RoundUpPow2(alignment))
  }

  function PiecePointer(raw: nat, alignment: nat): nat {
    AlignUp(raw + WORD, RoundUpPow2(alignment))
  }

  lemma PointerPastHeader(base: nat, alignment: nat)
    requires PowerOfTwo(alignment)
    ensures BlockPointer(base, alignment) >= base + HEADER
  {
    AlignedPointer(base + HEADER, alignment);
  }

  ghost function Allocated(h: Heap, size: nat, alignment: nat, base: nat): Heap
    requires BlockPointer(base, alignment) >= HEADER
  {
    var total, p := BlockSpan(size, alignment), BlockPointer(base, alignment);
    Heap(h.live[base := total], Clear(h.words, base, total)[p - HEADER := base][p - WORD := 0],
         h.blocks[p := Block(base, size, [])], h.madeFor[base := Slot(p, 0)])
  }

  ghost function Attached(h: Heap, p: nat, size: nat, alignment: nat, raw: nat): Heap
    requires p in h.blocks && p >= WORD
  {
    var total, b := PieceSpan(size, alignment), h.blocks[p];
    var n := |b.attached|;
    Heap(h.live[raw := total], Clear(h.words, raw, total)[raw := Link(b, n)][p - WORD := raw],
         h.blocks[p := b.(attached := b.attached + [Piece(raw, PiecePointer(raw, alignment), size)])],
         h.madeFor[raw := Slot(p, n + 1)])
  }

  /** Allocation a was made for block p, as number j or a later one. */
  ghost predicate IsLater(h: Heap, p: nat, j: nat, a: nat) {
    a in h.live && a in h.madeFor && h.madeFor[a].p == p && h.madeFor[a].index >= j
  }

  ghost function LiveWithout(h: Heap, p: nat, j: nat): map<nat, nat> {
    map a | a in h.live && !IsLater(h, p, j, a) :: h.live[a]
  }

  /** Freeing makes the memory, and the words in it, unreadable. */
  ghost function WordsWithout(h: Heap, p: nat, j: nat): map<nat, nat> {
    map k | k in h.words && (forall a :: IsLater(h, p, j, a) ==> !Touches(k, a, h.live[a])) :: h.words[k]
  }

  ghost function Freed(h: Heap, p: nat): Heap {
    Heap(LiveWithout(h, p, 0), WordsWithout(h, p, 0), h.blocks - {p}, h.madeFor)
  }

  // ---- frames ------------------------------------------------------------------------------------

  /** The words that lie in a range are as they were. */
  ghost predicate KeepsSpan(was: map<nat, nat>, now: map<nat, nat>, lo: nat, n: nat) {
    forall k :: k in was && lo <= k && k + WORD <= lo + n ==> Holds(now, k, was[k])
  }

  lemma SlotFrame(live: map<nat, nat>, words: map<nat, nat>, live': map<nat, nat>, words': map<nat, nat>, p: nat,
                  b: Block, j: nat)
    requires j <= |b.attached| && SlotOk(live, words, p, b, j)
    requires var a := RawAt(b, j); a in live ==>
          a in live' && live'[a] == live[a] && KeepsSpan(words, words', a, live[a])
    ensures SlotOk(live', words', p, b, j)
  {
  }

  lemma ClearKeepsApart(words: map<nat, nat>, lo: nat, n: nat, a: nat, m: nat)
    requires a + m <= lo || lo + n <= a
    ensures KeepsSpan(words, Clear(words, lo, n), a, m)
  {
  }

  lemma WriteKeepsApart(was: map<nat, nat>, words: map<nat, nat>, at: nat, value: nat, a: nat, m: nat)
    requires KeepsSpan(was, words, a, m) && (a + m <= at || at + WORD <= a)
    ensures KeepsSpan(was, words[at := value], a, m)
  {
  }

  lemma OwnLive(h: Heap, p: nat, j: nat)
    requires Inv(h) && p in h.blocks && j <= |h.blocks[p].attached|
    ensures var a := RawAt(h.blocks[p], j);
      a in h.live && a != 0 && a in h.madeFor && h.madeFor[a] == Slot(p, j)
    ensures SlotOk(h.live, h.words, p, h.blocks[p], j)
  {
  }

  // ---- the operations keep the heap in order ------------------------------------------------------

  lemma NewSpanApart(live: map<nat, nat>, total: nat, raw: nat)
    requires LiveApart(live) && Answers(live, total, Some(raw)) && total > 0
    ensures raw !in live || live[raw] == 0
    ensures raw !in live ==> LiveApart(live[raw := total])
  {
  }

  /** Block pointers are inside their raw allocation, so a fresh one is new. */
  lemma NewPointer(h: Heap, size: nat, alignment: nat, base: nat)
    requires Inv(h) && PowerOfTwo(alignment) && Answers(h.live, BlockSpan(size, alignment), Some(base))
    ensures base !in h.live
    ensures var p := BlockPointer(base, alignment);
      base + HEADER <= p && p + size < base + BlockSpan(size, alignment) && p !in h.blocks
  {
    var p := BlockPointer(base, alignment);
    AlignedPointer(base + HEADER, alignment);
    forall q | q in h.blocks ensures h.blocks[q].base in h.live && HeaderOk(h.live, h.words, q, h.blocks[q]) {
      OwnLive(h, q, 0);
    }
    forall a | a in h.live ensures h.live[a] > 0 { LiveIsWide(h, a); }
  }

  lemma LiveIsWide(h: Heap, a: nat)
    requires Inv(h) && a in h.live
    ensures h.live[a] > 0
  {
    assert Held(h, a);
    var s := h.madeFor[a];
    OwnLive(h, s.p, s.index);
  }

  lemma HeaderWords(words: map<nat, nat>, base: nat, total: nat, p: nat, a: nat, m: nat)
    requires (a + m <= base || base + total <= a) && base + HEADER <= p < base + total
    ensures KeepsSpan(words, Clear(words, base, total)[p - HEADER := base][p - WORD := 0], a, m)
  {
    ClearKeepsApart(words, base, total, a, m);
    WriteKeepsApart(words, Clear(words, base, total), p - HEADER, base, a, m);
    WriteKeepsApart(words, Clear(words, base, total)[p - HEADER := base], p - WORD, 0, a, m);
  }

  /** A slot of another allocation survives the writing of a fresh header. */
  lemma HeaderSparesSlot(live: map<nat, nat>, words: map<nat, nat>, base: nat, total: nat, p: nat, q: nat, b: Block,
                         j: nat)
    requires Answers(live, total, Some(base)) && base !in live && base + HEADER <= p < base + total
    requires j <= |b.attached| && SlotOk(live, words, q, b, j) && RawAt(b, j) in live
    ensures SlotOk(live[base := total], Clear(words, base, total)[p - HEADER := base][p - WORD := 0], q, b, j)
  {
    var a := RawAt(b, j);
    HeaderWords(words, base, total, p, a, live[a]);
    SlotFrame(live, words, live[base := total], Clear(words, base, total)[p - HEADER := base][p - WORD := 0], q, b, j);
  }

  lemma AllocKeepsSlot(h: Heap, size: nat, alignment: nat, base: nat, q: nat, j: nat)
    requires Inv(h) && Answers(h.live, BlockSpan(size, alignment), Some(base)) && base !in h.live
    requires var p := BlockPointer(base, alignment);
      base + HEADER <= p && p + size < base + BlockSpan(size, alignment) && q != p
    requires q in h.blocks && j <= |h.blocks[q].attached|
    ensures var g, a := Allocated(h, size, alignment, base), RawAt(h.blocks[q], j);
      SlotOk(g.live, g.words, q, h.blocks[q], j) && a in g.madeFor && g.madeFor[a] == Slot(q, j)
  {
    OwnLive(h, q, j);
    HeaderSparesSlot(h.live, h.words, base, BlockSpan(size, alignment), BlockPointer(base, alignment), q,
        h.blocks[q], j);
  }

  lemma AllocKeepsSlots(h: Heap, size: nat, alignment: nat, base: nat)
    requires Inv(h) && Answers(h.live, BlockSpan(size, alignment), Some(base)) && base !in h.live
    requires var p := BlockPointer(base, alignment);
      base + HEADER <= p && p + size < base + BlockSpan(size, alignment) && p !in h.blocks
    ensures Slots(Allocated(h, size, alignment, base))
  {
    var g, p := Allocated(h, size, alignment, base), BlockPointer(base, alignment);
    forall q, j | q in g.blocks && 0 <= j <= |g.blocks[q].attached|
      ensures SlotOk(g.live, g.words, q, g.blocks[q], j)
      ensures RawAt(g.blocks[q], j) in g.madeFor && g.madeFor[RawAt(g.blocks[q], j)] == Slot(q, j)
    {
      if q != p { AllocKeepsSlot(h, size, alignment, base, q, j); }
    }
  }

  lemma AllocKeepsInv(h: Heap, size: nat, alignment: nat, base: nat)
    requires Inv(h) && PowerOfTwo(alignment) && Answers(h.live, BlockSpan(size, alignment), Some(base))
    ensures BlockPointer(base, alignment) >= HEADER && BlockPointer(base, alignment) !in h.blocks
    ensures Inv(Allocated(h, size, alignment, base))
  {
    NewPointer(h, size, alignment, base);
    NewSpanApart(h.live, BlockSpan(size, alignment), base);
    AllocKeepsSlots(h, size, alignment, base);
    var g := Allocated(h, size, alignment, base);
    forall a | a in g.live ensures Held(g, a) {
      if a != base { assert Held(h, a); }
    }
  }

  lemma AttachKeepsInv(h: Heap, p: nat, size: nat, alignment: nat, raw: nat)
    requires Inv(h) && PowerOfTwo(alignment) && p in h.blocks && p >= WORD
    requires Answers(h.live, PieceSpan(size, alignment), Some(raw))
    ensures Inv(Attached(h, p, size, alignment, raw))
  {
    var g, total := Attached(h, p, size, alignment, raw), PieceSpan(size, alignment);
    if raw in h.live { LiveIsWide(h, raw); }
    NewSpanApart(h.live, total, raw);
    forall q, j | q in g.blocks && 0 <= j <= |g.blocks[q].attached|
      ensures SlotOk(g.live, g.words, q, g.blocks[q], j)
      ensures RawAt(g.blocks[q], j) in g.madeFor && g.madeFor[RawAt(g.blocks[q], j)] == Slot(q, j)
    {
      if j <= |h.blocks[q].attached| {
        AttachKeepsSlot(h, p, size, alignment, raw, q, j);
      } else {
        AttachMakesSlot(h, p, size, alignment, raw);
      }
    }
    forall a | a in g.live ensures Held(g, a) {
      if a != raw { HeldAfterAttach(h, p, size, alignment, raw, a); }
    }
  }

  lemma HeldAfterAttach(h: Heap, p: nat, size: nat, alignment: nat, raw: nat, a: nat)
    requires p in h.blocks && p >= WORD && Held(h, a) && a != raw
    ensures Held(Attached(h, p, size, alignment, raw), a)
  {
  }

  lemma AttachMakesSlot(h: Heap, p: nat, size: nat, alignment: nat, raw: nat)
    requires Inv(h) && PowerOfTwo(alignment) && p in h.blocks && p >= WORD && raw !in h.live
    requires Answers(h.live, PieceSpan(size, alignment), Some(raw))
    ensures var g := Attached(h, p, size, alignment, raw); var n := |h.blocks[p].attached|;
      SlotOk(g.live, g.words, p, g.blocks[p], n + 1)
  {
    var g, n := Attached(h, p, size, alignment, raw), |h.blocks[p].attached|;
    AlignedPointer(raw + WORD, alignment);
    HeadReadable(h, p, raw, PieceSpan(size, alignment));
    assert Link(g.blocks[p], n) == Link(h.blocks[p], n);
    assert LinkOk(g.live, g.words, g.blocks[p], n + 1);
  }

  lemma AttachKeepsSlot(h: Heap, p: nat, size: nat, alignment: nat, raw: nat, q: nat, j: nat)
    requires Inv(h) && p in h.blocks && p >= WORD && raw !in h.live
    requires Answers(h.live, PieceSpan(size, alignment), Some(raw))
    requires q in h.blocks && j <= |h.blocks[q].attached|
    ensures var g := Attached(h, p, size, alignment, raw);
      SlotOk(g.live, g.words, q, g.blocks[q], j) && RawAt(g.blocks[q], j) == RawAt(h.blocks[q], j)
      && RawAt(h.blocks[q], j) != raw && RawAt(h.blocks[q], j) in h.madeFor
        && h.madeFor[RawAt(h.blocks[q], j)] == Slot(q, j)
  {
    OwnLive(h, q, j);
    OwnLive(h, p, 0);
    if RawAt(h.blocks[q], j) == h.blocks[p].base {
      AttachUpdatesHeader(h, p, size, alignment, raw);
    } else {
      AttachSparesSlot(h, p, size, alignment, raw, q, j);
    }
  }

  lemma LinkedWords(h: Heap, p: nat, raw: nat, total: nat, a: nat)
    requires Answers(h.live, total, Some(raw)) && total >= WORD && p in h.blocks && a in h.live
    ensures KeepsSpan(h.words, Clear(h.words, raw, total)[raw := Link(h.blocks[p], |h.blocks[p].attached|)], a,
          h.live[a])
  {
    ClearKeepsApart(h.words, raw, total, a, h.live[a]);
    WriteKeepsApart(h.words, Clear(h.words, raw, total), raw, Link(h.blocks[p], |h.blocks[p].attached|), a, h.live[a]);
  }

  lemma AttachUpdatesHeader(h: Heap, p: nat, size: nat, alignment: nat, raw: nat)
    requires Inv(h) && p in h.blocks && p >= WORD && raw !in h.live
    requires Answers(h.live, PieceSpan(size, alignment), Some(raw))
    ensures var g := Attached(h, p, size, alignment, raw); SlotOk(g.live, g.words, p, g.blocks[p], 0)
  {
    OwnLive(h, p, 0);
    LinkedWords(h, p, raw, PieceSpan(size, alignment), h.blocks[p].base);
  }

  lemma AttachSparesSlot(h: Heap, p: nat, size: nat, alignment: nat, raw: nat, q: nat, j: nat)
    requires Inv(h) && p in h.blocks && p >= WORD && raw !in h.live
    requires Answers(h.live, PieceSpan(size, alignment), Some(raw))
    requires q in h.blocks && j <= |h.blocks[q].attached| && RawAt(h.blocks[q], j) != h.blocks[p].base
    ensures var g := Attached(h, p, size, alignment, raw); SlotOk(g.live, g.words, q, g.blocks[q], j)
  {
    var g, total, a, base := Attached(h, p, size, alignment, raw), PieceSpan(size, alignment), RawAt(h.blocks[q], j),
        h.blocks[p].base;
    OwnLive(h, q, j);
    OwnLive(h, p, 0);
    LinkedWords(h, p, raw, total, a);
    assert Apart(h.live, a, base);
    WriteKeepsApart(h.words, Clear(h.words, raw, total)[raw := Link(h.blocks[p], |h.blocks[p].attached|)], p - WORD,
        raw, a, h.live[a]);
    SlotFrame(h.live, h.words, g.live, g.words, q, h.blocks[q], j);
  }

  /** The application may write anywhere in the payload it was given for slot j. */
  ghost predicate InPayload(b: Block, p: nat, j: nat, lo: nat, n: nat) {
    j <= |b.attached| &&
    if j == 0 then p <= lo && lo + n <= p + b.size
    else b.attached[j - 1].payload <= lo && lo + n <= b.attached[j - 1].payload + b.attached[j - 1].size
  }

  lemma UseKeepsInv(h: Heap, p: nat, j: nat, lo: nat, n: nat)
    requires Inv(h) && p in h.blocks && InPayload(h.blocks[p], p, j, lo, n)
    ensures Inv(h.(words := Clear(h.words, lo, n)))
  {
    var g := h.(words := Clear(h.words, lo, n));
    forall q, i | q in g.blocks && 0 <= i <= |g.blocks[q].attached| ensures SlotOk(g.live, g.words, q, g.blocks[q], i) {
      UseKeepsSlot(h, p, j, lo, n, q, i);
    }
    forall a | a in g.live ensures Held(g, a) {
      assert Held(h, a);
    }
  }

  lemma UseKeepsSlot(h: Heap, p: nat, j: nat, lo: nat, n: nat, q: nat, i: nat)
    requires Inv(h) && p in h.blocks && InPayload(h.blocks[p], p, j, lo, n)
    requires q in h.blocks && i <= |h.blocks[q].attached|
    ensures SlotOk(h.live, Clear(h.words, lo, n), q, h.blocks[q], i)
  {
    OwnLive(h, p, j);
    OwnLive(h, q, i);
    var raw, a := RawAt(h.blocks[p], j), RawAt(h.blocks[q], i);
    if a != raw {
      assert Apart(h.live, a, raw);
      ClearKeepsApart(h.words, lo, n, a, h.live[a]);
      SlotFrame(h.live, h.words, h.live, Clear(h.words, lo, n), q, h.blocks[q], i);
    } else {
      assert Slot(p, j) == Slot(q, i);
    }
  }

  lemma WithoutKeepsSpan(h: Heap, p: nat, j: nat, a: nat)
    requires LiveApart(h.live) && a in h.live && !IsLater(h, p, j, a)
    ensures a in LiveWithout(h, p, j) && KeepsSpan(h.words, WordsWithout(h, p, j), a, h.live[a])
  {
    forall k | k in h.words && a <= k && k + WORD <= a + h.live[a] ensures Holds(WordsWithout(h, p, j), k, h.words[k]) {
      forall x | IsLater(h, p, j, x) ensures !Touches(k, x, h.live[x]) {
        assert Apart(h.live, a, x);
      }
    }
  }

  lemma FreeKeepsInv(h: Heap, p: nat)
    requires Inv(h) && p in h.blocks
    ensures Inv(Freed(h, p))
  {
    var g := Freed(h, p);
    forall a, b | a in g.live && b in g.live && a != b ensures Apart(g.live, a, b) {
      assert Apart(h.live, a, b);
    }
    forall q, j | q in g.blocks && 0 <= j <= |g.blocks[q].attached|
      ensures SlotOk(g.live, g.words, q, g.blocks[q], j)
      ensures RawAt(g.blocks[q], j) in g.madeFor && g.madeFor[RawAt(g.blocks[q], j)] == Slot(q, j)
    {
      OwnLive(h, q, j);
      WithoutKeepsSpan(h, p, 0, RawAt(h.blocks[q], j));
      SlotFrame(h.live, h.words, g.live, g.words, q, h.blocks[q], j);
    }
    forall a | a in g.live ensures Held(g, a) {
      assert Held(h, a);
    }
  }

  // ---- every run --------------------------------------------------------------------------------------

  datatype Op =
    | NewBlock(size: nat, alignment: nat, answer: Option<nat>)
    | Attach(p: nat, size: nat, alignment: nat, answer: Option<nat>)
    | Use(p: nat, slot: nat, lo: nat, n: nat)
    | Release(p: nat)

  /** Alignments are powers of two, blocks are used while they are held, and the allocator
      below hands out memory that is free. */
  ghost predicate Allowed(h: Heap, op: Op) {
    match op
    case NewBlock(size, alignment, answer) => PowerOfTwo(alignment)
        && Answers(h.live, BlockSpan(size, alignment), answer)
    case Attach(p, size, alignment, answer) =>
      p in h.blocks && PowerOfTwo(alignment) && Answers(h.live, PieceSpan(size, alignment), answer)
    case Use(p, slot, lo, n) => p in h.blocks && InPayload(h.blocks[p], p, slot, lo, n)
    case Release(p) => p in h.blocks
  }

  /** A refused allocation changes nothing. */
  ghost function Do(h: Heap, op: Op): Heap
    requires Allowed(h, op)
  {
    match op
    case NewBlock(size, alignment, answer) =>
      if answer.None? then h
      else (PointerPastHeader(answer.value, alignment); Allocated(h, size, alignment, answer.value))
    case Attach(p, size, alignment, answer) =>
      if answer.None? || p < WORD then h else Attached(h, p, size, alignment, answer.value)
    case Use(_, _, lo, n) => h.(words := Clear(h.words, lo, n))
    case Release(p) => Freed(h, p)
  }

  lemma DoKeepsInv(h: Heap, op: Op)
    requires Inv(h) && Allowed(h, op)
    ensures Inv(Do(h, op))
  {
    match op
    case NewBlock(size, alignment, answer) => if answer.Some? { AllocKeepsInv(h, size, alignment, answer.value); }
    case Attach(p, size, alignment, answer) =>
      if answer.Some? {
        OwnLive(h, p, 0);
        AttachKeepsInv(h, p, size, alignment, answer.value);
      }
    case Use(p, slot, lo, n) => UseKeepsInv(h, p, slot, lo, n);
    case Release(p) => FreeKeepsInv(h, p);
  }

  ghost predicate IsRun(run: seq<Heap>, ops: seq<Op>) {
    && |run| == |ops| + 1 && run[0] == EMPTY_HEAP
    && forall i :: 0 <= i < |ops| ==> Allowed(run[i], ops[i]) && run[i + 1] == Do(run[i], ops[i])
  }

  lemma {:induction false} RunKeepsInv(run: seq<Heap>, ops: seq<Op>, k: nat)
    requires IsRun(run, ops) && k < |run|
    ensures Inv(run[k])
  {
    if k > 0 {
      RunKeepsInv(run, ops, k - 1);
      DoKeepsInv(run[k - 1], ops[k - 1]);
    }
  }

  /** Nothing leaks and nothing is freed early: over any run the live allocations are
      exactly those made for the blocks still held, each for one of them. */
  lemma LiveIsHeld(run: seq<Heap>, ops: seq<Op>, k: nat, a: nat)
    requires IsRun(run, ops) && k < |run|
    ensures a in run[k].live <==> exists p, j: nat ::
      p in run[k].blocks && j <= |run[k].blocks[p].attached| && RawAt(run[k].blocks[p], j) == a
    ensures forall p, j: nat, q, i: nat ::
      (&& p in run[k].blocks && q in run[k].blocks
       && j <= |run[k].blocks[p].attached| && i <= |run[k].blocks[q].attached|
       && RawAt(run[k].blocks[p], j) == RawAt(run[k].blocks[q], i))
      ==> p == q && i == j
    ensures run[k].blocks == map[] ==> a !in run[k].live
  {
    var h := run[k];
    RunKeepsInv(run, ops, k);
    if a in h.live { assert Held(h, a); }
    forall p, j: nat | p in h.blocks && j <= |h.blocks[p].attached|
      ensures RawAt(h.blocks[p], j) in h.live && RawAt(h.blocks[p], j) in h.madeFor
            && h.madeFor[RawAt(h.blocks[p], j)] == Slot(p, j)
    {
      OwnLive(h, p, j);
    }
  }

  // ---- freeing a block, one allocation at a time ------------------------------------------------------------

  /** The raw allocations of a block, newest attachment first, its own last. */
  ghost function FreeOrder(b: Block): seq<nat> {
    seq(|b.attached| + 1, i requires 0 <= i <= |b.attached| => RawAt(b, |b.attached| - i))
  }

  lemma OneLater(h: Heap, p: nat, j: nat, x: nat)
    requires p in h.blocks && j <= |h.blocks[p].attached| && (x in h.live ==> Held(h, x))
    requires var a := RawAt(h.blocks[p], j); a in h.live && a in h.madeFor && h.madeFor[a] == Slot(p, j)
    ensures IsLater(h, p, j, x) <==> IsLater(h, p, j + 1, x) || x == RawAt(h.blocks[p], j)
  {
  }

  /** With the later allocations gone, number j can be freed: what it records is readable,
      and freeing it leaves the heap without it. */
  ghost predicate CanFree(h: Heap, p: nat, j: nat)
    requires p in h.blocks && j <= |h.blocks[p].attached|
  {
    var b, a, words := h.blocks[p], RawAt(h.blocks[p], j), WordsWithout(h, p, j + 1);
    && a != 0 && a in h.live && a in LiveWithout(h, p, j + 1)
    && LiveWithout(h, p, j) == LiveWithout(h, p, j + 1) - {a}
    && WordsWithout(h, p, j) == Clear(words, a, h.live[a])
    && (if j == 0 then p >= HEADER && Holds(words, p - HEADER, a) else Holds(words, a, Link(b, j - 1)))
  }

  lemma FreeOneMore(h: Heap, p: nat, j: nat)
    requires Inv(h) && p in h.blocks && j <= |h.blocks[p].attached|
    ensures CanFree(h, p, j)
  {
    var a := RawAt(h.blocks[p], j);
    OwnLive(h, p, j);
    forall x: nat ensures IsLater(h, p, j, x) <==> IsLater(h, p, j + 1, x) || x == a {
      OneLater(h, p, j, x);
    }
    WithoutStep(h, p, j, a);
    WithoutKeepsSpan(h, p, j + 1, a);
  }

  lemma WithoutStep(h: Heap, p: nat, j: nat, a: nat)
    requires a in h.live && forall x: nat :: IsLater(h, p, j, x) <==> IsLater(h, p, j + 1, x) || x == a
    ensures LiveWithout(h, p, j) == LiveWithout(h, p, j + 1) - {a}
    ensures WordsWithout(h, p, j) == Clear(WordsWithout(h, p, j + 1), a, h.live[a])
  {
    forall k | k in h.words
      ensures k in WordsWithout(h, p, j) <==> k in WordsWithout(h, p, j + 1) && !Touches(k, a, h.live[a])
    {
      assert IsLater(h, p, j, a);
    }
  }

  lemma NothingFreed(h: Heap, p: nat)
    requires Inv(h) && p in h.blocks
    ensures var n := |h.blocks[p].attached|;
      LiveWithout(h, p, n + 1) == h.live && WordsWithout(h, p, n + 1) == h.words
  {
    var n := |h.blocks[p].attached|;
    forall x: nat | x in h.live ensures !IsLater(h, p, n + 1, x) {
      assert Held(h, x);
    }
  }

  lemma FreeOrderIsExact(h: Heap, p: nat)
    requires Inv(h) && p in h.blocks
    ensures var freed := FreeOrder(h.blocks[p]);
      NoDuplicates(freed) && Elements(freed) == h.live.Keys - Freed(h, p).live.Keys
  {
    var b := h.blocks[p];
    var freed := FreeOrder(b);
    forall i | 0 <= i < |freed| ensures freed[i] in h.madeFor && h.madeFor[freed[i]] == Slot(p, |b.attached| - i)
        && freed[i] in h.live {
      OwnLive(h, p, |b.attached| - i);
    }
    forall x | IsLater(h, p, 0, x) ensures x in freed {
      assert Held(h, x);
      assert freed[|b.attached| - h.madeFor[x].index] == x;
    }
    forall x ensures x in Elements(freed) <==> x in h.live && x !in Freed(h, p).live {
    }
  }

  // ---- the allocator --------------------------------------------------------------------------------------

  class ApiHeap {
    var live: map<nat, nat>
    var words: map<nat, nat>
    ghost var blocks: map<nat, Block>
    ghost var madeFor: map<nat, Slot>

    ghost function State(): Heap
      reads this
    {
      Heap(live, words, blocks, madeFor)
    }

    constructor ()
      ensures State() == EMPTY_HEAP
    {
      live, words, blocks, madeFor := map[], map[], map[], map[];
    }

    /** Takes the answer of the allocator below. */
    method Alloc(total: nat, answer: Option<nat>) returns (raw: nat)
      requires Answers(live, total, answer)
      modifies this`live, this`words
      ensures answer.None? ==> raw == 0 && live == old(live) && words == old(words)
      ensures answer.Some? ==>
        raw == answer.value && live == old(live)[raw := total] && words == Clear(old(words), raw, total)
    {
      if answer.None? {
        return 0;
      }
      raw := answer.value;
      live := live[raw := total];
      words := Clear(words, raw, total);
    }

    method Free(raw: nat)
      requires raw in live
      modifies this`live, this`words
      ensures live == old(live) - {raw} && words == Clear(old(words), raw, old(live)[raw])
    {
      words := Clear(words, raw, live[raw]);
      live := live - {raw};
    }

    /** What is asked of the allocator below, in 64 bits. */
    method SizeOf(front: nat, slack: nat, size: nat) returns (total: nat)
      ensures total == (front + slack + size) % TWO_64
      ensures front + slack + size < TWO_64 ==> total == front + slack + size
    {
      total := (front + slack + size) % TWO_64;
    }

    /** Places the header and zeroes the payload of a fresh allocation. */
    method PlaceBlock(base: nat, total: nat, p: nat, size: nat, ghost was: map<nat, nat>)
      requires words == Clear(was, base, total) && base + HEADER <= p && p + size < base + total
      modifies this`words
      ensures words == Clear(was, base, total)[p - HEADER := base][p - WORD := 0]
    {
      words := words[p - HEADER := base];
      words := words[p - WORD := 0];
      ZeroingIsHarmless(was, base, total, words, p, size);
      words := Clear(words, p, size);
    }

    method AllocApiBlock(size: nat, alignment: nat, answer: Option<nat>) returns (p: nat)
      requires Inv(State()) && Allowed(State(), NewBlock(size, alignment, answer))
      modifies this
      ensures Inv(State()) && State() == Do(old(State()), NewBlock(size, alignment, answer))
      ensures if answer.None? then p == 0
            else p in blocks && p !in old(blocks) && blocks[p] == Block(answer.value, size, [])
      ensures answer.Some? ==> Multiple(p, alignment) && Multiple(p, MAX_ALIGN)
    {
      ghost var was := State();
      var a := RoundUpPow2(alignment);
      var total := SizeOf(HEADER, a, size);
      assert answer.Some? ==> total == HEADER + a + size;
      var base := Alloc(total, answer);
      if base == 0 {
        return 0;
      }
      p := AlignUp(base + HEADER, a);
      ghost var next := AllocFacts(was, size, alignment, base, total, p);
      InstallBlock(base, total, p, size, was.words);
      assert State() == next;
    }

    /** Places a block in a fresh allocation and hands it to the application. */
    method InstallBlock(base: nat, total: nat, p: nat, size: nat, ghost was: map<nat, nat>)
      requires words == Clear(was, base, total) && base + HEADER <= p && p + size < base + total
      modifies this`words, this`blocks, this`madeFor
      ensures words == Clear(was, base, total)[p - HEADER := base][p - WORD := 0]
      ensures blocks == old(blocks)[p := Block(base, size, [])] && madeFor == old(madeFor)[base := Slot(p, 0)]
    {
      PlaceBlock(base, total, p, size, was);
      blocks := blocks[p := Block(base, size, [])];
      madeFor := madeFor[base := Slot(p, 0)];
    }

    /** Links a fresh allocation into the block's chain and zeroes its payload. */
    method PlacePiece(p: nat, raw: nat, total: nat, payload: nat, size: nat, ghost was: map<nat, nat>)
      requires words == Clear(was, raw, total) && raw + WORD <= payload && payload + size < raw + total
      requires p >= HEADER && p - WORD in words && (raw + total <= p - HEADER || p <= raw)
      modifies this`words
      ensures words == Clear(was, raw, total)[raw := old(words)[p - WORD]][p - WORD := raw]
    {
      words := words[raw := words[p - WORD]];
      words := words[p - WORD := raw];
      ZeroingIsHarmless(was, raw, total, words, payload, size);
      words := Clear(words, payload, size);
    }

    /** Null when there is no block or no memory; then nothing changes. */
    method AttachBytes(p: nat, size: nat, alignment: nat, answer: Option<nat>) returns (payload: nat)
      requires Inv(State()) && (p == 0 || Allowed(State(), Attach(p, size, alignment, answer)))
      modifies this
      ensures Inv(State())
      ensures p == 0 || answer.None? ==> payload == 0 && State() == old(State())
      ensures p != 0 && answer.Some? ==>
        && State() == Do(old(State()), Attach(p, size, alignment, answer))
        && p in blocks && blocks[p]
          == old(blocks)[p].(attached := old(blocks)[p].attached + [Piece(answer.value, payload, size)])
        && Multiple(payload, alignment) && Multiple(payload, MAX_ALIGN)
    {
      if p == 0 {
        return 0;
      }
      ghost var was := State();
      var a := RoundUpPow2(alignment);
      var total := SizeOf(WORD, a, size);
      assert answer.Some? ==> total == WORD + a + size;
      var raw := Alloc(total, answer);
      if raw == 0 {
        return 0;
      }
      AttachFacts(was, p, size, alignment, raw);
      payload := AlignUp(raw + WORD, a);
      PlacePiece(p, raw, WORD + a + size, payload, size, was.words);
      blocks := blocks[p := blocks[p].(attached := blocks[p].attached + [Piece(raw, payload, size)])];
      madeFor := madeFor[raw := Slot(p, |was.blocks[p].attached| + 1)];
      assert State() == Attached(was, p, size, alignment, raw);
    }

    /** The header's chain pointer and base can be read while the block is held. */
    method FirstLink(p: nat) returns (node: nat)
      requires Inv(State()) && p in blocks
      ensures node == Link(blocks[p], |blocks[p].attached|)
    {
      OwnLive(State(), p, 0);
      node := words[p - WORD];
    }

    /** Frees attachment j of a block whose later ones are gone, and returns the link it held. */
    method FreeNext(ghost p: nat, ghost j: nat, raw: nat, ghost was: Heap) returns (next: nat)
      requires p in was.blocks && 0 < j <= |was.blocks[p].attached| && raw == RawAt(was.blocks[p], j)
      requires CanFree(was, p, j) && live == LiveWithout(was, p, j + 1) && words == WordsWithout(was, p, j + 1)
      modifies this`live, this`words
      ensures next == Link(was.blocks[p], j - 1)
      ensures live == LiveWithout(was, p, j) && words == WordsWithout(was, p, j)
    {
      next := words[raw];
      Free(raw);
    }

    method FreeBase(p: nat, ghost was: Heap) returns (base: nat)
      requires p in was.blocks
      requires CanFree(was, p, 0) && live == LiveWithout(was, p, 1) && words == WordsWithout(was, p, 1)
      modifies this`live, this`words
      ensures base == was.blocks[p].base
      ensures live == LiveWithout(was, p, 0) && words == WordsWithout(was, p, 0)
    {
      base := words[p - HEADER];
      Free(base);
    }

    /** Frees every attachment, newest first, then the block's own allocation: each raw
        allocation made for the block, once. */
    method FreeApiBlock(p: nat) returns (freed: seq<nat>)
      requires Inv(State()) && (p == 0 || Allowed(State(), Release(p)))
      modifies this
      ensures Inv(State())
      ensures p == 0 ==> State() == old(State()) && freed == []
      ensures p != 0 ==> State() == Do(old(State()), Release(p))
      ensures p != 0 ==>
        freed == FreeOrder(old(blocks)[p]) && NoDuplicates(freed) && Elements(freed) == old(live).Keys - live.Keys
    {
      freed := [];
      if p == 0 {
        return;
      }
      ghost var was := State();
      forall j | 0 <= j <= |blocks[p].attached| ensures CanFree(was, p, j) { FreeOneMore(was, p, j); }
      NothingFreed(was, p);
      var node := FirstLink(p);
      freed := FreeChain(p, node, was);
      blocks := blocks - {p};
      assert State() == Freed(was, p);
      FreeKeepsInv(was, p);
      FreeOrderIsExact(was, p);
    }

    method FreeChain(p: nat, first: nat, ghost was: Heap) returns (freed: seq<nat>)
      requires p in was.blocks && forall j :: 0 <= j <= |was.blocks[p].attached| ==> CanFree(was, p, j)
      requires var n := |was.blocks[p].attached|;
        first == Link(was.blocks[p], n) && live == LiveWithout(was, p, n + 1) && words == WordsWithout(was, p, n + 1)
      modifies this`live, this`words
      ensures freed == FreeOrder(was.blocks[p])
      ensures live == LiveWithout(was, p, 0) && words == WordsWithout(was, p, 0)
    {
      ghost var b := was.blocks[p];
      ghost var j := |b.attached|;
      freed := [];
      var node := first;
      while node != 0
        invariant 0 <= j <= |b.attached| && node == Link(b, j)
        invariant freed == FreeOrder(b)[..|b.attached| - j]
        invariant live == LiveWithout(was, p, j + 1) && words == WordsWithout(was, p, j + 1)
        decreases j
      {
        assert CanFree(was, p, j);
        FreeOrderNext(b, j);
        freed := freed + [node];
        node := FreeNext(p, j, node, was);
        j := j - 1;
      }
      assert CanFree(was, p, j);
      FreeOrderEnds(b);
      var base := FreeBase(p, was);
      freed := freed + [base];
    }
  }

  lemma FreeOrderEnds(b: Block)
    ensures |FreeOrder(b)| == |b.attached| + 1 && FreeOrder(b) == FreeOrder(b)[..|b.attached|] + [b.base]
  {
    assert FreeOrder(b)[|b.attached|] == RawAt(b, 0);
  }

  lemma FreeOrderNext(b: Block, j: nat)
    requires 0 < j <= |b.attached|
    ensures var n := |b.attached|;
      |FreeOrder(b)| == n + 1 && FreeOrder(b)[..n - (j - 1)] == FreeOrder(b)[..n - j] + [Link(b, j)]
  {
    assert FreeOrder(b)[|b.attached| - j] == RawAt(b, j);
  }

  /** Everything a new block needs to know. */
  lemma AllocFacts(h: Heap, size: nat, alignment: nat, base: nat, total: nat, p: nat) returns (g: Heap)
    requires total == BlockSpan(size, alignment) && p == BlockPointer(base, alignment)
    requires Inv(h) && Allowed(h, NewBlock(size, alignment, Some(base)))
    ensures base + HEADER <= p && p + size < base + total && p !in h.blocks
    ensures Multiple(p, alignment) && Multiple(p, MAX_ALIGN)
    ensures g.live == h.live[base := total] && g.words == Clear(h.words, base, total)[p - HEADER := base][p - WORD := 0]
    ensures g.blocks == h.blocks[p := Block(base, size, [])] && g.madeFor == h.madeFor[base := Slot(p, 0)]
    ensures Inv(g) && g == Do(h, NewBlock(size, alignment, Some(base)))
  {
    NewPointer(h, size, alignment, base);
    AlignedPointer(base + HEADER, alignment);
    AllocKeepsInv(h, size, alignment, base);
    g := Allocated(h, size, alignment, base);
  }

  /** Everything an attachment needs to know. */
  lemma AttachFacts(h: Heap, p: nat, size: nat, alignment: nat, raw: nat)
    requires Inv(h) && Allowed(h, Attach(p, size, alignment, Some(raw)))
    ensures var total, payload := PieceSpan(size, alignment), PiecePointer(raw, alignment);
      && p >= HEADER && Holds(Clear(h.words, raw, total), p - WORD, Link(h.blocks[p], |h.blocks[p].attached|))
      && (raw + total <= p - HEADER || p <= raw)
      && raw + WORD <= payload && payload + size < raw + total
      && Multiple(payload, alignment) && Multiple(payload, MAX_ALIGN)
      && Inv(Attached(h, p, size, alignment, raw))
  {
    HeadReadable(h, p, raw, PieceSpan(size, alignment));
    AlignedPointer(raw + WORD, alignment);
    AttachKeepsInv(h, p, size, alignment, raw);
  }

  /** Zeroing the payload destroys no word: the header or link is in front of it, and the
      rest of the fresh span held none. */
  lemma ZeroingIsHarmless(was: map<nat, nat>, raw: nat, total: nat, words: map<nat, nat>, lo: nat, n: nat)
    requires raw <= lo && lo + n <= raw + total
    requires forall k :: k in words ==> k in Clear(was, raw, total) || k + WORD <= lo || raw + total <= k
    ensures Clear(words, lo, n) == words
  {
  }

  lemma HeadReadable(h: Heap, p: nat, raw: nat, total: nat)
    requires Inv(h) && p in h.blocks && Answers(h.live, total, Some(raw))
    ensures p >= HEADER && Holds(Clear(h.words, raw, total), p - WORD, Link(h.blocks[p], |h.blocks[p].attached|))
    ensures raw + total <= p - HEADER || p <= raw
  {
    OwnLive(h, p, 0);
    var base := h.blocks[p].base;
    ClearKeepsApart(h.words, raw, total, base, h.live[base]);
  }
}
