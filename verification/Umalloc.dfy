/**
 The user-level allocator of user/umalloc.c: a circular, address-ordered, first-fit free list of headers.
 Addresses count headers (16 bytes), as the source's pointer arithmetic does.
 */
module Umalloc {
  import opened Collections

  type Addr = nat

  /**
   ptr and size are the header fields in memory and freep the search start. The rest is what they stand for:
   free are the blocks on the free list, base included; live are the blocks that malloc has handed out; owner
   says for each unit that sbrk ever returned which block, free or live, it belongs to.
   */
  datatype Heap = Heap(
    base: Addr,
    ptr: map<Addr, Addr>,
    size: map<Addr, nat>,
    freep: Addr,
    free: set<Addr>,
    live: set<Addr>,
    owner: map<Addr, Addr>
  )

  /** b comes after a in the cycle of free blocks by address: the next higher one, or base after the highest. */
  predicate Follows(base: Addr, free: set<Addr>, a: Addr, b: Addr) {
    || (a < b && forall c :: c in free && c > a ==> b <= c)
    || (b == base && forall c :: c in free ==> c <= a)
  }

  /** The links form one address-ordered cycle through the free blocks, which starts at the static base. */
  ghost predicate Ring(h: Heap) {
    && h.base in h.free
    && h.freep in h.free
    && (forall a {:trigger Linked(h, a)} :: a in h.free ==> h.base <= a && Linked(h, a))
  }

  ghost predicate Linked(h: Heap, a: Addr) {
    a in h.ptr && h.ptr[a] in h.free && Follows(h.base, h.free, a, h.ptr[a])
  }

  /** Every block but base has units, and no block is both free and live. */
  ghost predicate Sizes(h: Heap) {
    && (forall a :: a in h.free ==> a in h.size && (h.size[a] == 0 <==> a == h.base))
    && (forall a :: a in h.live ==> a in h.size && h.size[a] > 0 && a !in h.free && a > h.base)
  }

  /** The start of a block that has units. */
  predicate Head(h: Heap, b: Addr) {
    b in h.live || (b in h.free && b != h.base)
  }

  predicate Has(h: Heap, b: Addr, u: Addr) {
    b in h.size && b <= u < b + h.size[b]
  }

  /** Each unit is in exactly one block, and each block has all its units. */
  ghost predicate Owned(h: Heap) {
    && (forall u :: u in h.owner ==> Head(h, h.owner[u]) && Has(h, h.owner[u], u))
    && (forall b, u :: Head(h, b) && Has(h, b, u) ==> u in h.owner && h.owner[u] == b)
  }

  ghost predicate Weak(h: Heap) {
    Ring(h) && Sizes(h) && Owned(h)
  }

  /** The free block a is not adjacent to the next one. */
  predicate Gap(h: Heap, a: Addr) {
    a in h.size && a in h.ptr && (h.ptr[a] == h.base || a + h.size[a] < h.ptr[a])
  }

  /** No two free blocks are adjacent, except perhaps those in open with their next. */
  ghost predicate Coalesced(h: Heap, open: set<Addr>) {
    forall a :: a in h.free && a !in open ==> Gap(h, a)
  }

  ghost predicate Inv(h: Heap) {
    Weak(h) && Coalesced(h, {})
  }

  /** A block ends before the next head begins. */
  lemma Apart(h: Heap, b: Addr, c: Addr)
    requires Owned(h) && Sizes(h) && Head(h, b) && Head(h, c) && b < c
    ensures b + h.size[b] <= c
  {
    assert Has(h, c, c);
    if b + h.size[b] > c {
      assert Has(h, b, c);
    }
  }

  /** The live block bp lies between p and the next free block. */
  ghost predicate Between(h: Heap, p: Addr, bp: Addr) {
    p in h.free && p in h.ptr && p < bp && (h.ptr[p] == h.base || bp < h.ptr[p])
  }

  /** bp, so far live, put on the free list after p. */
  ghost function Inserted(h: Heap, p: Addr, bp: Addr): Heap
    requires p in h.ptr
  {
    h.(ptr := h.ptr[bp := h.ptr[p]][p := bp], free := h.free + {bp}, freep := p, live := h.live - {bp})
  }

  lemma FollowsStill(base: Addr, free: set<Addr>, p: Addr, n: Addr, bp: Addr, a: Addr, b: Addr)
    requires Follows(base, free, p, n) && p in free && p < bp && (n == base || bp < n) && base <= p
    requires Follows(base, free, a, b) && a in free && b in free && a != p
    ensures Follows(base, free + {bp}, a, b)
  {
    if a < p {
      assert b <= p;
    }
  }

  lemma FollowsNew(base: Addr, free: set<Addr>, p: Addr, n: Addr, bp: Addr)
    requires Follows(base, free, p, n) && p < bp && (n == base || bp < n) && base <= p
    ensures Follows(base, free + {bp}, p, bp) && Follows(base, free + {bp}, bp, n)
  {
  }

  lemma InsertRing(h: Heap, p: Addr, bp: Addr)
    requires Ring(h) && bp > h.base && bp !in h.free && Between(h, p, bp)
    ensures Ring(Inserted(h, p, bp))
  {
    hide Follows;
    var h' := Inserted(h, p, bp);
    assert Linked(h, p);
    FollowsNew(h.base, h.free, p, h.ptr[p], bp);
    forall a | a in h'.free
      ensures h.base <= a && Linked(h', a)
    {
      if a != bp && a != p {
        assert Linked(h, a);
        FollowsStill(h.base, h.free, p, h.ptr[p], bp, a, h.ptr[a]);
      }
    }
  }

  lemma InsertKeeps(h: Heap, p: Addr, bp: Addr)
    requires Inv(h) && bp in h.live && Between(h, p, bp)
    ensures var h' := Inserted(h, p, bp); Weak(h') && Coalesced(h', {p, bp})
  {
    hide Ring;
    var h' := Inserted(h, p, bp);
    InsertRing(h, p, bp);
    assert forall b :: Head(h', b) <==> Head(h, b);
    forall a | a in h'.free && a !in {p, bp}
      ensures Gap(h', a)
    {
      assert Gap(h, a);
    }
  }

  /** The block that a's header points to. */
  function Next(h: Heap, a: Addr): Addr {
    if a in h.ptr then h.ptr[a] else h.base
  }

  function Units(h: Heap, a: Addr): nat {
    if a in h.size then h.size[a] else 0
  }

  /** The free block a with the next one, which begins where a ends, merged into it. */
  ghost function Joined(h: Heap, a: Addr): Heap {
    var n := Next(h, a);
    h.(ptr := h.ptr[a := Next(h, n)], size := h.size[a := Units(h, a) + Units(h, n)], free := h.free - {n},
       owner := map u | u in h.owner :: if h.owner[u] == n then a else h.owner[u])
  }

  lemma FollowsSkip(base: Addr, free: set<Addr>, a: Addr, n: Addr, m: Addr, c: Addr, d: Addr)
    requires Follows(base, free, a, n) && Follows(base, free, n, m) && a < n && base <= a && a in free && n in free
    requires Follows(base, free, c, d) && c in free && d in free
    ensures m != n && Follows(base, free - {n}, a, m)
    ensures c != a && c != n ==> d != n && Follows(base, free - {n}, c, d)
  {
    if c < a {
      assert d <= a;
    }
  }

  lemma JoinRing(h: Heap, a: Addr)
    requires Ring(h) && a in h.free && h.freep != Next(h, a) && a < Next(h, a)
    ensures Ring(Joined(h, a))
  {
    hide Follows;
    assert Linked(h, a);
    var h', n := Joined(h, a), Next(h, a);
    assert Linked(h, n);
    forall c | c in h'.free
      ensures h.base <= c && Linked(h', c)
    {
      assert Linked(h, c);
      FollowsSkip(h.base, h.free, a, n, h.ptr[n], c, h.ptr[c]);
    }
  }

  lemma JoinOwned(h: Heap, a: Addr)
    requires Sizes(h) && Owned(h) && a in h.free && a != h.base && Next(h, a) in h.free && a + Units(h, a) == Next(h, a)
    ensures Sizes(Joined(h, a)) && Owned(Joined(h, a))
  {
    var h', n := Joined(h, a), Next(h, a);
    forall u | u in h'.owner
      ensures Head(h', h'.owner[u]) && Has(h', h'.owner[u], u)
    {
      assert Head(h, h.owner[u]) && Has(h, h.owner[u], u);
    }
    forall b, u | Head(h', b) && Has(h', b, u)
      ensures u in h'.owner && h'.owner[u] == b
    {
      if b == a {
        assert Has(h, a, u) || Has(h, n, u);
      } else {
        assert Has(h, b, u);
      }
    }
  }

  /** Merging a with the next block closes a's gap and leaves the others. */
  lemma JoinKeeps(h: Heap, a: Addr, open: set<Addr>)
    requires Weak(h) && a in h.free && a != h.base && a + Units(h, a) == Next(h, a) && h.freep != Next(h, a)
    requires Coalesced(h, open) && Next(h, a) !in open
    ensures var h' := Joined(h, a); Weak(h') && Coalesced(h', open - {a})
  {
    hide Owned, Follows, Linked;
    NextFree(h, a);
    JoinRing(h, a);
    JoinOwned(h, a);
    var h', n := Joined(h, a), Next(h, a);
    assert Gap(h, n);
    forall c | c in h'.free && c !in open - {a}
      ensures Gap(h', c)
    {
      if c != a {
        assert Gap(h, c);
      }
    }
  }

  lemma NextFree(h: Heap, a: Addr)
    requires Ring(h) && a in h.free
    ensures a in h.ptr && Next(h, a) in h.free
  {
    assert Linked(h, a);
  }

  /** What free does to the free list when it has found that bp belongs after p. */
  ghost function Released(h: Heap, p: Addr, bp: Addr): Heap
    requires p in h.ptr
  {
    var h1 := Inserted(h, p, bp);
    var h2 := if bp + Units(h, bp) == h.ptr[p] then Joined(h1, bp) else h1;
    if p + Units(h, p) == bp then Joined(h2, p) else h2
  }

  lemma ReleaseRight(h: Heap, p: Addr, bp: Addr)
    requires Inv(h) && bp in h.live && Between(h, p, bp)
    ensures var h1 := Inserted(h, p, bp);
            var h2 := if bp + Units(h, bp) == h.ptr[p] then Joined(h1, bp) else h1;
            Weak(h2) && Coalesced(h2, {p}) && h2.freep == p && Next(h2, p) == bp && bp in h2.free && Units(h2, p) == Units(h, p)
  {
    hide Follows, Linked;
    var h1, n := Inserted(h, p, bp), h.ptr[p];
    NextFree(h, p);
    InsertKeeps(h, p, bp);
    if bp + Units(h, bp) == n {
      JoinKeeps(h1, bp, {p, bp});
      assert {p, bp} - {bp} == {p};
    } else {
      if n != h.base {
        Apart(h, bp, n);
      }
      assert Gap(h1, bp);
    }
  }

  lemma ReleaseKeeps(h: Heap, p: Addr, bp: Addr)
    requires Inv(h) && bp in h.live && Between(h, p, bp)
    ensures Inv(Released(h, p, bp))
  {
    hide Follows, Linked, Owned;
    ReleaseRight(h, p, bp);
    var h1 := Inserted(h, p, bp);
    var h2 := if bp + Units(h, bp) == h.ptr[p] then Joined(h1, bp) else h1;
    if p + Units(h, p) == bp {
      JoinKeeps(h2, p, {p});
      assert {p} - {p} == {};
    } else {
      if p != h.base {
        Apart(h2, p, bp);
      }
      assert Gap(h2, p);
    }
  }

  /** The free block p taken whole off the list, from between prevp and the next. */
  ghost function Taken(h: Heap, prevp: Addr, p: Addr): Heap {
    h.(ptr := h.ptr[prevp := Next(h, p)], free := h.free - {p}, live := h.live + {p}, freep := prevp)
  }

  lemma TakeRing(h: Heap, prevp: Addr, p: Addr)
    requires Ring(h) && prevp in h.free && Next(h, prevp) == p && p != h.base
    ensures Ring(Taken(h, prevp, p)) && (Next(h, p) == h.base || p < Next(h, p))
  {
    hide Follows;
    assert Linked(h, prevp);
    assert Linked(h, p);
    var h' := Taken(h, prevp, p);
    FollowsUp(h.base, h.free, prevp, p);
    if h.ptr[p] != h.base {
      FollowsUp(h.base, h.free, p, h.ptr[p]);
    }
    forall c | c in h'.free
      ensures h.base <= c && Linked(h', c)
    {
      assert Linked(h, c);
      FollowsSkip(h.base, h.free, prevp, p, h.ptr[p], c, h.ptr[c]);
    }
  }

  lemma TakeKeeps(h: Heap, prevp: Addr, p: Addr)
    requires Inv(h) && prevp in h.free && Next(h, prevp) == p && p != h.base
    ensures Inv(Taken(h, prevp, p))
  {
    hide Ring;
    TakeRing(h, prevp, p);
    NextFree(h, prevp);
    AboveBase(h, p);
    var h' := Taken(h, prevp, p);
    assert forall b :: Head(h', b) <==> Head(h, b);
    forall c | c in h'.free
      ensures Gap(h', c)
    {
      assert Gap(h, c) && Gap(h, p);
    }
  }

  lemma AboveBase(h: Heap, a: Addr)
    requires Ring(h) && a in h.free
    ensures h.base <= a
  {
    assert Linked(h, a);
  }

  lemma FollowsUp(base: Addr, free: set<Addr>, a: Addr, b: Addr)
    requires Follows(base, free, a, b) && b != base
    ensures a < b
  {
  }

  /** The last n units of the free block p made a live block of their own. */
  ghost function Split(h: Heap, prevp: Addr, p: Addr, n: nat): Heap
    requires Units(h, p) > n
  {
    var q := p + Units(h, p) - n;
    h.(size := h.size[p := Units(h, p) - n][q := n], live := h.live + {q}, freep := prevp,
       owner := map u | u in h.owner :: if h.owner[u] == p && u >= q then q else h.owner[u])
  }

  lemma SplitKeeps(h: Heap, prevp: Addr, p: Addr, n: nat)
    requires Inv(h) && prevp in h.free && p in h.free && p != h.base && 0 < n < Units(h, p)
    ensures Inv(Split(h, prevp, p, n))
  {
    hide Follows, Linked;
    var h', q := Split(h, prevp, p, n), p + Units(h, p) - n;
    AboveBase(h, p);
    assert Ring(h') by {
      forall a | a in h'.free
        ensures h.base <= a && Linked(h', a)
      {
        SplitLinked(h, h', a);
      }
    }
    SplitOwned(h, prevp, p, n);
    forall c | c in h'.free
      ensures Gap(h', c)
    {
      assert Gap(h, c);
    }
  }

  lemma SplitLinked(h: Heap, h': Heap, a: Addr)
    requires Ring(h) && a in h.free && h'.free == h.free && h'.ptr == h.ptr && h'.base == h.base
    ensures h.base <= a && Linked(h', a)
  {
    assert Linked(h, a);
  }

  /** Inside a free block there is no other head. */
  lemma SplitFresh(h: Heap, p: Addr, q: Addr)
    requires Sizes(h) && Owned(h) && p in h.free && p > h.base && p < q < p + Units(h, p)
    ensures q !in h.free && q !in h.live && q > h.base
  {
    assert Has(h, p, q);
    if Head(h, q) {
      assert Has(h, q, q);
    }
  }

  lemma SplitOwned(h: Heap, prevp: Addr, p: Addr, n: nat)
    requires Sizes(h) && Owned(h) && p in h.free && p > h.base && 0 < n < Units(h, p)
    ensures Sizes(Split(h, prevp, p, n)) && Owned(Split(h, prevp, p, n))
  {
    var h', q := Split(h, prevp, p, n), p + Units(h, p) - n;
    SplitFresh(h, p, q);
    forall u | u in h'.owner
      ensures Head(h', h'.owner[u]) && Has(h', h'.owner[u], u)
    {
      assert Head(h, h.owner[u]) && Has(h, h.owner[u], u);
    }
    forall b, u | Head(h', b) && Has(h', b, u)
      ensures u in h'.owner && h'.owner[u] == b
    {
      if b == q || b == p {
        assert Has(h, p, u);
      } else {
        assert Has(h, b, u);
      }
    }
  }

  /** All units lie below brk. */
  ghost predicate HeapBelow(h: Heap, brk: Addr) {
    h.base < brk && forall u :: u in h.owner ==> u < brk
  }

  lemma HeadsBelow(h: Heap, brk: Addr, b: Addr)
    requires Inv(h) && HeapBelow(h, brk) && (b in h.free || b in h.live)
    ensures b < brk
  {
    if b != h.base {
      assert Head(h, b) && Has(h, b, b);
    }
  }

  predicate Within(a: Addr, n: nat, u: Addr) {
    a <= u < a + n
  }

  /** The n units that sbrk returned at a, as one live block. */
  ghost function Grown(h: Heap, a: Addr, n: nat): Heap {
    h.(size := h.size[a := n], live := h.live + {a}, owner := h.owner + map u | a <= u < a + n && Within(a, n, u) :: a)
  }

  lemma GrowKeeps(h: Heap, brk: Addr, a: Addr, n: nat)
    requires Inv(h) && HeapBelow(h, brk) && a >= brk && n > 0
    ensures Inv(Grown(h, a, n)) && HeapBelow(Grown(h, a, n), a + n) && a !in h.live
    ensures Grown(h, a, n).owner.Keys == h.owner.Keys + Region(a, n)
  {
    hide Follows, Linked;
    var h' := Grown(h, a, n);
    forall b | b in h.free || b in h.live
      ensures b < a
    {
      HeadsBelow(h, brk, b);
    }
    forall b | b in h'.free
      ensures h.base <= b && Linked(h', b) && Gap(h', b)
    {
      SplitLinked(h, h', b);
      assert Gap(h, b);
    }
    GrowOwned(h, brk, a, n);
  }

  lemma GrowOwned(h: Heap, brk: Addr, a: Addr, n: nat)
    requires Sizes(h) && Owned(h) && HeapBelow(h, brk) && a >= brk && n > 0
    requires forall b :: b in h.free || b in h.live ==> b < a
    ensures Owned(Grown(h, a, n))
  {
    var h' := Grown(h, a, n);
    forall u | u in h'.owner
      ensures Head(h', h'.owner[u]) && Has(h', h'.owner[u], u)
    {
      if u in h.owner {
        assert Head(h, h.owner[u]) && Has(h, h.owner[u], u);
      }
    }
    forall b, u | Head(h', b) && Has(h', b, u)
      ensures u in h'.owner && h'.owner[u] == b
    {
      if b != a {
        assert Head(h, b) && Has(h, b, u);
      }
    }
  }

  lemma Fresh(base: Addr, ptr: map<Addr, Addr>, size: map<Addr, nat>)
    requires base in ptr && ptr[base] == base && base in size && size[base] == 0
    ensures Inv(Heap(base, ptr, size, base, {base}, {}, map[]))
  {
    var h := Heap(base, ptr, size, base, {base}, {}, map[]);
    forall a | a in h.free
      ensures Linked(h, a)
    {
    }
  }

  /** Header words that belong to live blocks other than b are not written. */
  ghost predicate LiveKept(h: Heap, h': Heap, b: Addr) {
    forall u :: u in h.owner && h.owner[u] in h.live && h.owner[u] != b ==>
      && u in h'.owner && h'.owner[u] == h.owner[u]
      && (u in h.ptr <==> u in h'.ptr) && (u in h.ptr ==> h'.ptr[u] == h.ptr[u])
      && (u in h.size <==> u in h'.size) && (u in h.size ==> h'.size[u] == h.size[u])
  }

  lemma LinkFacts(h: Heap, p: Addr)
    requires Inv(h) && p in h.free
    ensures h.base <= p && p in h.ptr && h.ptr[p] in h.free
    ensures p < h.ptr[p] || h.ptr[p] == h.base
    ensures h.ptr[p] <= p ==> forall c :: c in h.free ==> c <= p
    ensures p < h.ptr[p] ==> forall c :: c in h.free && c > p ==> h.ptr[p] <= c
  {
    assert Linked(h, p);
    if h.ptr[p] == h.base {
      assert Linked(h, h.base);
    }
  }

  lemma LiveFacts(h: Heap, bp: Addr)
    requires Inv(h) && bp in h.live
    ensures bp !in h.free && bp > h.base && bp in h.size && h.freep in h.free
  {
  }

  /** The words that free writes. */
  lemma ReleasedWords(h: Heap, p: Addr, bp: Addr)
    requires Inv(h) && bp in h.live && Between(h, p, bp)
    ensures bp in h.size && h.ptr[p] in h.ptr && h.ptr[p] in h.size && p in h.size
    ensures var h', next := Released(h, p, bp), h.ptr[p];
            var size1 := if bp + h.size[bp] == next then h.size[bp := h.size[bp] + h.size[next]] else h.size;
            var ptr1 := h.ptr[bp := if bp + h.size[bp] == next then h.ptr[next] else next];
            && h'.size == (if p + size1[p] == bp then size1[p := size1[p] + size1[bp]] else size1)
            && h'.ptr == (if p + size1[p] == bp then ptr1[p := ptr1[bp]] else ptr1[p := bp])
            && h'.freep == p && h'.base == h.base && h'.live == h.live - {bp} && h'.owner.Keys == h.owner.Keys
  {
    hide Owned, Coalesced, Follows;
    LinkFacts(h, p);
    LinkFacts(h, h.ptr[p]);
  }

  lemma ReleasedLive(h: Heap, p: Addr, bp: Addr)
    requires Inv(h) && bp in h.live && Between(h, p, bp)
    ensures LiveKept(h, Released(h, p, bp), bp)
  {
    hide Coalesced, Follows;
    LinkFacts(h, p);
    LinkFacts(h, h.ptr[p]);
    forall b | Head(h, b)
      ensures b in h.owner && h.owner[b] == b
    {
      assert Has(h, b, b);
    }
    assert h.base !in h.owner by {
      if h.base in h.owner {
        assert Head(h, h.owner[h.base]) && Has(h, h.owner[h.base], h.base);
        if h.owner[h.base] in h.free {
          AboveBase(h, h.owner[h.base]);
        }
      }
    }
  }

  /** The n units at a lie in one free block. */
  ghost predicate FreeHolds(h: Heap, a: Addr, n: nat) {
    exists b :: b in h.free && b <= a && a + n <= b + Units(h, b)
  }

  lemma ReleasedHolds(h: Heap, p: Addr, bp: Addr)
    requires Inv(h) && bp in h.live && Between(h, p, bp)
    ensures FreeHolds(Released(h, p, bp), bp, Units(h, bp))
  {
    hide Coalesced, Follows;
    LinkFacts(h, p);
    var b := if p + Units(h, p) == bp then p else bp;
    assert b in Released(h, p, bp).free;
  }

  lemma HoldsBig(h: Heap, a: Addr, n: nat)
    requires FreeHolds(h, a, n)
    ensures Big(h, n)
  {
    var b :| b in h.free && b <= a && a + n <= b + Units(h, b);
    assert Units(h, b) >= n;
  }

  lemma LiveKeptSelf(h: Heap)
    ensures LiveKept(h, h, h.base)
  {
  }

  lemma GrownLive(h: Heap, brk: Addr, a: Addr, n: nat, h': Heap)
    requires Inv(h) && HeapBelow(h, brk) && a >= brk && LiveKept(Grown(h, a, n), h', a)
    ensures LiveKept(h, h', h.base)
  {
    hide Ring, Coalesced;
    if a in h.live {
      HeadsBelow(h, brk, a);
    }
  }

  // malloc's search.

  /** The blocks that a search from freep has passed when it is at p. */
  predicate Passed(h: Heap, p: Addr, b: Addr) {
    b in h.free && if p > h.freep then h.freep < b < p else b > h.freep || b < p
  }

  /** Every block passed is too small. */
  ghost predicate Searched(h: Heap, p: Addr, n: nat) {
    forall b :: Passed(h, p, b) ==> Units(h, b) < n
  }

  ghost predicate Big(h: Heap, n: nat) {
    exists b :: b in h.free && Units(h, b) >= n
  }

  lemma FreeSized(h: Heap, p: Addr)
    requires Inv(h) && p in h.free
    ensures p in h.size
  {
  }

  lemma BigAt(h: Heap, b: Addr, n: nat)
    requires b in h.free && Units(h, b) >= n
    ensures Big(h, n)
  {
  }

  lemma BigFor(h: Heap, n: nat, nu: nat)
    requires Big(h, n) && nu <= n
    ensures Big(h, nu)
  {
  }

  lemma OnlyBase(h: Heap, n: nat)
    requires n > 0 && h.free <= {h.base} && (h.free != {} ==> Units(h, h.base) == 0)
    ensures !Big(h, n)
  {
  }

  lemma SearchStarts(h: Heap, n: nat)
    requires Inv(h)
    ensures h.freep in h.free && h.freep in h.ptr && h.ptr[h.freep] in h.free && Searched(h, h.ptr[h.freep], n)
  {
    hide Sizes, Owned, Coalesced;
    LinkFacts(h, h.freep);
    forall b
      ensures !Passed(h, h.ptr[h.freep], b)
    {
      if b in h.free {
        LinkFacts(h, b);
      }
    }
  }

  lemma SearchSteps(h: Heap, p: Addr, n: nat)
    requires Inv(h) && p in h.free && Searched(h, p, n) && Units(h, p) < n && p != h.freep
    ensures p in h.ptr && h.ptr[p] in h.free && Searched(h, h.ptr[p], n)
    ensures p < h.freep ==> p < h.ptr[p] <= h.freep
    ensures p > h.freep ==> h.ptr[p] > p || h.ptr[p] <= h.freep
  {
    hide Sizes, Owned, Coalesced;
    LinkFacts(h, p);
    assert h.freep in h.free;
    LinkFacts(h, h.freep);
    forall b | Passed(h, h.ptr[p], b)
      ensures Units(h, b) < n
    {
      LinkFacts(h, b);
      assert b == p || Passed(h, p, b);
    }
  }

  /** Back at freep, every free block is too small. */
  lemma SearchEnds(h: Heap, n: nat)
    requires Inv(h) && Searched(h, h.freep, n) && Units(h, h.freep) < n
    ensures !Big(h, n)
  {
    forall b | b in h.free
      ensures Units(h, b) < n
    {
      assert b == h.freep || Passed(h, h.freep, b);
    }
  }

  lemma NotBase(h: Heap, p: Addr)
    requires Inv(h) && p in h.free && Units(h, p) > 0
    ensures p != h.base && p > h.base && p in h.size && p !in h.live
  {
    LinkFacts(h, p);
    assert Has(h, p, p);
  }

  /** The header of a free block is not part of any live block. */
  lemma FreeNotLive(h: Heap, p: Addr)
    requires Inv(h) && p in h.free
    ensures p in h.owner ==> h.owner[p] == p
  {
    if p != h.base {
      assert Has(h, p, p);
    } else if p in h.owner {
      assert Head(h, h.owner[p]) && Has(h, h.owner[p], p);
      if h.owner[p] in h.free {
        AboveBase(h, h.owner[p]);
      }
    }
  }

  lemma TakenLive(h: Heap, prevp: Addr, p: Addr)
    requires Inv(h) && prevp in h.free && Next(h, prevp) == p && p in h.free
    ensures LiveKept(h, Taken(h, prevp, p), h.base)
  {
    hide Coalesced, Ring, Owned;
    NextFree(h, prevp);
    FreeNotLive(h, prevp);
    assert h.live !! h.free;
  }

  lemma SplitLive(h: Heap, prevp: Addr, p: Addr, n: nat)
    requires Inv(h) && p in h.free && p != h.base && 0 < n < Units(h, p)
    ensures LiveKept(h, Split(h, prevp, p, n), h.base)
    ensures p + Units(h, p) - n !in h.live
    ensures Split(h, prevp, p, n).owner.Keys == h.owner.Keys
  {
    hide Coalesced, Ring;
    AboveBase(h, p);
    SplitFresh(h, p, p + Units(h, p) - n);
    assert Has(h, p, p) && Has(h, p, p + Units(h, p) - n);
    assert h.live !! h.free;
  }

  lemma LiveKeptTrans(h: Heap, m: Heap, h': Heap)
    requires LiveKept(h, m, h.base) && LiveKept(m, h', m.base) && m.base == h.base && h.live <= m.live
    ensures LiveKept(h, h', h.base)
  {
  }

  /** The units malloc asks for: nbytes rounded up to whole headers, and one for the header itself. */
  function UnitsFor(nbytes: nat): (n: nat)
    ensures 16 * (n - 1) >= nbytes && 16 * (n - 1) < nbytes + 16
  {
    (nbytes + 16 - 1) / 16 + 1
  }

  /** p is the first block, searching from freep, with n units; b is what malloc takes of it, its last n units. */
  ghost predicate FirstFit(h: Heap, p: Addr, n: nat, b: Addr) {
    p in h.free && Searched(h, p, n) && Units(h, p) >= n && b == p + Units(h, p) - n
  }

  ghost predicate IsFirstFit(h: Heap, n: nat, b: Addr) {
    exists p :: FirstFit(h, p, n, b)
  }

  class Allocator {
    const base: Addr
    var ptr: map<Addr, Addr>
    var size: map<Addr, nat>
    var freep: Option<Addr>
    ghost var free: set<Addr>
    ghost var live: set<Addr>
    ghost var owner: map<Addr, Addr>
    ghost var brk: Addr

    constructor (base: Addr, brk: Addr)
      requires base < brk
      ensures Valid() && live == {} && owner == map[]
    {
      this.base, ptr, size, freep := base, map[], map[], None;
      free, live, owner, this.brk := {}, {}, map[], brk;
    }

    ghost function State(): Heap
      reads this
    {
      Heap(base, ptr, size, if freep.Some? then freep.value else base, free, live, owner)
    }

    ghost predicate Valid()
      reads this
    {
      && HeapBelow(State(), brk)
      && if freep.None? then free == {} && live == {} && owner == map[] else Inv(State())
    }

    /** Give back the block whose data begins at ap. */
    method Free(ap: Addr)
      requires Valid() && freep.Some? && ap >= 1 && ap - 1 in live
      modifies this`ptr, this`size, this`freep, this`free, this`live, this`owner
      ensures Valid() && freep.Some?
      ensures live == old(live) - {ap - 1} && owner.Keys == old(owner).Keys
      ensures LiveKept(old(State()), State(), ap - 1)
      ensures FreeHolds(State(), ap - 1, Units(old(State()), ap - 1))
    {
      hide Inv, HeapBelow, Released, LiveKept, FreeHolds;
      var bp := ap - 1;
      var p := freep.value;
      LiveFacts(State(), bp);
      LinkFacts(State(), p);
      HeadsBelow(State(), brk, p);
      while !(bp > p && bp < ptr[p])
        invariant unchanged(this) && p in free && p in ptr && p < brk
        decreases p > bp, brk - p
      {
        LinkFacts(State(), p);
        if p >= ptr[p] && (bp > p || bp < ptr[p]) {
          break;
        }
        HeadsBelow(State(), brk, ptr[p]);
        p := ptr[p];
        LinkFacts(State(), p);
      }
      LinkFacts(State(), p);
      ghost var h := Released(State(), p, bp);
      ReleaseKeeps(State(), p, bp);
      ReleasedWords(State(), p, bp);
      ReleasedLive(State(), p, bp);
      ReleasedHolds(State(), p, bp);
      var next := ptr[p];
      if bp + size[bp] == next {
        size := size[bp := size[bp] + size[next]];
        ptr := ptr[bp := ptr[next]];
      } else {
        ptr := ptr[bp := next];
      }
      if p + size[p] == bp {
        size := size[p := size[p] + size[bp]];
        ptr := ptr[p := ptr[bp]];
      } else {
        ptr := ptr[p := bp];
      }
      freep := Some(p);
      free, live, owner := h.free, h.live, h.owner;
      BelowKept(old(State()), State(), brk);
    }

    /**
     Ask sbrk for at least nu units and free them; core is its answer, at or above the break, if it has one. The
     free list then has a block of nu units.
     */
    method Morecore(nu: nat, core: Option<Addr>) returns (hp: Option<Addr>)
      requires Valid() && freep.Some? && nu > 0 && (core.Some? ==> core.value >= brk)
      modifies this
      ensures Valid() && freep.Some? && live == old(live)
      ensures core.None? ==> hp == None && State() == old(State()) && brk == old(brk)
      ensures core.Some? ==> hp == freep && Big(State(), nu)
      ensures core.Some? ==> owner.Keys == old(owner).Keys + Region(core.value, AtLeast4096(nu))
      ensures LiveKept(old(State()), State(), base)
    {
      hide Inv, HeapBelow, LiveKept, FreeHolds, Big, Region;
      if core.None? {
        LiveKeptSelf(State());
        return None;
      }
      var n, a := if nu < 4096 then 4096 else nu, core.value;
      GrowKeeps(State(), brk, a, n);
      size := size[a := n];
      ghost var h := Grown(old(State()), a, n);
      live, owner, brk := h.live, h.owner, a + n;
      Free(a + 1);
      GrownLive(old(State()), old(brk), a, n, State());
      HoldsBig(State(), a, n);
      BigFor(State(), n, nu);
      assert old(live) + {a} - {a} == old(live);
      hp := freep;
    }

    /** Take n units for a live block from the free block p, whose predecessor on the list is prevp. */
    method Carve(prevp: Addr, p: Addr, n: nat) returns (ap: Addr)
      requires Valid() && freep.Some? && n > 0
      requires prevp in free && prevp in ptr && ptr[prevp] == p && p in free && Units(State(), p) >= n
      modifies this`ptr, this`size, this`freep, this`free, this`live, this`owner
      ensures Valid() && freep == Some(prevp)
      ensures ap >= 1 && ap - 1 == p + Units(old(State()), p) - n
      ensures ap - 1 !in old(live) && live == old(live) + {ap - 1} && Units(State(), ap - 1) == n
      ensures owner.Keys == old(owner).Keys
      ensures LiveKept(old(State()), State(), base)
    {
      hide Inv, HeapBelow, LiveKept;
      NotBase(State(), p);
      LinkFacts(State(), p);
      var r := p;
      ghost var h;
      if size[p] == n {
        h := Taken(State(), prevp, p);
        TakeKeeps(State(), prevp, p);
        TakenLive(State(), prevp, p);
        ptr := ptr[prevp := ptr[p]];
      } else {
        h := Split(State(), prevp, p, n);
        SplitKeeps(State(), prevp, p, n);
        SplitLive(State(), prevp, p, n);
        size := size[p := size[p] - n];
        r := p + size[p];
        size := size[r := n];
      }
      freep := Some(prevp);
      free, live, owner := h.free, h.live, h.owner;
      BelowKept(old(State()), State(), brk);
      ap := r + 1;
    }

    /** base alone on the list, pointing to itself. */
    method Init()
      requires Valid() && freep.None?
      modifies this`ptr, this`size, this`freep, this`free
      ensures Valid() && freep.Some? && free == {base} && size == old(size)[base := 0]
      ensures LiveKept(old(State()), State(), base)
    {
      ptr := ptr[base := base];
      freep := Some(base);
      size := size[base := 0];
      free := {base};
      Fresh(base, ptr, size);
    }

    /**
     Allocate nbytes. core is the answer sbrk would give, which is asked only when no free block is big enough,
     and only once: the search that follows a successful Morecore always finds a block.
     */
    method Malloc(nbytes: nat, core: Option<Addr>) returns (ap: Option<Addr>)
      requires Valid() && (core.Some? ==> core.value >= brk)
      modifies this
      ensures Valid() && freep.Some?
      ensures ap.None? <==> !Big(old(State()), UnitsFor(nbytes)) && core.None?
      ensures ap.None? ==> live == old(live) && owner == old(owner)
      ensures ap.Some? ==> ap.value >= 1 && ap.value - 1 !in old(live) && live == old(live) + {ap.value - 1}
      ensures ap.Some? ==> Units(State(), ap.value - 1) == UnitsFor(nbytes)
      ensures Big(old(State()), UnitsFor(nbytes)) ==> brk == old(brk) && owner.Keys == old(owner).Keys
      ensures Big(old(State()), UnitsFor(nbytes)) ==>
                ap.Some? && IsFirstFit(old(State()), UnitsFor(nbytes), ap.value - 1)
      ensures !Big(old(State()), UnitsFor(nbytes)) && core.Some? ==>
                owner.Keys == old(owner).Keys + Region(core.value, AtLeast4096(UnitsFor(nbytes)))
      ensures LiveKept(old(State()), State(), base)
    {
      hide Inv, HeapBelow, LiveKept, Searched, Big, Region;
      var n := UnitsFor(nbytes);
      if freep.None? {
        OnlyBase(State(), n);
        Init();
        OnlyBase(State(), n);
      } else {
        LiveKeptSelf(State());
      }
      var prevp := freep.value;
      SearchStarts(State(), n);
      var p := ptr[prevp];
      ghost var asked := false;
      ghost var start := State();
      while true
        invariant Valid() && freep.Some? && live == old(live)
        invariant prevp in free && prevp in ptr && ptr[prevp] == p && p in free
        invariant Searched(State(), p, n)
        invariant Big(start, n) <==> Big(old(State()), n)
        invariant Big(start, n) ==> start == old(State())
        invariant !asked ==> State() == start && brk == old(brk) && owner == old(owner)
        invariant asked ==> Big(State(), n) && !Big(start, n) && core.Some?
        invariant asked ==> owner.Keys == old(owner).Keys + Region(core.value, AtLeast4096(n))
        invariant LiveKept(old(State()), State(), base)
        decreases !asked, p > freep.value, if p > freep.value then brk - p else freep.value - p
      {
        FreeSized(State(), p);
        if size[p] >= n {
          BigAt(State(), p, n);
          assert !asked ==> FirstFit(start, p, n, p + Units(start, p) - n);
          ghost var mid := State();
          var r := Carve(prevp, p, n);
          LiveKeptTrans(old(State()), mid, State());
          return Some(r);
        }
        if p == freep.value {
          SearchEnds(State(), n);
          ghost var mid := State();
          var hp := Morecore(n, core);
          if hp.None? {
            return None;
          }
          LiveKeptTrans(old(State()), mid, State());
          asked := true;
          p := hp.value;
          SearchStarts(State(), n);
        } else {
          SearchSteps(State(), p, n);
          HeadsBelow(State(), brk, p);
          HeadsBelow(State(), brk, ptr[p]);
        }
        prevp := p;
        p := ptr[p];
      }
    }
  }

  function AtLeast4096(nu: nat): nat {
    if nu < 4096 then 4096 else nu
  }

  function Region(a: Addr, n: nat): set<Addr> {
    set u | a <= u < a + n && Within(a, n, u)
  }

  /** s lists the free blocks in the order of the links: one cycle from base, upwards, and back to base. */
  ghost predicate IsCycle(h: Heap, s: seq<Addr>) {
    && s != [] && s[0] == h.base && Next(h, s[|s| - 1]) == h.base
    && (forall i :: 0 <= i < |s| - 1 ==> s[i] < s[i + 1] == Next(h, s[i]))
    && (forall a :: a in s <==> a in h.free)
  }

  /** Following the links from base visits every free block once, in address order, and returns to base. */
  lemma OneCycle(h: Heap)
    requires Inv(h)
    ensures exists s :: IsCycle(h, s)
  {
    hide Sizes, Owned, Coalesced;
    var s, left := [h.base], h.free - {h.base};
    LinkFacts(h, h.base);
    forall a | a in h.free
      ensures h.base <= a
    {
      AboveBase(h, a);
    }
    while Next(h, s[|s| - 1]) != h.base
      invariant s != [] && s[0] == h.base
      invariant forall i :: 0 <= i < |s| - 1 ==> s[i] < s[i + 1] == Next(h, s[i])
      invariant forall a :: a in s ==> a in h.free
      invariant left == set a | a in h.free && a > s[|s| - 1]
      invariant forall a :: a in h.free && a <= s[|s| - 1] ==> a in s
      decreases left
    {
      var last := s[|s| - 1];
      LinkFacts(h, last);
      var next := Next(h, last);
      assert next in left;
      s, left := s + [next], set a | a in h.free && a > next;
    }
    LinkFacts(h, s[|s| - 1]);
    LinkFacts(h, h.base);
    assert IsCycle(h, s);
  }

  /** The sizes of the blocks in s, added up. */
  ghost function Total(h: Heap, s: set<Addr>): nat {
    if s == {} then 0 else Units(h, Pick(s)) + Total(h, s - {Pick(s)})
  }

  ghost function Pick(s: set<Addr>): (b: Addr)
    requires s != {}
    ensures b in s
  {
    var b :| b in s; b
  }

  /** The units that belong to the blocks in s. */
  ghost function UnitsOf(h: Heap, s: set<Addr>): set<Addr> {
    set u | u in h.owner && h.owner[u] in s
  }

  lemma {:induction false} RegionSize(a: Addr, n: nat)
    ensures |Region(a, n)| == n
  {
    if n > 0 {
      RegionSize(a, n - 1);
      assert Region(a, n) == Region(a, n - 1) + {a + n - 1};
    }
  }

  lemma {:induction false} TotalCounts(h: Heap, s: set<Addr>)
    requires Owned(h) && forall b :: b in s ==> Head(h, b) && b in h.size
    ensures Total(h, s) == |UnitsOf(h, s)|
  {
    hide Owned;
    if s != {} {
      var b := Pick(s);
      TotalCounts(h, s - {b});
      BlockUnits(h, b);
      assert UnitsOf(h, s) == UnitsOf(h, s - {b}) + UnitsOf(h, {b});
      assert UnitsOf(h, s - {b}) !! UnitsOf(h, {b});
    }
  }

  lemma BlockUnits(h: Heap, b: Addr)
    requires Owned(h) && Head(h, b) && b in h.size
    ensures |UnitsOf(h, {b})| == Units(h, b)
  {
    RegionSize(b, h.size[b]);
    forall u
      ensures u in Region(b, h.size[b]) <==> u in UnitsOf(h, {b})
    {
      assert u in Region(b, h.size[b]) <==> Has(h, b, u);
      assert u in h.owner ==> Has(h, h.owner[u], u);
    }
    assert UnitsOf(h, {b}) == Region(b, h.size[b]);
  }

  /** Every unit obtained from sbrk is in exactly one free or live block, so their sizes add up to all of them. */
  lemma UnitsConserved(h: Heap)
    requires Inv(h)
    ensures Total(h, h.free - {h.base}) + Total(h, h.live) == |h.owner|
  {
    TotalCounts(h, h.free - {h.base});
    TotalCounts(h, h.live);
    UnitsSplit(h);
    hide Inv, UnitsOf, Total;
    var f, l := UnitsOf(h, h.free - {h.base}), UnitsOf(h, h.live);
    assert |f + l| == |f| + |l|;
  }

  lemma UnitsSplit(h: Heap)
    requires Inv(h)
    ensures var f, l := UnitsOf(h, h.free - {h.base}), UnitsOf(h, h.live); f !! l && f + l == h.owner.Keys
  {
    hide Ring, Coalesced;
    var f, l := UnitsOf(h, h.free - {h.base}), UnitsOf(h, h.live);
    forall u | u in h.owner
      ensures u in f || u in l
    {
      assert Head(h, h.owner[u]);
    }
  }

  /** No two blocks share a unit. */
  lemma BlocksDisjoint(h: Heap, b: Addr, c: Addr, u: Addr)
    requires Inv(h) && Head(h, b) && Head(h, c) && Has(h, b, u) && Has(h, c, u)
    ensures b == c
  {
  }

  lemma BelowKept(h: Heap, h': Heap, brk: Addr)
    requires HeapBelow(h, brk) && h'.owner.Keys == h.owner.Keys && h'.base == h.base
    ensures HeapBelow(h', brk)
  {
    assert forall u :: u in h'.owner ==> u in h.owner.Keys;
  }
}
