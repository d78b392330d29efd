/**
 The buffer cache's list of kernel/bio.c: NBUF buffers and a head, linked both ways in a ring that is kept in the order of
 last use. binit, bget, brelse, bpin and bunpin are proved against that order; whatever they do, the ring holds every
 buffer once, and no block of a device is ever in two buffers.
 */
module BufferCache {
  import opened Collections

  const NBUF: nat := 30

  /** The list head; buffers are numbered below it. */
  const HEAD: nat := 30

  datatype Key = Key(dev: nat, blockno: nat)

  /** The zeroed fields of a buffer that has not been assigned: no disk has device number 0. */
  const NOKEY: Key := Key(0, 0)

  datatype Buf = Buf(key: Key, valid: bool, refcnt: nat)

  // The ring.

  /** The nodes from the head around to the head again, the buffers in between in the order s. */
  function Node(s: seq<nat>, i: int): nat {
    if 0 < i <= |s| then s[i - 1] else HEAD
  }

  ghost predicate Distinct(s: seq<nat>) {
    && (forall i :: 0 <= i < |s| ==> s[i] < NBUF)
    && (forall i, j :: 0 <= i < j < |s| ==> s[i] != s[j])
  }

  predicate Joined(next: seq<nat>, prev: seq<nat>, a: nat, b: nat) {
    a < |next| && b < |prev| && next[a] == b && prev[b] == a
  }

  /** The links go round the buffers of s, in both directions. */
  ghost predicate IsRing(next: seq<nat>, prev: seq<nat>, s: seq<nat>) {
    && |next| == |prev| == NBUF + 1
    && Distinct(s)
    && (forall i :: 0 <= i <= |s| ==> Joined(next, prev, Node(s, i), Node(s, i + 1)))
  }

  function Without(s: seq<nat>, k: nat): seq<nat>
    requires k < |s|
  {
    s[..k] + s[k + 1..]
  }

  /** brelse's first two assignments take the buffer at place k out of the ring. */
  lemma UnlinkRing(next: seq<nat>, prev: seq<nat>, s: seq<nat>, k: nat)
    requires IsRing(next, prev, s) && k < |s|
    ensures var b := s[k];
            && prev[b] < |next| && next[b] < |prev|
            && IsRing(next[prev[b] := next[b]], prev[next[b] := prev[b]], Without(s, k))
  {
    var b, t := s[k], Without(s, k);
    assert Joined(next, prev, Node(s, k), Node(s, k + 1)) && Joined(next, prev, Node(s, k + 1), Node(s, k + 2));
    var next', prev' := next[prev[b] := next[b]], prev[next[b] := prev[b]];
    forall i | 0 <= i <= |t|
      ensures Joined(next', prev', Node(t, i), Node(t, i + 1))
    {
      if i < k {
        assert Joined(next, prev, Node(s, i), Node(s, i + 1));
      } else if i > k {
        assert Joined(next, prev, Node(s, i + 1), Node(s, i + 2));
      }
    }
  }

  /** The other four put it in behind the head. */
  lemma PushRing(next: seq<nat>, prev: seq<nat>, s: seq<nat>, b: nat)
    requires IsRing(next, prev, s) && b < NBUF && b !in s
    ensures var first := next[HEAD];
            && first < |prev|
            && IsRing(next[b := first][HEAD := b], prev[b := HEAD][first := b], [b] + s)
  {
    var first, t := next[HEAD], [b] + s;
    assert Joined(next, prev, Node(s, 0), Node(s, 1));
    var next', prev' := next[b := first][HEAD := b], prev[b := HEAD][first := b];
    forall i | 0 <= i <= |t|
      ensures Joined(next', prev', Node(t, i), Node(t, i + 1))
    {
      if i > 0 {
        assert Joined(next, prev, Node(s, i - 1), Node(s, i));
      }
    }
  }

  /** A ring with NBUF buffers has each of them. */
  lemma AllThere(s: seq<nat>, n: nat, b: nat)
    requires |s| == n && b < n && Distinct(s)
    requires forall i :: 0 <= i < n ==> s[i] < n
    ensures b in s
  {
    BelowSize(n);
    DistinctSize(s);
    assert Elems(s) <= Below(n);
    if b !in s {
      SubsetSize(Elems(s), Below(n) - {b});
    }
  }

  // Keys.

  /** No two buffers hold the same block. */
  ghost predicate KeysDiffer(bufs: seq<Buf>) {
    forall i, j :: 0 <= i < j < |bufs| && bufs[i].key == bufs[j].key ==> bufs[i].key == NOKEY
  }

  ghost predicate Cached(bufs: seq<Buf>, key: Key) {
    exists i :: 0 <= i < |bufs| && bufs[i].key == key
  }

  /** b is the unused buffer that was used longest ago. */
  ghost predicate IsVictim(bufs: seq<Buf>, order: seq<nat>, b: nat) {
    exists k :: 0 <= k < |order| && order[k] == b && VictimAt(bufs, order, k)
  }

  ghost predicate VictimAt(bufs: seq<Buf>, order: seq<nat>, k: int) {
    && 0 <= k < |order| && order[k] < |bufs| && bufs[order[k]].refcnt == 0
    && forall i :: k < i < |order| ==> order[i] < |bufs| && bufs[order[i]].refcnt > 0
  }

  class Cache {
    var next: seq<nat>
    var prev: seq<nat>
    var bufs: seq<Buf>
    /** The buffers from the most to the least recently used. */
    ghost var order: seq<nat>

    ghost predicate Valid()
      reads this
    {
      IsRing(next, prev, order) && |order| == NBUF && |bufs| == NBUF && KeysDiffer(bufs)
    }

    /** binit. */
    constructor ()
      ensures Valid() && forall i :: 0 <= i < NBUF ==> bufs[i] == Buf(NOKEY, false, 0) && order[i] == NBUF - 1 - i
    {
      next := seq(NBUF + 1, _ => HEAD);
      prev := seq(NBUF + 1, _ => HEAD);
      bufs := seq(NBUF, _ => Buf(NOKEY, false, 0));
      order := [];
      new;
      var b := 0;
      while b < NBUF
        invariant 0 <= b <= NBUF && |order| == b && |bufs| == NBUF
        invariant IsRing(next, prev, order)
        invariant forall i :: 0 <= i < b ==> order[i] == b - 1 - i
        invariant forall i :: 0 <= i < NBUF ==> bufs[i] == Buf(NOKEY, false, 0)
      {
        PushRing(next, prev, order, b);
        next := next[b := next[HEAD]];
        prev := prev[b := HEAD];
        prev := prev[next[HEAD] := b];
        next := next[HEAD := b];
        order := [b] + order;
        b := b + 1;
      }
    }

    lemma InOrder(b: nat) returns (k: nat)
      requires Valid() && b < NBUF
      ensures k < |order| && order[k] == b
    {
      AllThere(order, NBUF, b);
      k :| 0 <= k < |order| && order[k] == b;
    }

    /** bget's first loop: the buffer that holds the block, searched from the most recently used. */
    method Lookup(key: Key) returns (b: Option<nat>)
      requires Valid()
      ensures b.Some? ==> b.value < NBUF && bufs[b.value].key == key
      ensures b.None? ==> !Cached(bufs, key)
    {
      ghost var i := 0;
      assert Joined(next, prev, Node(order, 0), Node(order, 1));
      var p := next[HEAD];
      while p != HEAD
        invariant 0 <= i <= |order| && p == Node(order, i + 1)
        invariant forall j :: 0 <= j < i ==> bufs[order[j]].key != key
        decreases |order| - i
      {
        if bufs[p].key == key {
          return Some(p);
        }
        assert Joined(next, prev, Node(order, i + 1), Node(order, i + 2));
        p := next[p];
        i := i + 1;
      }
      forall c | 0 <= c < NBUF
        ensures bufs[c].key != key
      {
        var k := InOrder(c);
      }
      return None;
    }

    /** bget's second loop: an unused buffer, searched from the least recently used. */
    method FindVictim() returns (b: Option<nat>)
      requires Valid()
      ensures b.Some? ==> b.value < NBUF && IsVictim(bufs, order, b.value)
      ensures b.None? ==> forall c :: 0 <= c < NBUF ==> bufs[c].refcnt > 0
    {
      ghost var i := |order|;
      assert Joined(next, prev, Node(order, |order|), Node(order, |order| + 1));
      var p := prev[HEAD];
      while p != HEAD
        invariant 0 <= i <= |order| && p == Node(order, i)
        invariant forall j :: i <= j < |order| ==> bufs[order[j]].refcnt > 0
        decreases i
      {
        if bufs[p].refcnt == 0 {
          assert VictimAt(bufs, order, i - 1);
          return Some(p);
        }
        assert Joined(next, prev, Node(order, i - 1), Node(order, i));
        p := prev[p];
        i := i - 1;
      }
      forall c | 0 <= c < NBUF
        ensures bufs[c].refcnt > 0
      {
        var k := InOrder(c);
      }
      return None;
    }

    /**
     bget, up to its acquiresleep: a cached block gains a reference; another takes over the least recently used buffer
     that has none, and is then invalid; None is the panic when every buffer is in use.
     */
    method Bget(key: Key) returns (b: Option<nat>)
      requires Valid()
      modifies this`bufs
      ensures Valid()
      ensures b.None? <==> !Cached(old(bufs), key) && forall c :: 0 <= c < NBUF ==> old(bufs)[c].refcnt > 0
      ensures b.None? ==> bufs == old(bufs)
      ensures b.Some? ==> b.value < NBUF
      ensures b.Some? && Cached(old(bufs), key) ==>
                var was := old(bufs)[b.value];
                was.key == key && bufs == old(bufs)[b.value := was.(refcnt := was.refcnt + 1)]
      ensures b.Some? && !Cached(old(bufs), key) ==>
                IsVictim(old(bufs), order, b.value) && bufs == old(bufs)[b.value := Buf(key, false, 1)]
    {
      b := Lookup(key);
      if b.Some? {
        bufs := bufs[b.value := bufs[b.value].(refcnt := bufs[b.value].refcnt + 1)];
        return;
      }
      b := FindVictim();
      if b.Some? {
        bufs := bufs[b.value := Buf(key, false, 1)];
      }
    }

    /** brelse, after its releasesleep: a buffer that loses its last reference becomes the most recently used. */
    method Brelse(b: nat)
      requires Valid() && b < NBUF && bufs[b].refcnt > 0
      modifies this
      ensures Valid()
      ensures bufs == old(bufs)[b := old(bufs)[b].(refcnt := old(bufs)[b].refcnt - 1)]
      ensures bufs[b].refcnt > 0 ==> order == old(order)
      ensures bufs[b].refcnt == 0 ==>
                exists k :: 0 <= k < NBUF && old(order)[k] == b && order == [b] + Without(old(order), k)
    {
      bufs := bufs[b := bufs[b].(refcnt := bufs[b].refcnt - 1)];
      if bufs[b].refcnt == 0 {
        ghost var k := InOrder(b);
        UnlinkRing(next, prev, order, k);
        prev := prev[next[b] := prev[b]];
        assert prev[b] == old(prev)[b] by {
          NotOwnNeighbour(old(next), old(prev), order, k);
        }
        next := next[prev[b] := next[b]];
        PushRing(next, prev, Without(order, k), b);
        next := next[b := next[HEAD]];
        prev := prev[b := HEAD];
        prev := prev[next[HEAD] := b];
        next := next[HEAD := b];
        order := [b] + Without(order, k);
      }
    }

    method Bpin(b: nat)
      requires Valid() && b < NBUF
      modifies this`bufs
      ensures Valid() && bufs == old(bufs)[b := old(bufs)[b].(refcnt := old(bufs)[b].refcnt + 1)]
    {
      bufs := bufs[b := bufs[b].(refcnt := bufs[b].refcnt + 1)];
    }

    /** Unlike brelse, bunpin leaves the buffer where it is. */
    method Bunpin(b: nat)
      requires Valid() && b < NBUF && bufs[b].refcnt > 0
      modifies this`bufs
      ensures Valid() && bufs == old(bufs)[b := old(bufs)[b].(refcnt := old(bufs)[b].refcnt - 1)]
    {
      bufs := bufs[b := bufs[b].(refcnt := bufs[b].refcnt - 1)];
    }
  }

  lemma NotOwnNeighbour(next: seq<nat>, prev: seq<nat>, s: seq<nat>, k: nat)
    requires IsRing(next, prev, s) && k < |s|
    ensures next[s[k]] != s[k]
  {
    assert Joined(next, prev, Node(s, k + 1), Node(s, k + 2));
  }

  // What the order means.

  /** In a valid cache, following next from the head visits each buffer exactly once and returns to the head. */
  function Walk(next: seq<nat>, i: nat): nat {
    if i == 0 then HEAD else var p := Walk(next, i - 1); if p < |next| then next[p] else HEAD
  }

  lemma {:induction false} WalkVisits(next: seq<nat>, prev: seq<nat>, s: seq<nat>, i: nat)
    requires IsRing(next, prev, s) && i <= |s| + 1
    ensures Walk(next, i) == Node(s, i)
  {
    if i > 0 {
      WalkVisits(next, prev, s, i - 1);
      assert Joined(next, prev, Node(s, i - 1), Node(s, i));
    }
  }

  /** One cycle through the head and every buffer. */
  lemma OneCycle(next: seq<nat>, prev: seq<nat>, s: seq<nat>, b: nat)
    requires IsRing(next, prev, s) && |s| == NBUF && b < NBUF
    ensures exists i :: 1 <= i <= NBUF && Walk(next, i) == b
    ensures Walk(next, NBUF + 1) == HEAD
  {
    AllThere(s, NBUF, b);
    var k :| 0 <= k < |s| && s[k] == b;
    WalkVisits(next, prev, s, k + 1);
    assert Walk(next, k + 1) == b;
    WalkVisits(next, prev, s, NBUF + 1);
  }
}
