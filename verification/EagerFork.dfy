/**
 Two machines for the memory of processes: the kernel's, with copy-on-write, and a reference machine that copies all of a
 parent's memory at once in fork. Each decides by itself what every operation returns. The results say exactly when the two
 can be told apart, for one operation and over whole runs.
 */
module EagerFork {
  import opened Collections
  import opened CowMemory
  import opened UserPages

  datatype Op =
    | Create(p: Pid)
    | Fork(p: Pid, c: Pid)
    | Load(p: Pid, va: nat)
    | Fetch(p: Pid, va: nat)
    | Store(p: Pid, va: nat, b: int)
    | CopyOut(p: Pid, va: nat, bytes: seq<int>)
    | Grow(p: Pid, n: int)
    | Extend(p: Pid, more: nat, w: bool, x: bool)
    | Clear(p: Pid, page: nat)
    | Exit(p: Pid)

  /** What an operation tells its caller. Panic is the kernel's. */
  datatype Out = Done | Byte(b: int) | Count(n: nat) | Fail | Panic

  // The reference machine.

  /** perm are the permissions that each page was allocated with. */
  datatype Eager = Eager(pages: map<Key, Page>, perm: map<Key, Mark>, sz: map<Pid, nat>)

  /** growproc's new size; a size below zero wraps around and is ignored by uvmdealloc. */
  function Resized(sz: nat, n: int): nat {
    if sz + n < 0 then sz else sz + n
  }

  /** How many of len bytes can be written at va, in user pages of any kind. */
  function EagerReach(perm: map<Key, Mark>, p: Pid, va: nat, len: nat): (n: nat)
    ensures n <= len
    decreases len
  {
    if len == 0 || !Readable(perm, p, va) then 0
    else Chunk(va, len) + EagerReach(perm, p, va + Chunk(va, len), len - Chunk(va, len))
  }

  predicate EagerStores(perm: map<Key, Mark>, p: Pid, va: nat) {
    Readable(perm, p, va) && perm[Key(p, va / PGSIZE)].w
  }

  predicate Maps(e: Eager, p: Pid, va: nat) {
    Key(p, va / PGSIZE) in e.pages
  }

  /** There is memory enough, and a store succeeds if the page may be written. */
  function EagerOut(e: Eager, op: Op): Out {
    match op
    case Create(p) => if p in e.sz then Fail else Done
    case Fork(p, c) => if p in e.sz && c !in e.sz then Done else Fail
    case Load(p, va) => if CanLoad(e.perm, p, va) && Maps(e, p, va) then Byte(ByteAt(e.pages, p, va)) else Fail
    case Fetch(p, va) => if CanFetch(e.perm, p, va) && Maps(e, p, va) then Byte(ByteAt(e.pages, p, va)) else Fail
    case Store(p, va, _) => if EagerStores(e.perm, p, va) then Done else Fail
    case CopyOut(p, va, bytes) => Count(EagerReach(e.perm, p, va, |bytes|))
    case Grow(p, _) => if p in e.sz then Done else Fail
    case Extend(p, n, _, _) => if p in e.sz && e.sz[p] + n > 0 then Done else Fail
    case Clear(p, page) => if Key(p, page) in e.perm then Done else Fail
    case Exit(p) => if p in e.sz then Done else Fail
  }

  /** From oldsz to newsz bytes: zeroed pages more, or pages fewer. */
  function ResizedTo<V>(v: map<Key, V>, p: Pid, oldsz: nat, newsz: nat, blank: V): map<Key, V> {
    var from, to := Pages(oldsz), Pages(newsz);
    Grown(v, p, from, to - from, blank) - Range(p, to, from - to)
  }

  function EagerNext(e: Eager, op: Op): Eager {
    match op
    case Create(p) => if p in e.sz then e else e.(sz := e.sz[p := 0])
    case Fork(p, c) =>
      if p !in e.sz || c in e.sz then e
      else
        var n := Pages(e.sz[p]);
        Eager(Forked(e.pages, p, c, n), Forked(e.perm, p, c, n), e.sz[c := e.sz[p]])
    case Load(_, _) => e
    case Fetch(_, _) => e
    case Store(p, va, b) => if EagerStores(e.perm, p, va) then e.(pages := Write(e.pages, p, va, [b])) else e
    case CopyOut(p, va, bytes) => e.(pages := Write(e.pages, p, va, bytes[..EagerReach(e.perm, p, va, |bytes|)]))
    case Grow(p, n) => if p in e.sz then EagerResized(e, p, Resized(e.sz[p], n), true, false) else e
    case Extend(p, n, w, x) => if p in e.sz && e.sz[p] + n > 0 then EagerResized(e, p, e.sz[p] + n, w, x) else e
    case Clear(p, page) =>
      var k := Key(p, page);
      if k in e.perm then e.(perm := e.perm[k := e.perm[k].(u := false)]) else e
    case Exit(p) =>
      if p !in e.sz then e
      else
        var r := Range(p, 0, Pages(e.sz[p]));
        Eager(e.pages - r, e.perm - r, e.sz - {p})
  }

  function EagerResized(e: Eager, p: Pid, newsz: nat, w: bool, x: bool): Eager
    requires p in e.sz
  {
    Eager(ResizedTo(e.pages, p, e.sz[p], newsz, Filled(0)),
          ResizedTo(e.perm, p, e.sz[p], newsz, NewMark(w, x)),
          e.sz[p := newsz])
  }

  // The kernel's memory, without its frames' numbers.

  /**
   What processes see, the marks of their pages, which pages share no frame, how many frames are free, which page-table pages
   there are, and p->sz of each process.
   */
  datatype Snap = Snap(
    views: map<Key, Page>,
    marks: map<Key, Mark>,
    alone: set<Key>,
    free: nat,
    tables: set<Table>,
    sz: map<Pid, nat>
  )

  /** A process that fork has left without any of its pages. It cannot fetch its first instruction, and will only exit. */
  predicate Hollow(s: Snap, p: Pid) {
    p in s.sz && Pages(s.sz[p]) > 0 && Key(p, 0) !in s.marks
  }

  predicate Runs(s: Snap, p: Pid) {
    p in s.sz && !Hollow(s, p)
  }

  /** The frames of an empty process: its trapframe and three page-table pages. */
  const EMPTY: nat := 4

  /** The page-table pages for n pages from 0 on. */
  function TablesFor(n: nat): nat {
    (n + 0x1FF) / 0x200 + (n + 0x3_FFFF) / 0x4_0000
  }

  function NeedTo(s: Snap, p: Pid, newsz: nat): nat
    requires p in s.sz
  {
    var from, to := Pages(s.sz[p]), Pages(newsz);
    if from <= to then Need(s.tables, p, from, to - from) else 0
  }

  /** What each operation returns, in terms of the marks and the number of free frames. */
  function CowOut(s: Snap, op: Op): Out {
    match op
    case Create(p) => if p !in s.sz && s.free >= EMPTY then Done else Fail
    case Fork(p, c) => if Runs(s, p) && c !in s.sz && s.free >= EMPTY then Done else Fail
    case Load(p, va) =>
      if CanLoad(s.marks, p, va) && Key(p, va / PGSIZE) in s.views then Byte(ByteAt(s.views, p, va)) else Fail
    case Fetch(p, va) =>
      if CanFetch(s.marks, p, va) && Key(p, va / PGSIZE) in s.views then Byte(ByteAt(s.views, p, va)) else Fail
    case Store(p, va, _) => if CanStore(s.marks, s.free, p, va) then Done else Fail
    case CopyOut(p, va, bytes) => Count(Reach(s.marks, s.alone, s.free, p, va, |bytes|))
    case Grow(p, n) => if Runs(s, p) && (n <= 0 || NeedTo(s, p, s.sz[p] + n) <= s.free) then Done else Fail
    case Extend(p, n, _, _) =>
      if Runs(s, p) && s.sz[p] + n > 0 && NeedTo(s, p, s.sz[p] + n) <= s.free then Done else Fail
    case Clear(p, page) => if Key(p, page) in s.marks then Done else Fail
    case Exit(p) => if p !in s.sz then Fail else if Hollow(s, p) then Panic else Done
  }

  /** fork returns as if it had succeeded, but the child has nothing: uvmcowpy ran out of frames for its page tables. */
  predicate Hollows(s: Snap, op: Op) {
    op.Fork? && CowOut(s, op) == Done && s.free < EMPTY + TablesFor(Pages(s.sz[op.p]))
  }

  /** What processes see, the marks and the sizes after an operation, if it does not hollow a child. */
  function CowNext(s: Snap, op: Op): Snap {
    if CowOut(s, op) == Fail || CowOut(s, op) == Panic then s
    else
      match op
      case Create(p) => s.(sz := s.sz[p := 0])
      case Fork(p, c) =>
        if p !in s.sz then s
        else
          var n := Pages(s.sz[p]);
          s.(views := Forked(s.views, p, c, n), marks := ForkedMarks(s.marks, p, c, n), sz := s.sz[c := s.sz[p]])
      case Load(_, _) => s
      case Fetch(_, _) => s
      case Store(p, va, b) => s.(views := Write(s.views, p, va, [b]), marks := WrittenMarks(s.marks, p, va, 1))
      case CopyOut(p, va, bytes) =>
        var n := Reach(s.marks, s.alone, s.free, p, va, |bytes|);
        s.(views := Write(s.views, p, va, bytes[..n]), marks := WrittenMarks(s.marks, p, va, n))
      case Grow(p, n) => if p in s.sz then SnapResized(s, p, Resized(s.sz[p], n), true, false) else s
      case Extend(p, n, w, x) => if p in s.sz then SnapResized(s, p, s.sz[p] + n, w, x) else s
      case Clear(p, page) =>
        var k := Key(p, page);
        if k in s.marks then s.(marks := s.marks[k := s.marks[k].(u := false)]) else s
      case Exit(p) =>
        if p !in s.sz then s
        else
          var r := Range(p, 0, Pages(s.sz[p]));
          s.(views := s.views - r, marks := s.marks - r, sz := s.sz - {p})
  }

  function SnapResized(s: Snap, p: Pid, newsz: nat, w: bool, x: bool): Snap
    requires p in s.sz
  {
    s.(views := ResizedTo(s.views, p, s.sz[p], newsz, Filled(0)),
       marks := ResizedTo(s.marks, p, s.sz[p], newsz, NewMark(w, x)),
       sz := s.sz[p := newsz])
  }

  predicate SameSeen(s: Snap, t: Snap) {
    s.views == t.views && s.marks == t.marks && s.sz == t.sz
  }

  // When the two can be told apart.

  /** A page has at least the permissions it was allocated with, but for writing while it is COW. */
  predicate PermOk(k: Mark, e: Mark) {
    e.r && k.r && k.u == e.u && (e.x ==> k.x) && (e.w && !k.cow ==> k.w)
  }

  predicate Perms(marks: map<Key, Mark>, perm: map<Key, Mark>) {
    marks.Keys == perm.Keys && forall k :: k in marks ==> PermOk(marks[k], perm[k])
  }

  ghost predicate Related(s: Snap, e: Eager) {
    && s.views == e.pages && s.sz == e.sz && s.views.Keys == s.marks.Keys && Perms(s.marks, e.perm)
    && (forall p :: p in s.sz ==> Runs(s, p))
  }

  /** The free frames that copyout needs for the COW pages among len bytes at va. */
  function FramesFor(marks: map<Key, Mark>, alone: set<Key>, p: Pid, va: nat, len: nat): nat
    decreases len
  {
    if len == 0 || !Readable(marks, p, va) then 0
    else
      var k, rest := Key(p, va / PGSIZE), FramesFor(marks, alone, p, va + Chunk(va, len), len - Chunk(va, len));
      if !marks[k].cow then rest else if k !in alone then 1 + rest else if rest == 0 then 1 else rest
  }

  /**
   Exactly when an operation returns and does what it would under eager copying. A store to a COW page that was allocated
   read-only succeeds; one to address 0 of a COW page does not, nor does copyout to page 0; a page that dup_pg has made
   private can be written and executed from then on; and otherwise it is a question of free frames.
   */
  predicate Agrees(s: Snap, e: Eager, op: Op) {
    match op
    case Create(p) => p in s.sz || s.free >= EMPTY
    case Fork(p, c) => p !in s.sz || c in s.sz || s.free >= EMPTY + TablesFor(Pages(s.sz[p]))
    case Load(_, _) => true
    case Fetch(p, va) =>
      var k := Key(p, va / PGSIZE);
      !Readable(s.marks, p, va) || k !in e.perm || !(s.marks[k].x && !e.perm[k].x)
    case Store(p, va, _) =>
      var k := Key(p, va / PGSIZE);
      || !Readable(s.marks, p, va) || k !in e.perm
      || if s.marks[k].cow then e.perm[k].w == (va != 0 && s.free > 0) else e.perm[k].w || !s.marks[k].w
    case CopyOut(p, va, bytes) =>
      || |bytes| == 0 || !Readable(s.marks, p, va)
      || (va >= PGSIZE && FramesFor(s.marks, s.alone, p, va, |bytes|) <= s.free)
    case Grow(p, n) => p !in s.sz || n <= 0 || NeedTo(s, p, s.sz[p] + n) <= s.free
    case Extend(p, n, _, _) => p !in s.sz || s.sz[p] + n == 0 || NeedTo(s, p, s.sz[p] + n) <= s.free
    case Clear(_, _) => true
    case Exit(_) => true
  }

  /** Related machines agree on what user pages there are. */
  lemma SameReadable(s: Snap, e: Eager, p: Pid, va: nat)
    requires Related(s, e)
    ensures Readable(s.marks, p, va) <==> Readable(e.perm, p, va)
    ensures Readable(s.marks, p, va) ==> Key(p, va / PGSIZE) in s.views && PermOk(s.marks[Key(p, va / PGSIZE)], e.perm[Key(p, va / PGSIZE)])
  {
  }

  lemma {:induction false} ReachAgrees(s: Snap, e: Eager, free: nat, p: Pid, va: nat, len: nat)
    requires Related(s, e) && va >= PGSIZE
    ensures Reach(s.marks, s.alone, free, p, va, len) == EagerReach(e.perm, p, va, len) <==>
            FramesFor(s.marks, s.alone, p, va, len) <= free
    decreases len
  {
    hide Related;
    SameReadable(s, e, p, va);
    if len > 0 && Readable(s.marks, p, va) {
      var k, n := Key(p, va / PGSIZE), Chunk(va, len);
      if !(s.marks[k].cow && free == 0) {
        ReachAgrees(s, e, free - Takes(s.marks, s.alone, k), p, va + n, len - n);
      }
    }
  }

  /** The condition is exact. */
  lemma AgreesExact(s: Snap, e: Eager, op: Op)
    requires Related(s, e)
    ensures Agrees(s, e, op) <==> CowOut(s, op) == EagerOut(e, op) && !Hollows(s, op)
  {
    hide Readable, Reach, EagerReach, FramesFor, ByteAt, Pages, Need, TablesFor;
    match op
    case Load(p, va) => LoadAgrees(s, e, p, va);
    case Fetch(p, va) => LoadAgrees(s, e, p, va);
    case Store(p, va, _) => LoadAgrees(s, e, p, va);
    case CopyOut(p, va, bytes) => CopyAgrees(s, e, p, va, |bytes|);
    case _ =>
  }

  lemma LoadAgrees(s: Snap, e: Eager, p: Pid, va: nat)
    requires Related(s, e)
    ensures var k := Key(p, va / PGSIZE);
            && (Readable(s.marks, p, va) <==> Readable(e.perm, p, va))
            && (Readable(s.marks, p, va) ==>
                  k in s.marks && k in e.perm && k in s.views && s.views == e.pages && PermOk(s.marks[k], e.perm[k]))
  {
  }

  lemma CopyAgrees(s: Snap, e: Eager, p: Pid, va: nat, len: nat)
    requires Related(s, e)
    ensures Reach(s.marks, s.alone, s.free, p, va, len) == EagerReach(e.perm, p, va, len) <==>
            len == 0 || !Readable(s.marks, p, va) || (va >= PGSIZE && FramesFor(s.marks, s.alone, p, va, len) <= s.free)
  {
    SameReadable(s, e, p, va);
    if va >= PGSIZE {
      ReachAgrees(s, e, s.free, p, va, len);
    }
  }

  // When they agree they stay related.

  lemma RelatedMarks(s: Snap, e: Eager, k: Key)
    requires Related(s, e) && k in s.marks
    ensures k in e.perm && PermOk(s.marks[k], e.perm[k])
  {
  }

  lemma CowedPerms(marks: map<Key, Mark>, perm: map<Key, Mark>, p: Pid, n: nat)
    requires Perms(marks, perm)
    ensures Perms(CowedMarks(marks, p, n), perm)
  {
  }

  lemma ForkedPerms(marks: map<Key, Mark>, perm: map<Key, Mark>, p: Pid, c: Pid, n: nat)
    requires Perms(marks, perm)
    ensures Perms(Forked(marks, p, c, n), Forked(perm, p, c, n))
  {
    hide PermOk;
    ForkedKeys(marks, perm, p, c, n);
    forall k | k in Forked(marks, p, c, n)
      ensures PermOk(Forked(marks, p, c, n)[k], Forked(perm, p, c, n)[k])
    {
      var from := if k in Range(c, 0, n) && Key(p, k.page) in marks then Key(p, k.page) else k;
      assert PermOk(marks[from], perm[from]);
    }
  }

  lemma ForkedKeys<U, V>(v: map<Key, U>, w: map<Key, V>, p: Pid, c: Pid, n: nat)
    requires v.Keys == w.Keys
    ensures Forked(v, p, c, n).Keys == Forked(w, p, c, n).Keys && v.Keys <= Forked(v, p, c, n).Keys
    ensures n > 0 && Key(p, 0) in v ==> Key(c, 0) in Forked(v, p, c, n)
  {
    assert n > 0 ==> Key(c, 0) in Range(c, 0, n);
  }

  lemma ForkRelated(s: Snap, t: Snap, e: Eager, p: Pid, c: Pid)
    requires Related(s, e) && p in s.sz && c !in s.sz && p != c
    requires var n := Pages(s.sz[p]);
             && t.views == Forked(s.views, p, c, n) && t.marks == ForkedMarks(s.marks, p, c, n) && t.sz == s.sz[c := s.sz[p]]
    ensures Related(t, EagerNext(e, Fork(p, c)))
  {
    hide Pages, Forked, CowedMarks, Perms;
    var n := Pages(s.sz[p]);
    CowedPerms(s.marks, e.perm, p, n);
    ForkedPerms(CowedMarks(s.marks, p, n), e.perm, p, c, n);
    assert CowedMarks(s.marks, p, n).Keys == s.marks.Keys by {
      CowedKeys(s.marks, p, n);
    }
    ForkedKeys(s.views, CowedMarks(s.marks, p, n), p, c, n);
    ForkedKeys(CowedMarks(s.marks, p, n), s.views, p, c, n);
    forall q | q in t.sz
      ensures Runs(t, q)
    {
      assert Runs(s, if q == c then p else q);
    }
  }

  lemma CowedKeys(marks: map<Key, Mark>, p: Pid, n: nat)
    ensures CowedMarks(marks, p, n).Keys == marks.Keys
  {
  }

  lemma WrittenRelated(s: Snap, t: Snap, e: Eager, p: Pid, va: nat, bytes: seq<int>)
    requires Related(s, e) && t.sz == s.sz
    requires t.views == Write(s.views, p, va, bytes) && t.marks == WrittenMarks(s.marks, p, va, |bytes|)
    requires forall k :: k in s.marks && k.pid == p && Touches(k.page, va, |bytes|) ==> s.marks[k].u
    ensures Related(t, e.(pages := Write(e.pages, p, va, bytes)))
  {
    hide Touches, Patch;
    forall q | q in t.sz
      ensures Runs(t, q)
    {
      assert Runs(s, q);
    }
    forall k | k in t.marks
      ensures PermOk(t.marks[k], e.perm[k])
    {
      RelatedMarks(s, e, k);
    }
  }

  lemma ResizedRelated(s: Snap, t: Snap, e: Eager, p: Pid, newsz: nat, w: bool, x: bool)
    requires Related(s, e) && p in s.sz && SameSeen(t, SnapResized(s, p, newsz, w, x))
    ensures Related(t, EagerResized(e, p, newsz, w, x))
  {
    hide Pages, Filled;
    forall q | q in t.sz
      ensures Runs(t, q)
    {
      assert Runs(s, q);
      if q == p && Pages(newsz) > 0 && Pages(s.sz[p]) == 0 {
        assert Key(p, 0) in Range(p, 0, Pages(newsz) - 0);
      }
    }
  }

  lemma ClearRelated(s: Snap, t: Snap, e: Eager, k: Key)
    requires Related(s, e) && k in s.marks && t.sz == s.sz && t.views == s.views
    requires t.marks == s.marks[k := s.marks[k].(u := false)]
    ensures k in e.perm && Related(t, e.(perm := e.perm[k := e.perm[k].(u := false)]))
  {
    hide Pages, Perms;
    ClearedPerms(s.marks, e.perm, k);
    forall q | q in t.sz
      ensures Runs(t, q)
    {
      assert Runs(s, q);
    }
  }

  lemma ClearedPerms(marks: map<Key, Mark>, perm: map<Key, Mark>, k: Key)
    requires Perms(marks, perm) && k in marks
    ensures k in perm && Perms(marks[k := marks[k].(u := false)], perm[k := perm[k].(u := false)])
  {
  }

  lemma ExitRelated(s: Snap, t: Snap, e: Eager, p: Pid)
    requires Related(s, e) && p in s.sz
    requires var r := Range(p, 0, Pages(s.sz[p])); t.views == s.views - r && t.marks == s.marks - r && t.sz == s.sz - {p}
    ensures Related(t, EagerNext(e, Exit(p)))
  {
    hide Pages;
    forall q | q in t.sz
      ensures Runs(t, q)
    {
      assert Runs(s, q);
    }
  }

  /** copyout writes only user pages. */
  lemma {:induction false} ReachUser(marks: map<Key, Mark>, alone: set<Key>, free: nat, p: Pid, va: nat, len: nat, page: nat)
    requires Touches(page, va, Reach(marks, alone, free, p, va, len)) && Key(p, page) in marks
    ensures marks[Key(p, page)].u
    decreases len
  {
    var k, n := Key(p, va / PGSIZE), Chunk(va, len);
    if page != va / PGSIZE {
      ChunkEnds(va, len);
      ReachUser(marks, alone, free - Takes(marks, alone, k), p, va + n, len - n, page);
    }
  }

  lemma CopyRelated(s: Snap, t: Snap, e: Eager, p: Pid, va: nat, bytes: seq<int>)
    requires Related(s, e) && Agrees(s, e, CopyOut(p, va, bytes)) && SameSeen(t, CowNext(s, CopyOut(p, va, bytes)))
    ensures Related(t, EagerNext(e, CopyOut(p, va, bytes)))
  {
    hide Related, Reach, EagerReach, FramesFor, Touches, Readable, WrittenMarks, Write;
    CopyAgrees(s, e, p, va, |bytes|);
    var n := Reach(s.marks, s.alone, s.free, p, va, |bytes|);
    forall k | k in s.marks && k.pid == p && Touches(k.page, va, n)
      ensures s.marks[k].u
    {
      ReachUser(s.marks, s.alone, s.free, p, va, |bytes|, k.page);
    }
    assert |bytes[..n]| == n;
    WrittenRelated(s, t, e, p, va, bytes[..n]);
  }

  lemma StoreRelated(s: Snap, t: Snap, e: Eager, p: Pid, va: nat, b: int)
    requires Related(s, e) && Agrees(s, e, Store(p, va, b)) && SameSeen(t, CowNext(s, Store(p, va, b)))
    ensures Related(t, EagerNext(e, Store(p, va, b)))
  {
    hide Related, WrittenMarks, Write;
    AgreesExact(s, e, Store(p, va, b));
    if CanStore(s.marks, s.free, p, va) {
      forall k | k in s.marks && k.pid == p && Touches(k.page, va, 1)
        ensures s.marks[k].u
      {
        assert k == Key(p, va / PGSIZE);
      }
      assert |[b]| == 1;
      WrittenRelated(s, t, e, p, va, [b]);
    } else {
      SeenRelated(s, t, e);
    }
  }

  lemma SeenRelated(s: Snap, t: Snap, e: Eager)
    requires Related(s, e) && SameSeen(t, s)
    ensures Related(t, e)
  {
    hide Perms;
    forall q | q in t.sz
      ensures Runs(t, q)
    {
      assert Runs(s, q);
    }
  }

  lemma RelatedRuns(s: Snap, e: Eager, p: Pid)
    requires Related(s, e)
    ensures s.sz == e.sz && s.marks.Keys == e.perm.Keys && (p in s.sz ==> Runs(s, p))
  {
  }

  lemma CreateRelated(s: Snap, t: Snap, e: Eager, p: Pid)
    requires Related(s, e) && p !in s.sz && t.views == s.views && t.marks == s.marks && t.sz == s.sz[p := 0]
    ensures Related(t, e.(sz := e.sz[p := 0]))
  {
    hide Perms;
    forall q | q in t.sz
      ensures Runs(t, q)
    {
      assert q in s.sz ==> Runs(s, q);
    }
  }

  /** Under the condition of Agrees the two machines stay related, so agreement is a matter of one operation at a time. */
  lemma NextRelated(s: Snap, t: Snap, e: Eager, op: Op)
    requires Related(s, e) && Agrees(s, e, op) && SameSeen(t, CowNext(s, op))
    ensures Related(t, EagerNext(e, op))
  {
    hide Related, Pages, Need, TablesFor, Forked, Write, WrittenMarks, ResizedTo, Reach, EagerReach, FramesFor, Range;
    AgreesExact(s, e, op);
    RelatedRuns(s, e, op.p);
    if CowOut(s, op) == Fail {
      FailedNext(s, e, op);
      SeenRelated(s, t, e);
    } else {
      match op
      case Create(p) => CreateRelated(s, t, e, p);
      case Fork(p, c) => ForkRelated(s, t, e, p, c);
      case Load(_, _) => SeenRelated(s, t, e);
      case Fetch(_, _) => SeenRelated(s, t, e);
      case Store(p, va, b) => StoreRelated(s, t, e, p, va, b);
      case CopyOut(p, va, bytes) => CopyRelated(s, t, e, p, va, bytes);
      case Grow(p, n) => ResizedRelated(s, t, e, p, Resized(s.sz[p], n), true, false);
      case Extend(p, n, w, x) => ResizedRelated(s, t, e, p, s.sz[p] + n, w, x);
      case Clear(p, page) => ClearRelated(s, t, e, Key(p, page));
      case Exit(p) => ExitRelated(s, t, e, p);
    }
  }

  lemma FailedNext(s: Snap, e: Eager, op: Op)
    requires CowOut(s, op) == Fail == EagerOut(e, op)
    ensures EagerNext(e, op) == e && CowNext(s, op) == s
  {
  }

  // One operation.

  /** r is what CowOut says, and unless a child was hollowed, what is seen is what CowNext says. */
  ghost predicate Does(s: Snap, t: Snap, op: Op, r: Out) {
    r == CowOut(s, op) && (Hollows(s, op) || SameSeen(t, CowNext(s, op)))
  }

  /** The frames that a successful operation has taken, and that a store takes at most one. */
  ghost predicate Costs(s: Snap, t: Snap, op: Op) {
    if op.Store? then t.free + 1 >= s.free
    else CowOut(s, op) == Done ==>
      match op
      case Create(p) => t.free + EMPTY == s.free && t.tables == s.tables + Top(p)
      case Fork(p, _) => p in s.sz && (Hollows(s, op) || t.free + EMPTY + TablesFor(Pages(s.sz[p])) == s.free)
      case Grow(p, n) => p in s.sz && (n <= 0 || t.free + NeedTo(s, p, s.sz[p] + n) == s.free)
      case Extend(p, n, _, _) => p in s.sz && t.free + NeedTo(s, p, s.sz[p] + n) == s.free
      case _ => true
  }

  /** What a fork that runs out of frames leaves: nothing that is seen changes, and the child is hollow. */
  ghost predicate LeavesHollow(s: Snap, t: Snap, p: Pid, c: Pid) {
    && p in s.sz && t.sz == s.sz[c := s.sz[p]] && t.views == s.views && Hollow(t, c)
    && exists upto: nat :: t.marks == CowedMarks(s.marks, p, upto)
  }

  lemma OutOnly(s: Snap, op: Op)
    ensures !op.Fork? ==> !Hollows(s, op)
    ensures !(op.Create? || op.Fork? || op.Grow? || op.Extend? || op.Store?) ==> forall t :: Costs(s, t, op)
  {
  }

  // Runs.

  ghost predicate StepOk(s: Snap, t: Snap, e: Eager, f: Eager, op: Op, r: Out) {
    && Does(s, t, op, r) && Costs(s, t, op) && f == EagerNext(e, op)
    && (Hollows(s, op) ==> LeavesHollow(s, t, op.p, op.c))
  }

  ghost predicate IsRun(ops: seq<Op>, outs: seq<Out>, snaps: seq<Snap>, es: seq<Eager>) {
    && |outs| <= |ops| && |snaps| == |es| == |outs| + 1
    && forall i :: 0 <= i < |outs| ==> StepOk(snaps[i], snaps[i + 1], es[i], es[i + 1], ops[i], outs[i])
  }

  lemma RunMore(ops: seq<Op>, outs: seq<Out>, snaps: seq<Snap>, es: seq<Eager>, r: Out, t: Snap)
    requires IsRun(ops, outs, snaps, es) && |outs| < |ops|
    requires var n := |outs|;
             && Does(snaps[n], t, ops[n], r) && Costs(snaps[n], t, ops[n])
             && (Hollows(snaps[n], ops[n]) ==> LeavesHollow(snaps[n], t, ops[n].p, ops[n].c))
    ensures IsRun(ops, outs + [r], snaps + [t], es + [EagerNext(es[|outs|], ops[|outs|])])
  {
    hide Does, Hollows, LeavesHollow, EagerNext;
    var n := |outs|;
    var outs', snaps', es' := outs + [r], snaps + [t], es + [EagerNext(es[n], ops[n])];
    forall i | 0 <= i < |outs'|
      ensures StepOk(snaps'[i], snaps'[i + 1], es'[i], es'[i + 1], ops[i], outs'[i])
    {
      if i < n {
        assert StepOk(snaps[i], snaps[i + 1], es[i], es[i + 1], ops[i], outs[i]);
      }
    }
  }

  ghost predicate AgreeBefore(ops: seq<Op>, snaps: seq<Snap>, es: seq<Eager>, n: nat)
    requires n <= |ops| && n <= |snaps| && n <= |es|
  {
    forall i :: 0 <= i < n ==> Agrees(snaps[i], es[i], ops[i])
  }

  /**
   Copy-on-write against eager copying, over whole runs: up to the first operation that does not meet Agrees, every outcome is
   the one that eager copying gives and the processes see the same memory; and that operation's outcome differs, or it is a
   fork that leaves its child hollow.
   */
  lemma {:induction false} RunAgrees(ops: seq<Op>, outs: seq<Out>, snaps: seq<Snap>, es: seq<Eager>, n: nat)
    requires IsRun(ops, outs, snaps, es) && Related(snaps[0], es[0]) && n <= |outs| && AgreeBefore(ops, snaps, es, n)
    ensures Related(snaps[n], es[n]) && snaps[n].views == es[n].pages
    ensures forall i :: 0 <= i < n ==> outs[i] == EagerOut(es[i], ops[i])
    ensures n < |outs| ==>
              (Agrees(snaps[n], es[n], ops[n]) <==> outs[n] == EagerOut(es[n], ops[n]) && !Hollows(snaps[n], ops[n]))
  {
    hide Agrees, EagerOut, EagerNext, CowOut, CowNext, Hollows, LeavesHollow;
    if n > 0 {
      RunAgrees(ops, outs, snaps, es, n - 1);
      var i := n - 1;
      assert StepOk(snaps[i], snaps[n], es[i], es[n], ops[i], outs[i]) && Agrees(snaps[i], es[i], ops[i]);
      AgreesExact(snaps[i], es[i], ops[i]);
      NextRelated(snaps[i], snaps[n], es[i], ops[i]);
    }
    if n < |outs| {
      assert StepOk(snaps[n], snaps[n + 1], es[n], es[n + 1], ops[n], outs[n]);
      AgreesExact(snaps[n], es[n], ops[n]);
    }
    RelatedViews(snaps[n], es[n]);
  }

  lemma RelatedViews(s: Snap, e: Eager)
    requires Related(s, e)
    ensures s.views == e.pages
  {
  }
}
