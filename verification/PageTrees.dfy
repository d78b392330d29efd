/**
 The page-table pages that UserVm counts, by process, level and index, and those of module Sv39's trees, by place in the
 tree: one process's pages are one tree's places, walk finds the same entries through either, and needs as many new pages.
 */
module PageTrees {
  import opened Collections
  import S = Sv39
  import opened CowMemory
  import opened UserPages

  function TableAt(p: Pid, q: S.Place): Table {
    match q
    case Root => Root(p)
    case Mid(i) => Mid(p, i)
    case Low(i, j) => Low(p, 512 * i + j)
  }

  /** The page-table pages of p are those of a tree with these places. */
  ghost predicate TreeOf(tables: set<Table>, p: Pid, places: set<S.Place>) {
    forall q :: S.PlaceOk(q) ==> (q in places <==> TableAt(p, q) in tables)
  }

  /** No two places stand for one page-table page. */
  lemma PlacesApart(p: Pid, q: S.Place, r: S.Place)
    requires S.PlaceOk(q) && S.PlaceOk(r) && TableAt(p, q) == TableAt(p, r)
    ensures q == r
  {
  }

  /** walk passes the same page-table pages for an address as for its page. */
  lemma SameWay(p: Pid, va: nat)
    requires va < S.MAXVA
    ensures var mid, low, k := S.PlaceAt(va, 1), S.PlaceAt(va, 0), Key(p, va / S.PGSIZE);
            && S.PlaceOk(mid) && S.PlaceOk(low) && S.WayTo(va, 0) == {mid, low}
            && TableAt(p, mid) == MidOf(k) && TableAt(p, low) == LowOf(k) && k.page < MAXPAGE
  {
    S.PxDigits(va);
    S.Shifted(va);
    assert S.WayTo(va, 0) == {S.PlaceAt(va, 1), S.PlaceAt(va, 0)} by {
      hide S.PlaceAt;
    }
  }

  /** The descent through the tree's entries finds a slot exactly when the page has its path. */
  lemma SameAnswer(t: S.Tree, tables: map<Table, Frame>, p: Pid, va: nat)
    requires S.Wf(t) && TreeOf(tables.Keys, p, t.at.Keys) && va < S.MAXVA
    ensures S.Lookup(t.mem, t.at[S.Root], va).Some? <==> HasPath(tables, Key(p, va / S.PGSIZE))
  {
    hide S.PX, S.Lookup, S.EntriesOk, S.FreeOk;
    S.LookupIs(t, va);
    SameWay(p, va);
    var mid, low := S.PlaceAt(va, 1), S.PlaceAt(va, 0);
    assert low in t.at ==> mid in t.at;
  }

  /** Both walks miss as many page-table pages, and after adding them the pages are those of the tree again. */
  lemma SameCost(tables: set<Table>, p: Pid, places: set<S.Place>, va: nat)
    requires TreeOf(tables, p, places) && va < S.MAXVA
    ensures var k := Key(p, va / S.PGSIZE);
            && |Path(k) - tables| == |S.WayTo(va, 0) - places|
            && TreeOf(tables + Path(k), p, places + S.WayTo(va, 0))
  {
    SameWay(p, va);
    var mid, low, k := S.PlaceAt(va, 1), S.PlaceAt(va, 0), Key(p, va / S.PGSIZE);
    hide S.PlaceAt, S.WayTo, MidOf, LowOf;
    forall q | S.PlaceOk(q)
      ensures q in places + {mid, low} <==> TableAt(p, q) in tables + {MidOf(k), LowOf(k)}
    {
      if TableAt(p, q) == MidOf(k) {
        PlacesApart(p, q, mid);
      }
      if TableAt(p, q) == LowOf(k) {
        PlacesApart(p, q, low);
      }
    }
    assert mid != low && MidOf(k) != LowOf(k) by {
      Levels(p, va);
    }
    PairSize(MidOf(k), LowOf(k), tables);
    PairSize(mid, low, places);
  }

  lemma Levels(p: Pid, va: nat)
    ensures S.PlaceAt(va, 1) != S.PlaceAt(va, 0) && MidOf(Key(p, va / S.PGSIZE)) != LowOf(Key(p, va / S.PGSIZE))
  {
  }

  lemma PairSize<T>(x: T, y: T, s: set<T>)
    requires x != y
    ensures |{x, y} - s| == (if x in s then 0 else 1) + (if y in s then 0 else 1)
  {
    var rest := {y} - s;
    assert |rest| == (if y in s then 0 else 1) by {
      assert rest == if y in s then {} else {y};
    }
    if x in s {
      assert {x, y} - s == rest;
    } else {
      assert {x, y} - s == {x} + rest;
    }
  }
}
