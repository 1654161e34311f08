/** The slug backfill (backend/migrateSlug.js): every dashboard whose slug
    is NULL or empty gets a fresh slug of eight random bytes in hex. The
    random bytes are an input, one `Bytes8` per updated row. */
module SlugMigration {
  import opened Wrappers
  import opened Hex
  import opened DashboardCatalog
  import opened DashboardController

  /** `slug IS NULL OR slug = ''`: a row is left alone exactly when its
      slug is a non-empty string. */
  predicate LacksSlug(d: Dashboard): (b: bool)
    ensures !b <==> d.slug.Some? && |d.slug.value| > 0
  {
    d.slug == None || d.slug == Some("")
  }

  /** The ids the `SELECT` returns. */
  function Pending(c: Catalog): (ids: set<int>)
    ensures forall id :: id in ids <==> id in c.dashboards && LacksSlug(c.dashboards[id])
  {
    set id | id in c.dashboards && LacksSlug(c.dashboards[id])
  }

  /** The ids below `n` that lack a slug, in increasing order. */
  function PendingBelow(c: Catalog, n: int): seq<int>
    decreases n
  {
    if n <= 1 then []
    else PendingBelow(c, n - 1) + (if n - 1 in Pending(c) then [n - 1] else [])
  }

  /** The rows of the `SELECT`, met in id order. */
  function PendingOrder(c: Catalog): seq<int> {
    PendingBelow(c, c.lastId + 1)
  }

  /** `PendingBelow` lists the pending ids in `1..n-1`, each once, in
      increasing order. */
  lemma {:induction false} PendingBelowExact(c: Catalog, n: int)
    ensures forall i, j :: 0 <= i < j < |PendingBelow(c, n)| ==> PendingBelow(c, n)[i] < PendingBelow(c, n)[j]
    ensures forall i :: 0 <= i < |PendingBelow(c, n)| ==> PendingBelow(c, n)[i] in Pending(c) && 1 <= PendingBelow(c, n)[i] < n
    ensures forall id :: id in Pending(c) && 1 <= id < n ==> id in PendingBelow(c, n)
    decreases n
  {
    if n > 1 {
      PendingBelowExact(c, n - 1);
    }
  }

  /** When every id lies below the counter the selection is exactly the dashboards that
      lack a slug, each once. */
  lemma PendingOrderExact(c: Catalog)
    requires IdsBounded(c)
    ensures forall i, j :: 0 <= i < j < |PendingOrder(c)| ==> PendingOrder(c)[i] != PendingOrder(c)[j]
    ensures forall i :: 0 <= i < |PendingOrder(c)| ==> PendingOrder(c)[i] in Pending(c)
    ensures forall id :: id in PendingOrder(c) <==> id in Pending(c)
    ensures PendingOrder(c) == [] <==> Pending(c) == {}
  {
    PendingBelowExact(c, c.lastId + 1);
    if PendingOrder(c) != [] {
      assert PendingOrder(c)[0] in Pending(c);
    }
  }

  /** `UPDATE dashboards SET slug = ? WHERE id = ?` on an existing row. */
  function SetSlug(c: Catalog, id: int, slug: string): (r: Catalog)
    requires id in c.dashboards
    ensures r.dashboards.Keys == c.dashboards.Keys && r.grants == c.grants && r.lastId == c.lastId
    ensures r.dashboards[id] == c.dashboards[id].(slug := Some(slug))
    ensures forall k :: k in c.dashboards && k != id ==> r.dashboards[k] == c.dashboards[k]
  {
    c.(dashboards := c.dashboards[id := c.dashboards[id].(slug := Some(slug))])
  }

  /** The updates of the first `|ids|` rows, row `ids[k]` taking the hex of
      `entropy[k]`; no row is added or removed, and the grants stay. */
  function Assign(c: Catalog, ids: seq<int>, entropy: seq<Bytes8>): (r: Catalog)
    requires |ids| <= |entropy|
    requires forall i :: 0 <= i < |ids| ==> ids[i] in c.dashboards
    ensures r.dashboards.Keys == c.dashboards.Keys && r.grants == c.grants && r.lastId == c.lastId
    decreases |ids|
  {
    if ids == [] then c
    else SetSlug(Assign(c, ids[..|ids| - 1], entropy), ids[|ids| - 1], HexEncode(entropy[|ids| - 1]))
  }

  /** Each listed row gets its own slug and keeps every other column;
      every other row is untouched. */
  lemma {:induction false} AssignEffect(c: Catalog, ids: seq<int>, entropy: seq<Bytes8>)
    requires |ids| <= |entropy|
    requires forall i :: 0 <= i < |ids| ==> ids[i] in c.dashboards
    requires forall i, j :: 0 <= i < j < |ids| ==> ids[i] != ids[j]
    ensures Assign(c, ids, entropy).dashboards.Keys == c.dashboards.Keys
    ensures forall i :: 0 <= i < |ids| ==>
      Assign(c, ids, entropy).dashboards[ids[i]] == c.dashboards[ids[i]].(slug := Some(HexEncode(entropy[i])))
    ensures forall id :: id in c.dashboards && id !in ids ==> Assign(c, ids, entropy).dashboards[id] == c.dashboards[id]
    decreases |ids|
  {
    if ids != [] {
      var init, last := ids[..|ids| - 1], ids[|ids| - 1];
      AssignEffect(c, init, entropy);
      var prev := Assign(c, init, entropy);
      var r := Assign(c, ids, entropy);
      assert r == SetSlug(prev, last, HexEncode(entropy[|ids| - 1]));
      forall i | 0 <= i < |ids|
        ensures r.dashboards[ids[i]] == c.dashboards[ids[i]].(slug := Some(HexEncode(entropy[i])))
      {
        if i < |init| {
          assert init[i] == ids[i] && init[i] != last;
        }
      }
      forall id | id in c.dashboards && id !in ids
        ensures r.dashboards[id] == c.dashboards[id]
      {
        assert id != last && id !in init;
      }
    }
  }

  /** What a run of the script leaves behind: nothing when no row lacks a
      slug, otherwise every selected row updated in turn. */
  function AfterBackfill(c: Catalog, entropy: seq<Bytes8>): (r: Catalog)
    requires IdsBounded(c)
    requires |PendingOrder(c)| <= |entropy|
    ensures r.dashboards.Keys == c.dashboards.Keys && r.grants == c.grants && r.lastId == c.lastId
    ensures Pending(c) == {} ==> r == c
  {
    PendingOrderExact(c);
    if |PendingOrder(c)| == 0 then c else Assign(c, PendingOrder(c), entropy)
  }

  /** After a run no dashboard lacks a slug; each one that did now has a
      16-character lower-case hex slug and its other columns unchanged; every
      other dashboard, every grant and the id counter are unchanged. */
  lemma BackfillResult(c: Catalog, entropy: seq<Bytes8>)
    requires IdsBounded(c)
    requires |PendingOrder(c)| <= |entropy|
    ensures IdsBounded(AfterBackfill(c, entropy))
    ensures WellFormed(c) ==> WellFormed(AfterBackfill(c, entropy))
    ensures Pending(AfterBackfill(c, entropy)) == {}
    ensures AfterBackfill(c, entropy).dashboards.Keys == c.dashboards.Keys
    ensures AfterBackfill(c, entropy).grants == c.grants && AfterBackfill(c, entropy).lastId == c.lastId
    ensures forall id :: id in c.dashboards && !LacksSlug(c.dashboards[id]) ==>
      AfterBackfill(c, entropy).dashboards[id] == c.dashboards[id]
    ensures forall id :: id in c.dashboards && LacksSlug(c.dashboards[id]) ==>
      (&& AfterBackfill(c, entropy).dashboards[id].slug.Some?
       && IsSlug(AfterBackfill(c, entropy).dashboards[id].slug.value)
       && AfterBackfill(c, entropy).dashboards[id] == c.dashboards[id].(slug := AfterBackfill(c, entropy).dashboards[id].slug))
  {
    PendingOrderExact(c);
    var ids := PendingOrder(c);
    var r := AfterBackfill(c, entropy);
    if |ids| > 0 {
      AssignEffect(c, ids, entropy);
      forall id | id in c.dashboards && LacksSlug(c.dashboards[id])
        ensures r.dashboards[id].slug.Some? && IsSlug(r.dashboards[id].slug.value)
        ensures r.dashboards[id] == c.dashboards[id].(slug := r.dashboards[id].slug)
      {
        var i :| 0 <= i < |ids| && ids[i] == id;
        SlugShape(entropy[i]);
      }
      forall id | id in r.dashboards
        ensures !LacksSlug(r.dashboards[id])
      {
        if LacksSlug(c.dashboards[id]) {
          assert |r.dashboards[id].slug.value| == 16;
        }
      }
      assert Pending(r) == {};
    }
  }

  /** With nothing to backfill the script issues no update. */
  lemma NothingPendingNoChange(c: Catalog, entropy: seq<Bytes8>)
    requires IdsBounded(c)
    requires Pending(c) == {}
    ensures |PendingOrder(c)| == 0
    ensures AfterBackfill(c, entropy) == c
  {
    PendingOrderExact(c);
  }

  /** Running the script a second time changes nothing. */
  lemma BackfillIdempotent(c: Catalog, first: seq<Bytes8>, second: seq<Bytes8>)
    requires IdsBounded(c)
    requires |PendingOrder(c)| <= |first|
    ensures IdsBounded(AfterBackfill(c, first))
    ensures |PendingOrder(AfterBackfill(c, first))| == 0
    ensures AfterBackfill(AfterBackfill(c, first), second) == AfterBackfill(c, first)
  {
    BackfillResult(c, first);
    NothingPendingNoChange(AfterBackfill(c, first), second);
  }

  /** `SELECT id FROM dashboards WHERE slug IS NULL OR slug = ''`. */
  method SelectPending(store: DashboardStore) returns (ids: seq<int>)
    requires IdsBounded(store.Snapshot())
    ensures ids == PendingOrder(store.Snapshot())
    ensures forall id :: id in ids <==> id in store.dashboards && LacksSlug(store.dashboards[id])
  {
    PendingOrderExact(store.Snapshot());
    ids := [];
    var id := 1;
    while id <= store.lastId
      invariant 1 <= id <= store.lastId + 1
      invariant ids == PendingBelow(store.Snapshot(), id)
    {
      if id in store.dashboards && LacksSlug(store.dashboards[id]) {
        ids := ids + [id];
      }
      id := id + 1;
    }
  }

  /** The `rows.forEach` loop: one `UPDATE` per selected row, each with the
      next eight random bytes. */
  method UpdateSlugs(store: DashboardStore, ids: seq<int>, entropy: seq<Bytes8>)
    requires |ids| <= |entropy|
    requires forall i :: 0 <= i < |ids| ==> ids[i] in store.dashboards
    modifies store
    ensures store.Snapshot() == Assign(old(store.Snapshot()), ids, entropy)
  {
    ghost var c := store.Snapshot();
    var k := 0;
    while k < |ids|
      invariant 0 <= k <= |ids|
      invariant store.Snapshot() == Assign(c, ids[..k], entropy)
    {
      assert ids[..k + 1][..k] == ids[..k];
      var id := ids[k];
      var d := store.dashboards[id];
      store.dashboards := store.dashboards[id := d.(slug := Some(HexEncode(entropy[k])))];
      k := k + 1;
    }
    assert ids[..|ids|] == ids;
  }

  /** The script: select, stop when nothing lacks a slug, otherwise update
      every selected row. */
  method BackfillSlugs(store: DashboardStore, entropy: seq<Bytes8>)
    requires IdsBounded(store.Snapshot())
    requires |PendingOrder(store.Snapshot())| <= |entropy|
    modifies store
    ensures IdsBounded(store.Snapshot())
    ensures old(store.Valid()) ==> store.Valid()
    ensures store.grants == old(store.grants) && store.lastId == old(store.lastId)
    ensures store.Snapshot() == AfterBackfill(old(store.Snapshot()), entropy)
    ensures Pending(store.Snapshot()) == {}
  {
    ghost var c := store.Snapshot();
    BackfillResult(c, entropy);
    PendingOrderExact(c);
    var ids := SelectPending(store);
    if |ids| == 0 {
      return;
    }
    UpdateSlugs(store, ids, entropy);
  }
}
