/** Deleting old records in chunks, with a query that may look at the very table it deletes from. */
module ChunkedDelete {
  import opened Wrappers

  type Pk = int
  type Table<T> = map<Pk, T>

  /** A queryset: whether a record of the table is selected. */
  type Query<!T> = (Table<T>, Pk) -> bool

  const CHUNK_SIZE := 1000

  ghost predicate Selects<T>(q: Query<T>, t: Table<T>, pks: set<Pk>) {
    forall pk :: pk in pks ==> pk in t && q(t, pk)
  }

  /** Deleting selected records does not change which of the others are selected. */
  ghost predicate Stable<T(!new)>(q: Query<T>) {
    forall t: Table<T>, pks: set<Pk>, pk: Pk :: Selects(q, t, pks) && pk in t && pk !in pks ==>
                                                  q(t - pks, pk) == q(t, pk)
  }

  /** What deleting everything selected at once would leave. */
  function DeletedAtOnce<T>(q: Query<T>, t: Table<T>): Table<T> {
    t - (set pk | pk in t && q(t, pk))
  }

  class Database<T(!new)> {
    var records: Table<T>

    constructor (records: Table<T>)
      ensures this.records == records
    {
      this.records := records;
    }

    /** `queryset.filter(pk__in=queryset[:1000]).delete()`: some selected records, as many as fit in a chunk. */
    method DeleteChunk(q: Query<T>) returns (count: nat, ghost pks: set<Pk>)
      modifies this
      ensures Selects(q, old(records), pks) && records == old(records) - pks && count == |pks| <= 1000
      ensures |pks| < 1000 ==> forall pk :: pk in old(records) && q(old(records), pk) ==> pk in pks
    {
      var selected := set pk | pk in records && q(records, pk);
      var chunk := {};
      var rest := selected;
      while |chunk| < CHUNK_SIZE && rest != {}
        invariant rest + chunk == selected && |chunk| <= CHUNK_SIZE
        invariant records == old(records)
        decreases rest
      {
        assert (forall k :: k !in rest) ==> rest == {};
        var pk :| pk in rest;
        rest, chunk := rest - {pk}, chunk + {pk};
      }
      assert |chunk| < CHUNK_SIZE ==> chunk == selected;
      forall pk | pk in records && q(records, pk) ensures pk in selected {
      }
      records := records - chunk;
      count, pks := |chunk|, chunk;
    }

    /** chunked_delete: until a pass deletes nothing. With a stable query the result is that of deleting
        everything selected at once, whatever records each chunk takes. */
    method ChunkedDelete(q: Query<T>)
      modifies this
      ensures NoneSelected(q, records)
      ensures Stable(q) ==> records == DeletedAtOnce(q, old(records))
    {
      while true
        invariant Stable(q) ==> Deleting(q, old(records), records)
        decreases |records|
      {
        ghost var before := records;
        var count, pks := DeleteChunk(q);
        if Stable(q) {
          DeletingNext(q, old(records), before, pks);
        }
        forall pk | pk in pks ensures pk in before {
        }
        FewerRecords(before, pks);
        if count == 0 {
          assert pks == {} && records == before;
          break;
        }
      }
      if Stable(q) {
        DeletingDone(q, old(records), records);
      }
    }
  }

  ghost predicate NoneSelected<T>(q: Query<T>, t: Table<T>) {
    forall pk :: pk in t ==> !q(t, pk)
  }

  lemma DeletingDone<T(!new)>(q: Query<T>, t0: Table<T>, t: Table<T>)
    requires Deleting(q, t0, t) && NoneSelected(q, t)
    ensures t == DeletedAtOnce(q, t0)
  {
    var gone := set pk | pk in t0 && q(t0, pk);
    var left := t0 - gone;
    forall pk ensures pk in t <==> pk in left {
    }
    assert forall pk :: pk in t ==> t[pk] == left[pk];
  }

  lemma FewerRecords<T>(t: Table<T>, pks: set<Pk>)
    requires pks <= t.Keys
    ensures |t - pks| == |t| - |pks|
  {
    assert (t - pks).Keys == t.Keys - pks;
    assert |t - pks| == |(t - pks).Keys| && |t| == |t.Keys|;
  }

  /** What has been deleted so far was selected at the start, and selection has not changed for the rest. */
  ghost predicate Deleting<T(!new)>(q: Query<T>, t0: Table<T>, t: Table<T>) {
    && t.Keys <= t0.Keys
    && (forall pk :: pk in t ==> t[pk] == t0[pk] && q(t, pk) == q(t0, pk))
    && (forall pk :: pk in t0 && pk !in t ==> q(t0, pk))
  }

  lemma DeletingNext<T(!new)>(q: Query<T>, t0: Table<T>, t: Table<T>, pks: set<Pk>)
    requires Stable(q) && Deleting(q, t0, t) && Selects(q, t, pks)
    ensures Deleting(q, t0, t - pks)
  {
    forall pk | pk in t && pk !in pks ensures q(t - pks, pk) == q(t, pk) {
    }
  }

  // ---- The two maintenance tasks ----

  datatype AssetSnapshot = AssetSnapshot(asset: Option<int>, versioned: bool, created: int)

  /** A newer versioned snapshot of the same asset; snapshots without an asset never match each other. */
  ghost predicate HasNewer(t: Table<AssetSnapshot>, pk: Pk) {
    pk in t && exists k :: IsNewer(t, pk, k)
  }

  predicate IsNewer(t: Table<AssetSnapshot>, pk: Pk, k: Pk) {
    pk in t && k in t && k > pk && t[k].versioned && t[k].asset.Some? && t[k].asset == t[pk].asset
  }

  /** Snapshots past the retention date that are unversioned, or not the latest versioned ones of their asset. */
  function OldSnapshots(cutoff: int): Query<AssetSnapshot> {
    (t: Table<AssetSnapshot>, pk: Pk) =>
      pk in t && t[pk].created < cutoff && (!t[pk].versioned || exists k :: k in t && IsNewer(t, pk, k))
  }

  /** Past a newer versioned snapshot there is a newest one, which has none newer. */
  lemma {:induction false} NewestOf(t: Table<AssetSnapshot>, pk: Pk, k: Pk, candidates: set<Pk>) returns (newest: Pk)
    requires IsNewer(t, pk, k)
    requires forall j :: IsNewer(t, k, j) ==> j in candidates
    requires forall j :: j in candidates ==> j > k
    ensures IsNewer(t, pk, newest) && forall j :: !IsNewer(t, newest, j)
    decreases |candidates|
  {
    if j :| IsNewer(t, k, j) {
      var fewer := set i | i in candidates && i > j;
      assert fewer <= candidates - {j};
      SmallerSet(fewer, candidates, j);
      newest := NewestOf(t, pk, j, fewer);
    } else {
      newest := k;
    }
  }

  lemma SmallerSet(s1: set<Pk>, s2: set<Pk>, x: Pk)
    requires s1 <= s2 - {x} && x in s2
    ensures |s1| < |s2|
  {
    var rest := s2 - {x} - s1;
    assert s2 - {x} == s1 + rest;
    assert |s2 - {x}| == |s1| + |rest|;
  }

  lemma Newest(t: Table<AssetSnapshot>, pk: Pk) returns (newest: Pk)
    requires HasNewer(t, pk)
    ensures IsNewer(t, pk, newest) && forall j :: !IsNewer(t, newest, j)
  {
    var k :| IsNewer(t, pk, k);
    newest := NewestOf(t, pk, k, set j | j in t && j > k);
  }

  /** Each deletion can remove the newer snapshot that justified another one,
      but never the newest, so every justification keeps a witness. */
  lemma OldSnapshotsIsStable(cutoff: int)
    ensures Stable(OldSnapshots(cutoff))
  {
    var q := OldSnapshots(cutoff);
    forall t: Table<AssetSnapshot>, pks: set<Pk>, pk: Pk | Selects(q, t, pks) && pk in t && pk !in pks
      ensures q(t - pks, pk) == q(t, pk)
    {
      if k :| k in t && IsNewer(t, pk, k) {
        var newest := Newest(t, pk);
        assert !q(t, newest);
        assert IsNewer(t - pks, pk, newest);
      } else {
        forall k ensures !IsNewer(t - pks, pk, k) {
          assert IsNewer(t - pks, pk, k) ==> IsNewer(t, pk, k);
        }
      }
    }
  }

  /** remove_old_asset_snapshots. Left are the snapshots of the retention period, and the latest versioned one
      of each asset; those without an asset have no rival. */
  method RemoveOldAssetSnapshots(db: Database<AssetSnapshot>, cutoff: int)
    modifies db
    ensures db.records == DeletedAtOnce(OldSnapshots(cutoff), old(db.records))
    ensures forall pk :: pk in db.records <==>
              && pk in old(db.records)
              && (|| old(db.records)[pk].created >= cutoff
                  || (&& old(db.records)[pk].versioned
                      && forall k :: k in old(db.records) && k > pk && old(db.records)[k].versioned
                                     && old(db.records)[k].asset.Some? ==>
                                       old(db.records)[k].asset != old(db.records)[pk].asset))
    ensures forall pk :: pk in db.records ==> db.records[pk] == old(db.records)[pk]
  {
    OldSnapshotsIsStable(cutoff);
    db.ChunkedDelete(OldSnapshots(cutoff));
    LeftSnapshots(old(db.records), cutoff);
  }

  lemma LeftSnapshots(t: Table<AssetSnapshot>, cutoff: int)
    ensures forall pk :: pk in DeletedAtOnce(OldSnapshots(cutoff), t) <==>
              && pk in t
              && (|| t[pk].created >= cutoff
                  || (&& t[pk].versioned
                      && forall k :: k in t && k > pk && t[k].versioned && t[k].asset.Some? ==>
                                       t[k].asset != t[pk].asset))
  {
    forall pk | pk in t
      ensures pk in DeletedAtOnce(OldSnapshots(cutoff), t) <==>
              || t[pk].created >= cutoff
              || (&& t[pk].versioned
                  && forall k :: k in t && k > pk && t[k].versioned && t[k].asset.Some? ==> t[k].asset != t[pk].asset)
    {
      assert forall k :: k in t ==>
                           (IsNewer(t, pk, k) <==>
                            k > pk && t[k].versioned && t[k].asset.Some? && t[k].asset == t[pk].asset);
    }
  }

  /** The latest versioned snapshot of each asset survives, however old it is. */
  lemma LatestVersionedSurvives(t: Table<AssetSnapshot>, cutoff: int, pk: Pk)
    requires pk in t && t[pk].versioned && !HasNewer(t, pk)
    ensures pk in DeletedAtOnce(OldSnapshots(cutoff), t)
  {}

  datatype ImportTask = ImportTask(created: int)

  function OldImportTasks(cutoff: int): Query<ImportTask> {
    (t: Table<ImportTask>, pk: Pk) => pk in t && t[pk].created < cutoff
  }

  /** remove_old_import_tasks. */
  method RemoveOldImportTasks(db: Database<ImportTask>, cutoff: int)
    modifies db
    ensures forall pk :: pk in db.records <==> pk in old(db.records) && old(db.records)[pk].created >= cutoff
    ensures forall pk :: pk in db.records ==> db.records[pk] == old(db.records)[pk]
  {
    var q := OldImportTasks(cutoff);
    assert Stable(q);
    db.ChunkedDelete(q);
  }
}
