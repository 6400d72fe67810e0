/** sync_media_files: one pass over the local media records against a snapshot of the remote metadata,
    then a sweep over what the pass left in the snapshot. */
module MediaSync {
  import opened Wrappers

  datatype MediaId = MediaId(name: string)
  datatype Hash = Hash(text: string)
  type Pk = int

  /** A remote metadata entry of the synchronized type. */
  datatype Entry = Entry(id: MediaId, md5: Hash, fromKpi: bool)
  type Remote = map<Pk, Entry>

  /** A local record; `deleted` is a tombstone, `paired` is linked to another project's data. */
  datatype Record = Record(key: int, id: MediaId, md5: Hash, deleted: bool, paired: bool)

  datatype KcFile = KcFile(pk: Pk, md5: Hash, fromKpi: bool)

  datatype Write = Post(id: MediaId) | Delete(pk: Pk) | Patch(pk: Pk)

  predicate UniqueIds(remote: Remote) {
    forall i, j :: i in remote && j in remote && remote[i].id == remote[j].id ==> i == j
  }

  predicate Absent(remote: Remote, id: MediaId) {
    forall pk :: pk in remote ==> remote[pk].id != id
  }

  predicate Present(remote: Remote, e: Entry) {
    exists pk :: pk in remote && remote[pk] == e
  }

  /** At most one live record for each id. */
  predicate UniqueLive(records: seq<Record>) {
    forall i, j :: 0 <= i < j < |records| && !records[i].deleted && !records[j].deleted ==>
                     records[i].id != records[j].id
  }

  predicate LiveIn(records: seq<Record>, id: MediaId) {
    exists r :: r in records && !r.deleted && r.id == id
  }

  predicate TombstoneIn(records: seq<Record>, id: MediaId) {
    exists r :: r in records && r.deleted && r.id == id
  }

  /** What a live record wants the remote entry to be, given the one that was there. An entry with the right hash is
      left alone; paired data is patched, which keeps its origin; anything else is replaced. */
  function Wanted(r: Record, was: Option<Entry>): Entry {
    if was.Some? && was.value.md5 == r.md5 then was.value
    else if was.Some? && r.paired then was.value.(md5 := r.md5)
    else Entry(r.id, r.md5, true)
  }

  ghost function EntryFor(remote: Remote, id: MediaId): Option<Entry> {
    if pk :| pk in remote && remote[pk].id == id then Some(remote[pk]) else None
  }

  lemma EntryForPresent(remote: Remote, pk: Pk)
    requires UniqueIds(remote) && pk in remote
    ensures EntryFor(remote, remote[pk].id) == Some(remote[pk])
  {}

  /** The remote state that a synchronization of these records must leave: wanted entries for live records, directly
      uploaded entries for other ids, and nothing else. It says nothing about the order of the records. */
  ghost predicate Synchronized(records: seq<Record>, before: Remote, after: Remote) {
    && UniqueIds(after)
    && (forall r :: r in records && !r.deleted ==> Present(after, Wanted(r, EntryFor(before, r.id))))
    && (forall pk :: pk in before && !before[pk].fromKpi && !LiveIn(records, before[pk].id) ==>
                       Present(after, before[pk]))
    && (forall pk :: pk in after && !LiveIn(records, after[pk].id) ==> !after[pk].fromKpi && Present(before, after[pk]))
  }

  /** Nothing to do. */
  ghost predicate InSync(records: seq<Record>, remote: Remote) {
    && (forall r :: r in records ==> !r.deleted)
    && (forall r :: r in records ==> EntryFor(remote, r.id).Some? && EntryFor(remote, r.id).value.md5 == r.md5)
    && (forall pk :: pk in remote && remote[pk].fromKpi ==> LiveIn(records, remote[pk].id))
  }

  /** The remote server. A request for something that is not there, or that is there already, would fail. */
  class Kobocat {
    var entries: Remote
    ghost var writes: seq<Write>

    constructor (entries: Remote)
      ensures this.entries == entries && writes == []
    {
      this.entries := entries;
      writes := [];
    }

    method Post(r: Record)
      requires UniqueIds(entries) && Absent(entries, r.id)
      modifies this
      ensures UniqueIds(entries) && writes == old(writes) + [Write.Post(r.id)]
      ensures exists pk :: pk !in old(entries) && entries == old(entries)[pk := Entry(r.id, r.md5, true)]
    {
      var pk := FreshPk(entries);
      entries := entries[pk := Entry(r.id, r.md5, true)];
      writes := writes + [Write.Post(r.id)];
    }

    method Delete(pk: Pk)
      requires pk in entries
      modifies this
      ensures entries == old(entries) - {pk} && writes == old(writes) + [Write.Delete(pk)]
    {
      entries := entries - {pk};
      writes := writes + [Write.Delete(pk)];
    }

    method Patch(pk: Pk, md5: Hash)
      requires pk in entries
      modifies this
      ensures entries == old(entries)[pk := old(entries)[pk].(md5 := md5)] && writes == old(writes) + [Write.Patch(pk)]
    {
      entries := entries[pk := entries[pk].(md5 := md5)];
      writes := writes + [Write.Patch(pk)];
    }
  }

  method FreshPk(m: Remote) returns (pk: Pk)
    ensures pk !in m
  {
    pk := 0;
    ghost var below := {};
    while pk in m
      invariant below <= m.Keys && forall k :: k in below ==> k < pk
      invariant pk >= 0 && forall k :: 0 <= k < pk ==> k in below
      decreases m.Keys - below
    {
      below := below + {pk};
      pk := pk + 1;
    }
  }

  type Snapshot = map<MediaId, KcFile>

  /** Snapshot entry f of id is still what the server has. */
  predicate Fresh(before: Remote, remote: Remote, id: MediaId, f: KcFile) {
    f.pk in before && f.pk in remote && before[f.pk] == remote[f.pk] == Entry(id, f.md5, f.fromKpi)
  }

  /** The state of the pass once the records in `done` are processed. A key leaves the snapshot when a live record
      takes it over, or when a tombstone deletes the remote entry; a tombstone of a directly
      uploaded entry leaves it there for a live record still to come. */
  ghost predicate Passing(before: Remote, kc: Snapshot, remote: Remote, done: seq<Record>) {
    && UniqueIds(before) && UniqueIds(remote)
    && (forall id :: id in kc ==> Fresh(before, remote, id, kc[id]) && !LiveIn(done, id))
    && (forall pk :: pk in before && before[pk].id !in kc ==>
                       LiveIn(done, before[pk].id) || (before[pk].fromKpi && TombstoneIn(done, before[pk].id)))
    && (forall r :: r in done && !r.deleted ==> Present(remote, Wanted(r, EntryFor(before, r.id))))
    && (forall pk :: pk in remote ==> remote[pk].id in kc || LiveIn(done, remote[pk].id))
  }

  /** Entries of other ids are the same in both states. */
  predicate SameExcept(r1: Remote, r2: Remote, id: MediaId) {
    && (forall pk :: pk in r1 && r1[pk].id != id ==> pk in r2 && r2[pk] == r1[pk])
    && (forall pk :: pk in r2 && r2[pk].id != id ==> pk in r1 && r2[pk] == r1[pk])
  }

  lemma InMore(done: seq<Record>, r: Record, id: MediaId)
    ensures LiveIn(done + [r], id) <==> LiveIn(done, id) || (!r.deleted && r.id == id)
    ensures TombstoneIn(done + [r], id) <==> TombstoneIn(done, id) || (r.deleted && r.id == id)
  {
    if LiveIn(done, id) {
      var x :| x in done && !x.deleted && x.id == id;
      assert x in done + [r];
    }
    if TombstoneIn(done, id) {
      var x :| x in done && x.deleted && x.id == id;
      assert x in done + [r];
    }
    assert r in done + [r];
  }

  /** One record processed: it concerns its own id only, and leaves that id in a proper state. */
  lemma PassingNext(before: Remote, kc1: Snapshot, kc2: Snapshot, remote1: Remote, remote2: Remote, done: seq<Record>,
                    r: Record)
    requires Passing(before, kc1, remote1, done) && UniqueIds(remote2) && SameExcept(remote1, remote2, r.id)
    requires !r.deleted ==> !LiveIn(done, r.id)
    requires kc2 == kc1 || kc2 == kc1 - {r.id}
    requires r.id in kc2 ==> r.deleted && !kc1[r.id].fromKpi && remote2 == remote1
    requires r.id !in kc2 && r.deleted ==>
               if r.id in kc1 then kc1[r.id].fromKpi && Absent(remote2, r.id) else remote2 == remote1
    requires !r.deleted ==> Present(remote2, Wanted(r, EntryFor(before, r.id)))
    ensures Passing(before, kc2, remote2, done + [r])
  {
    forall id ensures LiveIn(done + [r], id) <==> LiveIn(done, id) || (!r.deleted && r.id == id)
              ensures TombstoneIn(done + [r], id) <==> TombstoneIn(done, id) || (r.deleted && r.id == id)
    {
      InMore(done, r, id);
    }
    forall s | s in done && !s.deleted && s.id != r.id ensures Present(remote2, Wanted(s, EntryFor(before, s.id))) {
      var pk :| pk in remote1 && remote1[pk] == Wanted(s, EntryFor(before, s.id));
      WantedId(s, EntryFor(before, s.id));
      assert pk in remote2 && remote2[pk] == remote1[pk];
    }
    forall s | s in done && !s.deleted && s.id == r.id ensures LiveIn(done, r.id) {
    }
  }

  lemma WantedId(r: Record, was: Option<Entry>)
    requires was.Some? ==> was.value.id == r.id
    ensures Wanted(r, was).id == r.id
  {}

  /** The local media records, and the keys of those flagged as synchronized. */
  class MediaFiles {
    var records: set<Record>
    var synced: set<int>

    constructor (records: set<Record>, synced: set<int>)
      ensures this.records == records && this.synced == synced
    {
      this.records, this.synced := records, synced;
    }
  }

  /** The record has to be written to the server, whatever the order of the records. */
  ghost predicate MustWrite(before: Remote, r: Record) {
    !r.deleted && (EntryFor(before, r.id).None? || EntryFor(before, r.id).value.md5 != r.md5)
  }

  /** __save_kc_metadata. */
  method SaveKcMetadata(kc: Kobocat, local: MediaFiles, r: Record)
    requires UniqueIds(kc.entries) && Absent(kc.entries, r.id)
    modifies kc, local`synced
    ensures UniqueIds(kc.entries) && SameExcept(old(kc.entries), kc.entries, r.id)
    ensures Present(kc.entries, Entry(r.id, r.md5, true)) && kc.writes == old(kc.writes) + [Post(r.id)]
    ensures local.synced == old(local.synced) + {r.key}
  {
    kc.Post(r);
    local.synced := local.synced + {r.key};
  }

  /** __delete_kc_metadata without a local record. */
  method DeleteKcMetadata(kc: Kobocat, f: KcFile)
    requires f.pk in kc.entries && UniqueIds(kc.entries)
    modifies kc
    ensures UniqueIds(kc.entries) && kc.entries == old(kc.entries) - {f.pk} &&
            kc.writes == old(kc.writes) + [Delete(f.pk)]
    ensures SameExcept(old(kc.entries), kc.entries, old(kc.entries)[f.pk].id) &&
            Absent(kc.entries, old(kc.entries)[f.pk].id)
  {
    kc.Delete(f.pk);
  }

  /** __update_kc_metadata_hash. */
  method UpdateKcMetadataHash(kc: Kobocat, local: MediaFiles, r: Record, pk: Pk)
    requires pk in kc.entries && UniqueIds(kc.entries)
    modifies kc, local`synced
    ensures UniqueIds(kc.entries) && SameExcept(old(kc.entries), kc.entries, old(kc.entries)[pk].id)
    ensures pk in kc.entries && kc.entries[pk] == old(kc.entries)[pk].(md5 := r.md5)
    ensures kc.writes == old(kc.writes) + [Patch(pk)]
    ensures local.synced == old(local.synced) + {r.key}
  {
    kc.Patch(pk, r.md5);
    local.synced := local.synced + {r.key};
  }

  // ---- The requests sent for one id ----

  /** The request is about this id, or about the entry that had it at first. */
  predicate Concerns(before: Remote, w: Write, id: MediaId) {
    match w
    case Post(i) => i == id
    case Delete(pk) => pk in before && before[pk].id == id
    case Patch(pk) => pk in before && before[pk].id == id
  }

  function LogFor(before: Remote, log: seq<Write>, id: MediaId): seq<Write> {
    if log == [] then []
    else
      var last := log[|log| - 1];
      LogFor(before, log[..|log| - 1], id) + if Concerns(before, last, id) then [last] else []
  }

  lemma {:induction false} LogForConcat(before: Remote, log1: seq<Write>, log2: seq<Write>, id: MediaId)
    ensures LogFor(before, log1 + log2, id) == LogFor(before, log1, id) + LogFor(before, log2, id)
    decreases log2
  {
    if log2 == [] {
      assert log1 + log2 == log1;
    } else {
      var init, last := log2[..|log2| - 1], log2[|log2| - 1];
      assert (log1 + log2)[..|log1 + log2| - 1] == log1 + init && (log1 + log2)[|log1 + log2| - 1] == last;
      LogForConcat(before, log1, init, id);
    }
  }

  lemma {:induction false} LogForNothing(before: Remote, log: seq<Write>, id: MediaId)
    requires forall i :: 0 <= i < |log| ==> !Concerns(before, log[i], id)
    ensures LogFor(before, log, id) == []
  {
    if log != [] {
      LogForNothing(before, log[..|log| - 1], id);
    }
  }

  lemma {:induction false} LogForAll(before: Remote, log: seq<Write>, id: MediaId)
    requires forall i :: 0 <= i < |log| ==> Concerns(before, log[i], id)
    ensures LogFor(before, log, id) == log
  {
    if log != [] {
      LogForAll(before, log[..|log| - 1], id);
    }
  }

  /** What one record makes the loop send. */
  function Sent(kcFiles: Snapshot, r: Record): seq<Write> {
    if r.id !in kcFiles then if r.deleted then [] else [Post(r.id)]
    else
      var f := kcFiles[r.id];
      if r.deleted then if f.fromKpi then [Delete(f.pk)] else []
      else if r.md5 == f.md5 then []
      else if r.paired then [Patch(f.pk)]
      else [Delete(f.pk), Post(r.id)]
  }

  /** Where the entry at pk, which had the id of a live record at first, stands in the end: untouched if its hash is
      right; patched, at its place and with its origin, if it is paired data; else replaced by an upload. */
  ghost predicate Handled(before: Remote, pk: Pk, r: Record, after: Remote, log: seq<Write>)
    requires pk in before
  {
    if before[pk].md5 == r.md5 then
      pk in after && after[pk] == before[pk] && LogFor(before, log, r.id) == []
    else if r.paired then
      && pk in after && after[pk] == Entry(r.id, r.md5, before[pk].fromKpi)
      && LogFor(before, log, r.id) == [Patch(pk)]
    else
      Present(after, Entry(r.id, r.md5, true)) && LogFor(before, log, r.id) == [Delete(pk), Post(r.id)]
  }

  /** No tombstone for the id, or an entry that was uploaded directly, which a tombstone leaves alone. */
  predicate LeftToLive(records: seq<Record>, e: Entry) {
    e.fromKpi ==> !TombstoneIn(records, e.id)
  }

  /** The log and the entries once the records in `done` are processed. */
  ghost predicate Logged(before: Remote, remote: Remote, done: seq<Record>, log: seq<Write>) {
    && (forall id :: !LiveIn(done, id) && (!TombstoneIn(done, id) || Absent(before, id)) ==>
                       LogFor(before, log, id) == [])
    && (forall pk :: pk in before && !LiveIn(done, before[pk].id) && LeftToLive(done, before[pk]) ==>
                       LogFor(before, log, before[pk].id) == [])
    && (forall pk, r :: pk in before && r in done && !r.deleted && r.id == before[pk].id
                        && LeftToLive(done, before[pk]) ==>
                          Handled(before, pk, r, remote, log))
    && (forall r :: r in done && !r.deleted && Absent(before, r.id) ==> Uploaded(before, r, remote, log))
  }

  /** The part of it about live records. */
  ghost predicate LiveLogged(before: Remote, remote: Remote, records: seq<Record>, log: seq<Write>) {
    && (forall pk, r :: pk in before && r in records && !r.deleted && r.id == before[pk].id
                        && LeftToLive(records, before[pk]) ==>
                          Handled(before, pk, r, remote, log))
    && (forall r :: r in records && !r.deleted && Absent(before, r.id) ==> Uploaded(before, r, remote, log))
  }

  /** A record whose id had no entry was uploaded, and nothing else was sent for it. */
  ghost predicate Uploaded(before: Remote, r: Record, after: Remote, log: seq<Write>) {
    Present(after, Entry(r.id, r.md5, true)) && LogFor(before, log, r.id) == [Post(r.id)]
  }

  /** What one record makes of the entries. */
  ghost predicate Done(kcFiles: Snapshot, r: Record, remote1: Remote, remote2: Remote) {
    && (forall pk :: pk in remote1 && remote1[pk].id != r.id ==> pk in remote2 && remote2[pk] == remote1[pk])
    && if r.id !in kcFiles then if r.deleted then remote2 == remote1 else Present(remote2, Entry(r.id, r.md5, true))
       else
         var f := kcFiles[r.id];
         r.deleted ||
         if f.md5 == r.md5 then remote2 == remote1
         else if r.paired then f.pk in remote2 && remote2[f.pk] == Entry(r.id, r.md5, f.fromKpi)
         else Present(remote2, Entry(r.id, r.md5, true))
  }

  lemma SentConcerns(before: Remote, kc: Snapshot, remote: Remote, done: seq<Record>, r: Record, id: MediaId)
    requires Passing(before, kc, remote, done)
    ensures LogFor(before, Sent(kc, r), id) == if id == r.id then Sent(kc, r) else []
  {
    if r.id in kc {
      assert Fresh(before, remote, r.id, kc[r.id]);
    }
    if id == r.id {
      LogForAll(before, Sent(kc, r), id);
    } else {
      LogForNothing(before, Sent(kc, r), id);
    }
  }

  lemma LoggedNext(before: Remote, kc: Snapshot, remote1: Remote, remote2: Remote, done: seq<Record>, r: Record,
                   log: seq<Write>)
    requires Passing(before, kc, remote1, done) && Logged(before, remote1, done, log)
    requires !r.deleted ==> !LiveIn(done, r.id)
    requires Done(kc, r, remote1, remote2)
    ensures Logged(before, remote2, done + [r], log + Sent(kc, r))
  {
    var done2, log2 := done + [r], log + Sent(kc, r);
    forall id ensures LiveIn(done2, id) <==> LiveIn(done, id) || (!r.deleted && r.id == id)
              ensures TombstoneIn(done2, id) <==> TombstoneIn(done, id) || (r.deleted && r.id == id)
              ensures LogFor(before, log2, id) ==
                      LogFor(before, log, id) + if id == r.id then Sent(kc, r) else []
    {
      InMore(done, r, id);
      LogForConcat(before, log, Sent(kc, r), id);
      SentConcerns(before, kc, remote1, done, r, id);
    }
    forall id | !LiveIn(done2, id) && Absent(before, id) ensures LogFor(before, log2, id) == [] {
      assert id == r.id ==> r.id !in kc;
    }
    forall pk | pk in before && !LiveIn(done2, before[pk].id) && LeftToLive(done2, before[pk])
      ensures LogFor(before, log2, before[pk].id) == []
    {
      NothingSentForTombstone(before, kc, remote1, done, r, pk);
    }
    forall pk, s | pk in before && s in done2 && !s.deleted && s.id == before[pk].id && LeftToLive(done2, before[pk])
      ensures Handled(before, pk, s, remote2, log2)
    {
      if s.id != r.id {
        assert s in done && Handled(before, pk, s, remote1, log);
        StillHandled(before, pk, s, remote1, remote2, log, log2, r);
      } else if s in done {
        assert LiveIn(done, r.id) && Handled(before, pk, s, remote1, log);
        assert r.deleted && Sent(kc, r) == [];
      } else {
        assert s == r && LogFor(before, log, r.id) == [];
        InSnapshot(before, kc, remote1, done, pk);
      }
    }
    forall s | s in done2 && !s.deleted && Absent(before, s.id) ensures Uploaded(before, s, remote2, log2) {
      UploadedNext(before, kc, remote1, remote2, done, r, log, s);
    }
  }

  lemma UploadedNext(before: Remote, kc: Snapshot, remote1: Remote, remote2: Remote, done: seq<Record>, r: Record,
                     log: seq<Write>, s: Record)
    requires Passing(before, kc, remote1, done) && Logged(before, remote1, done, log)
    requires !r.deleted ==> !LiveIn(done, r.id)
    requires Done(kc, r, remote1, remote2)
    requires s in done + [r] && !s.deleted && Absent(before, s.id)
    ensures Uploaded(before, s, remote2, log + Sent(kc, r))
  {
    LogForConcat(before, log, Sent(kc, r), s.id);
    SentConcerns(before, kc, remote1, done, r, s.id);
    assert s.id !in kc;
    if s in done {
      assert LiveIn(done, s.id) && Uploaded(before, s, remote1, log);
      var k :| k in remote1 && remote1[k] == Entry(s.id, s.md5, true);
      assert k in remote2 && remote2[k] == remote1[k];
    } else {
      NotYetLogged(before, remote1, done, log, s.id);
    }
  }

  lemma NotYetLogged(before: Remote, remote: Remote, done: seq<Record>, log: seq<Write>, id: MediaId)
    requires Logged(before, remote, done, log) && Absent(before, id) && !LiveIn(done, id)
    ensures LogFor(before, log, id) == []
  {}

  /** An entry left to live records is in the snapshot until one comes. */
  lemma InSnapshot(before: Remote, kc: Snapshot, remote: Remote, done: seq<Record>, pk: Pk)
    requires Passing(before, kc, remote, done) && pk in before && !LiveIn(done, before[pk].id)
    requires LeftToLive(done, before[pk])
    ensures before[pk].id in kc && kc[before[pk].id] == KcFile(pk, before[pk].md5, before[pk].fromKpi)
  {
    assert Fresh(before, remote, before[pk].id, kc[before[pk].id]);
  }

  lemma NothingSentForTombstone(before: Remote, kc: Snapshot, remote: Remote, done: seq<Record>, r: Record, pk: Pk)
    requires Passing(before, kc, remote, done) && pk in before
    requires !LiveIn(done + [r], before[pk].id) && LeftToLive(done + [r], before[pk])
    ensures LeftToLive(done, before[pk]) && !LiveIn(done, before[pk].id)
    ensures r.id == before[pk].id ==> Sent(kc, r) == []
  {
    InMore(done, r, before[pk].id);
    InSnapshot(before, kc, remote, done, pk);
  }

  lemma StillHandled(before: Remote, pk: Pk, s: Record, remote1: Remote, remote2: Remote, log: seq<Write>,
                     log2: seq<Write>, r: Record)
    requires pk in before && before[pk].id == s.id && Handled(before, pk, s, remote1, log) && s.id != r.id
    requires LogFor(before, log2, s.id) == LogFor(before, log, s.id)
    requires forall k :: k in remote1 && remote1[k].id != r.id ==> k in remote2 && remote2[k] == remote1[k]
    ensures Handled(before, pk, s, remote2, log2)
  {
    if before[pk].md5 != s.md5 && !s.paired {
      var k :| k in remote1 && remote1[k] == Entry(s.id, s.md5, true);
      assert k in remote2 && remote2[k] == remote1[k];
    }
  }

  /** The body of the loop over the local records. */
  method SyncOne(kc: Kobocat, local: MediaFiles, kcFiles: Snapshot, r: Record, ghost before: Remote,
                 ghost done: seq<Record>)
    returns (rest: Snapshot)
    requires Passing(before, kcFiles, kc.entries, done) && (!r.deleted ==> !LiveIn(done, r.id))
    modifies kc, local
    ensures Passing(before, rest, kc.entries, done + [r])
    ensures local.records == if r.deleted then old(local.records) - {r} else old(local.records)
    ensures old(local.synced) <= local.synced <= old(local.synced) + {r.key} &&
            (MustWrite(before, r) ==> r.key in local.synced)
    ensures !r.deleted && r.id in kcFiles && kcFiles[r.id].md5 == r.md5 ==>
              kc.writes == old(kc.writes) && kc.entries == old(kc.entries) && rest == kcFiles - {r.id}
    ensures kc.writes == old(kc.writes) + Sent(kcFiles, r)
    ensures Done(kcFiles, r, old(kc.entries), kc.entries)
  {
    ghost var remote := kc.entries;
    rest := kcFiles;
    if r.id !in kcFiles {
      // the file does not exist remotely
      if !r.deleted {
        NewFileIsWanted(before, kcFiles, remote, done, r);
        SaveKcMetadata(kc, local, r);
      } else {
        local.records := local.records - {r};
      }
      PassingNext(before, kcFiles, rest, remote, kc.entries, done, r);
      return;
    }
    var f := kcFiles[r.id];
    EntryForPresent(before, f.pk);
    assert Present(remote, Entry(r.id, f.md5, f.fromKpi));
    if !r.deleted {
      if r.md5 != f.md5 {
        if r.paired {
          UpdateKcMetadataHash(kc, local, r, f.pk);
        } else {
          DeleteKcMetadata(kc, f);
          SaveKcMetadata(kc, local, r);
        }
      }
    } else if f.fromKpi {
      DeleteKcMetadata(kc, f);
      local.records := local.records - {r};
    } else {
      local.records := local.records - {r};
      PassingNext(before, kcFiles, rest, remote, kc.entries, done, r);
      return;
    }
    rest := kcFiles - {r.id};
    PassingNext(before, kcFiles, rest, remote, kc.entries, done, r);
  }

  /** A live record that is not in the snapshot has no remote entry, and what is
      then posted is what it wants, even where a tombstone has deleted the entry before. */
  lemma NewFileIsWanted(before: Remote, kc: Snapshot, remote: Remote, done: seq<Record>, r: Record)
    requires Passing(before, kc, remote, done) && r.id !in kc && !r.deleted && !LiveIn(done, r.id)
    ensures Absent(remote, r.id)
    ensures Wanted(r, EntryFor(before, r.id)) == Entry(r.id, r.md5, true)
  {
    if pk :| pk in before && before[pk].id == r.id {
      EntryForPresent(before, pk);
    }
  }

  /** The state of the final sweep: the ids of `rest` are still to be looked at. */
  ghost predicate Sweeping(records: seq<Record>, before: Remote, kc: Snapshot, rest: set<MediaId>, remote: Remote) {
    && UniqueIds(before) && UniqueIds(remote) && rest <= kc.Keys
    && (forall id :: id in rest ==> Fresh(before, remote, id, kc[id]) && !LiveIn(records, id))
    && (forall r :: r in records && !r.deleted ==> Present(remote, Wanted(r, EntryFor(before, r.id))))
    && (forall pk :: pk in before && !before[pk].fromKpi && !LiveIn(records, before[pk].id) ==>
                       Present(remote, before[pk]))
    && (forall pk :: pk in remote && !LiveIn(records, remote[pk].id) ==>
                       Present(before, remote[pk]) && (remote[pk].id in rest || !remote[pk].fromKpi))
  }

  lemma PassedIsSweeping(records: seq<Record>, before: Remote, kc: Snapshot, remote: Remote)
    requires Passing(before, kc, remote, records)
    ensures Sweeping(records, before, kc, kc.Keys, remote)
  {
    forall pk | pk in remote && !LiveIn(records, remote[pk].id) ensures Present(before, remote[pk]) {
      assert Fresh(before, remote, remote[pk].id, kc[remote[pk].id]);
    }
    forall pk | pk in before && !before[pk].fromKpi && !LiveIn(records, before[pk].id)
      ensures Present(remote, before[pk])
    {
      EntryForPresent(before, pk);
      assert before[pk].id in kc && Fresh(before, remote, before[pk].id, kc[before[pk].id]);
    }
  }

  lemma SweepingNext(records: seq<Record>, before: Remote, kc: Snapshot, rest: set<MediaId>, r1: Remote, r2: Remote,
                     id: MediaId)
    requires Sweeping(records, before, kc, rest, r1) && id in rest
    requires r2 == if kc[id].fromKpi then r1 - {kc[id].pk} else r1
    ensures Sweeping(records, before, kc, rest - {id}, r2)
  {
    forall r | r in records && !r.deleted ensures Present(r2, Wanted(r, EntryFor(before, r.id))) {
      var pk :| pk in r1 && r1[pk] == Wanted(r, EntryFor(before, r.id));
      WantedId(r, EntryFor(before, r.id));
      assert LiveIn(records, r.id);
      assert pk in r2 && r2[pk] == r1[pk];
    }
    forall pk | pk in before && !before[pk].fromKpi && !LiveIn(records, before[pk].id) ensures Present(r2, before[pk]) {
      var k :| k in r1 && r1[k] == before[pk];
      assert k in r2 && r2[k] == before[pk];
    }
  }

  /** The sweep concerns no live record. */
  lemma LiveLoggedNext(records: seq<Record>, before: Remote, kc: Snapshot, rest: set<MediaId>, remote: Remote,
                       id: MediaId, log: seq<Write>)
    requires Sweeping(records, before, kc, rest, remote) && id in rest && LiveLogged(before, remote, records, log)
    ensures LiveLogged(before, remote - {kc[id].pk}, records, log + [Delete(kc[id].pk)])
  {
    var remote2, log2 := remote - {kc[id].pk}, log + [Delete(kc[id].pk)];
    assert Fresh(before, remote, id, kc[id]);
    forall r | r in records && !r.deleted
      ensures r.id != id && LogFor(before, log2, r.id) == LogFor(before, log, r.id)
    {
      assert LiveIn(records, r.id);
      assert log2[..|log|] == log;
    }
    forall pk, r | pk in before && r in records && !r.deleted && r.id == before[pk].id
                   && LeftToLive(records, before[pk])
      ensures Handled(before, pk, r, remote2, log2)
    {
      assert Handled(before, pk, r, remote, log);
      if before[pk].md5 != r.md5 && !r.paired {
        StillPresent(remote, kc[id].pk, Entry(r.id, r.md5, true));
      }
    }
    forall r | r in records && !r.deleted && Absent(before, r.id) ensures Uploaded(before, r, remote2, log2) {
      assert Uploaded(before, r, remote, log);
      StillPresent(remote, kc[id].pk, Entry(r.id, r.md5, true));
    }
  }

  lemma StillPresent(remote: Remote, pk: Pk, e: Entry)
    requires Present(remote, e) && pk in remote && remote[pk].id != e.id
    ensures Present(remote - {pk}, e)
  {
    var k :| k in remote && remote[k] == e;
    assert k in remote - {pk};
  }

  /** The requests of the sweep for one id. */
  function SweptBy(kc: Snapshot, id: MediaId): seq<Write>
    requires id in kc
  {
    if kc[id].fromKpi then [Delete(kc[id].pk)] else []
  }

  lemma SweepNext(records: seq<Record>, before: Remote, kc: Snapshot, rest: set<MediaId>, r1: Remote, r2: Remote,
                  id: MediaId, log: seq<Write>)
    requires Sweeping(records, before, kc, rest, r1) && LiveLogged(before, r1, records, log) && id in rest
    requires r2 == if kc[id].fromKpi then r1 - {kc[id].pk} else r1
    requires InSync(records, before) ==> r1 == before
    ensures Sweeping(records, before, kc, rest - {id}, r2)
    ensures LiveLogged(before, r2, records, log + SweptBy(kc, id))
    ensures InSync(records, before) ==> !kc[id].fromKpi && r2 == before
  {
    SweepingNext(records, before, kc, rest, r1, r2, id);
    assert Fresh(before, r1, id, kc[id]);
    if kc[id].fromKpi {
      LiveLoggedNext(records, before, kc, rest, r1, id, log);
    } else {
      assert log + SweptBy(kc, id) == log;
    }
  }

  /** The last loop: what is left in the snapshot is deleted, unless it was uploaded directly. */
  method DeleteOrphans(kc: Kobocat, kcFiles: Snapshot, ghost records: seq<Record>, ghost before: Remote,
                       ghost log0: seq<Write>)
    returns (ghost log: seq<Write>)
    requires Sweeping(records, before, kcFiles, kcFiles.Keys, kc.entries)
    requires LiveLogged(before, kc.entries, records, log0) && (InSync(records, before) ==> kc.entries == before)
    modifies kc
    ensures Sweeping(records, before, kcFiles, {}, kc.entries)
    ensures log0 <= log && kc.writes == old(kc.writes) + log[|log0|..] && LiveLogged(before, kc.entries, records, log)
    ensures InSync(records, before) ==> log == log0 && kc.entries == before
  {
    log := log0;
    var rest := kcFiles.Keys;
    while rest != {}
      invariant Sweeping(records, before, kcFiles, rest, kc.entries)
      invariant log0 <= log && kc.writes == old(kc.writes) + log[|log0|..]
      invariant LiveLogged(before, kc.entries, records, log)
      invariant InSync(records, before) ==> log == log0 && kc.entries == before
    {
      var id :| id in rest;
      ghost var remote := kc.entries;
      if kcFiles[id].fromKpi {
        DeleteKcMetadata(kc, kcFiles[id]);
      }
      SweepNext(records, before, kcFiles, rest, remote, kc.entries, id, log);
      log := log + SweptBy(kcFiles, id);
      rest := rest - {id};
    }
  }

  /** The local records once the tombstones among `done` have gone. */
  function Remaining(records: set<Record>, done: seq<Record>): set<Record> {
    set r | r in records && !(r.deleted && r in done)
  }

  lemma RemainingNext(records: set<Record>, done: seq<Record>, r: Record)
    ensures Remaining(records, done + [r]) == Remaining(records, done) - (if r.deleted then {r} else {})
  {}

  /** Every record among `done` that had to be written is flagged. */
  ghost predicate Flagged(before: Remote, done: seq<Record>, synced: set<int>) {
    forall r :: r in done && MustWrite(before, r) ==> r.key in synced
  }

  lemma NoLiveBefore(records: seq<Record>, i: nat)
    requires UniqueLive(records) && i < |records|
    ensures !records[i].deleted ==> !LiveIn(records[..i], records[i].id)
  {}

  lemma PrefixNext(s: seq<Record>, i: nat)
    requires i < |s|
    ensures s[..i + 1] == s[..i] + [s[i]]
  {}

  lemma AppendIsAssociative(a: seq<Write>, b: seq<Write>, c: seq<Write>)
    ensures (a + b) + c == a + (b + c)
  {}

  /** Where the loop over the records stands once those in `done` are processed. */
  ghost predicate Syncing(records: seq<Record>, before: Remote, kcFiles: Snapshot, remote: Remote, done: seq<Record>,
                          log: seq<Write>) {
    && Passing(before, kcFiles, remote, done)
    && Logged(before, remote, done, log)
    && (InSync(records, before) ==> log == [] && remote == before)
  }

  lemma SyncingNext(records: seq<Record>, before: Remote, kc1: Snapshot, kc2: Snapshot, remote1: Remote,
                    remote2: Remote, i: nat, log: seq<Write>)
    requires i < |records| && UniqueLive(records) && Syncing(records, before, kc1, remote1, records[..i], log)
    requires Passing(before, kc2, remote2, records[..i] + [records[i]]) && Done(kc1, records[i], remote1, remote2)
    ensures Syncing(records, before, kc2, remote2, records[..i + 1], log + Sent(kc1, records[i]))
  {
    var r := records[i];
    assert records[..i + 1] == records[..i] + [r];
    NoLiveBefore(records, i);
    LoggedNext(before, kc1, remote1, remote2, records[..i], r, log);
    if InSync(records, before) {
      InSyncIsInSnapshot(records, before, kc1, remote1, records[..i], r);
    }
  }

  /** One round of the loop over the local records. */
  method SyncNext(kc: Kobocat, local: MediaFiles, kcFiles: Snapshot, queryset: seq<Record>, i: nat,
                  ghost before: Remote, ghost log: seq<Write>)
    returns (rest: Snapshot, ghost sent: seq<Write>)
    requires i < |queryset| && UniqueLive(queryset)
    requires Syncing(queryset, before, kcFiles, kc.entries, queryset[..i], log)
    modifies kc, local
    ensures Syncing(queryset, before, rest, kc.entries, queryset[..i + 1], log + sent)
    ensures kc.writes == old(kc.writes) + sent
    ensures local.records == old(local.records) - (if queryset[i].deleted then {queryset[i]} else {})
    ensures old(local.synced) <= local.synced
    ensures MustWrite(before, queryset[i]) ==> queryset[i].key in local.synced
  {
    PrefixNext(queryset, i);
    NoLiveBefore(queryset, i);
    rest := SyncOne(kc, local, kcFiles, queryset[i], before, queryset[..i]);
    sent := Sent(kcFiles, queryset[i]);
    SyncingNext(queryset, before, kcFiles, rest, old(kc.entries), kc.entries, i, log);
  }

  /** The loop over the local records. */
  method SyncRecords(kc: Kobocat, local: MediaFiles, queryset: seq<Record>, snapshot: Snapshot)
    returns (kcFiles: Snapshot, ghost log: seq<Write>)
    requires UniqueLive(queryset) && Passing(kc.entries, snapshot, kc.entries, [])
    requires forall r :: r in queryset <==> r in local.records
    modifies kc, local
    ensures Syncing(queryset, old(kc.entries), kcFiles, kc.entries, queryset, log)
    ensures local.records == set r | r in queryset && !r.deleted
    ensures old(local.synced) <= local.synced && Flagged(old(kc.entries), queryset, local.synced)
    ensures kc.writes == old(kc.writes) + log
  {
    kcFiles, log := snapshot, [];
    ghost var before := kc.entries;
    for i := 0 to |queryset|
      invariant Syncing(queryset, before, kcFiles, kc.entries, queryset[..i], log)
      invariant local.records == Remaining(old(local.records), queryset[..i])
      invariant old(local.synced) <= local.synced && Flagged(before, queryset[..i], local.synced)
      invariant kc.writes == old(kc.writes) + log
    {
      PrefixNext(queryset, i);
      RemainingNext(old(local.records), queryset[..i], queryset[i]);
      ghost var sent;
      kcFiles, sent := SyncNext(kc, local, kcFiles, queryset, i, before, log);
      AppendIsAssociative(old(kc.writes), log, sent);
      log := log + sent;
    }
    assert queryset[..|queryset|] == queryset;
  }

  /** sync_media_files. Requests never fail: nothing is posted under an id that is still there,
      nothing is deleted or patched that is gone. */
  method SyncMediaFiles(kc: Kobocat, local: MediaFiles, queryset: seq<Record>)
    requires UniqueIds(kc.entries) && UniqueLive(queryset)
    requires forall r :: r in queryset <==> r in local.records
    modifies kc, local
    ensures Synchronized(queryset, old(kc.entries), kc.entries)
    ensures local.records == set r | r in queryset && !r.deleted
    ensures old(local.synced) <= local.synced
    ensures forall r :: r in queryset && MustWrite(old(kc.entries), r) ==> r.key in local.synced
    ensures InSync(queryset, old(kc.entries)) ==> kc.writes == old(kc.writes) && kc.entries == old(kc.entries)
    ensures old(kc.writes) <= kc.writes
    ensures forall pk, r :: pk in old(kc.entries) && r in queryset && !r.deleted && r.id == old(kc.entries)[pk].id
                            && LeftToLive(queryset, old(kc.entries)[pk]) ==>
                              Handled(old(kc.entries), pk, r, kc.entries, kc.writes[|old(kc.writes)|..])
    ensures forall r :: r in queryset && !r.deleted && Absent(old(kc.entries), r.id) ==>
                          Uploaded(old(kc.entries), r, kc.entries, kc.writes[|old(kc.writes)|..])
  {
    ghost var before := kc.entries;
    var snapshot := Metadata(kc.entries);
    var kcFiles, log1 := SyncRecords(kc, local, queryset, snapshot);
    PassedIsSweeping(queryset, before, kcFiles, kc.entries);
    ghost var log := DeleteOrphans(kc, kcFiles, queryset, before, log1);
    assert log == log1 + log[|log1|..];
    assert kc.writes == old(kc.writes) + log && kc.writes[|old(kc.writes)|..] == log;
  }

  /** The dictionary of remote files, by their ids. */
  method Metadata(remote: Remote) returns (kcFiles: Snapshot)
    requires UniqueIds(remote)
    ensures Passing(remote, kcFiles, remote, [])
  {
    kcFiles := map[];
    var rest := remote.Keys;
    while rest != {}
      invariant rest <= remote.Keys
      invariant forall id :: id in kcFiles ==> Fresh(remote, remote, id, kcFiles[id])
      invariant forall pk :: pk in remote && pk !in rest ==> remote[pk].id in kcFiles
    {
      assert (forall k :: k !in rest) ==> rest == {};
      var pk :| pk in rest;
      rest := rest - {pk};
      kcFiles := kcFiles[remote[pk].id := KcFile(pk, remote[pk].md5, remote[pk].fromKpi)];
    }
  }

  lemma InSyncIsInSnapshot(records: seq<Record>, before: Remote, kc: Snapshot, remote: Remote, done: seq<Record>,
                           r: Record)
    requires InSync(records, before) && Passing(before, kc, remote, done) && r in records && !LiveIn(done, r.id)
    requires forall s :: s in done ==> s in records
    ensures !r.deleted && r.id in kc && kc[r.id].md5 == r.md5
  {
    var pk :| pk in before && before[pk].id == r.id;
    EntryForPresent(before, pk);
    assert !TombstoneIn(done, r.id);
    assert Fresh(before, remote, r.id, kc[r.id]);
    EntryForPresent(before, kc[r.id].pk);
  }

  /** After a synchronization nothing is left to do: run again, it would send no write at all. */
  lemma SynchronizedIsInSync(records: seq<Record>, live: seq<Record>, before: Remote, after: Remote)
    requires UniqueIds(before) && Synchronized(records, before, after)
    requires forall r :: r in live <==> r in records && !r.deleted
    ensures InSync(live, after)
  {
    forall r | r in live ensures EntryFor(after, r.id).Some? && EntryFor(after, r.id).value.md5 == r.md5 {
      var pk :| pk in after && after[pk] == Wanted(r, EntryFor(before, r.id));
      WantedId(r, EntryFor(before, r.id));
      EntryForPresent(after, pk);
    }
    forall pk | pk in after && after[pk].fromKpi ensures LiveIn(live, after[pk].id) {
      var r :| r in records && !r.deleted && r.id == after[pk].id;
      assert r in live;
    }
  }

  /** The final remote entries do not depend on the order of the local records. */
  lemma OrderDoesNotMatter(records1: seq<Record>, records2: seq<Record>, before: Remote, after1: Remote, after2: Remote,
                           e: Entry)
    requires forall r :: r in records1 <==> r in records2
    requires UniqueIds(before) && Synchronized(records1, before, after1) && Synchronized(records2, before, after2)
    ensures Present(after1, e) ==> Present(after2, e)
  {
    forall id ensures LiveIn(records1, id) <==> LiveIn(records2, id) {
      if LiveIn(records1, id) {
        var r :| r in records1 && !r.deleted && r.id == id;
        assert r in records2;
      }
      if LiveIn(records2, id) {
        var r :| r in records2 && !r.deleted && r.id == id;
        assert r in records1;
      }
    }
    if pk :| pk in after1 && after1[pk] == e {
      if LiveIn(records1, e.id) {
        var r :| r in records1 && !r.deleted && r.id == e.id;
        var k :| k in after1 && after1[k] == Wanted(r, EntryFor(before, r.id));
        WantedId(r, EntryFor(before, r.id));
        assert k == pk;
      } else {
        var k :| k in before && before[k] == e;
        assert Present(after2, before[k]);
      }
    }
  }
}
