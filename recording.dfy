// `bbblb recording delete` and `bbblb recording remove-orphans`.

module RecordingCli {
  import opened Base
  import opened Model

  /** Whether the storage directory of a tenant's recording format exists
      (`importer.get_storage_dir(tenant, record_id, format).exists()`). */
  type StorageLookup = (string, string, string) -> bool

  /** Every record the loop visits has a tenant; `record.tenant.name` on a
      record whose tenant was deleted raises and rolls the session back. */
  predicate AllOwned(recs: seq<Recording>) {
    forall i :: 0 <= i < |recs| ==> recs[i].tenant.Some?
  }

  /** The formats of a record whose storage directory exists, in order. */
  function KeptFormats(tenant: string, id: string, formats: seq<string>, present: StorageLookup): (r: seq<string>)
    ensures forall f :: f in r <==> f in formats && present(tenant, id, f)
    ensures |r| <= |formats|
  {
    if formats == [] then []
    else
      var kept := KeptFormats(tenant, id, formats[..|formats| - 1], present);
      var f := formats[|formats| - 1];
      assert formats == formats[..|formats| - 1] + [f];
      if present(tenant, id, f) then kept + [f] else kept
  }

  /** The record with only its existing formats. */
  function Trimmed(rec: Recording, present: StorageLookup): Recording
    requires rec.tenant.Some?
  {
    rec.(formats := KeptFormats(rec.tenant.value, rec.recordId, rec.formats, present))
  }

  /** The recordings `remove-orphans` leaves: a record is dropped iff none of
      its formats exists (a record without formats included), and a kept
      record keeps exactly its existing formats. */
  function Cleaned(recs: seq<Recording>, present: StorageLookup): (r: seq<Recording>)
    requires AllOwned(recs)
    ensures |r| <= |recs|
    ensures forall x :: x in r <==> exists i :: 0 <= i < |recs| && Trimmed(recs[i], present).formats != [] && x == Trimmed(recs[i], present)
  {
    if recs == [] then []
    else
      var init := recs[..|recs| - 1];
      var last := recs[|recs| - 1];
      assert AllOwned(init) by {
        forall i | 0 <= i < |init| ensures init[i].tenant.Some? {
          assert init[i] == recs[i];
        }
      }
      var rest := Cleaned(init, present);
      var t := Trimmed(last, present);
      forall x ensures x in rest <==> exists i :: 0 <= i < |init| && Trimmed(recs[i], present).formats != [] && x == Trimmed(recs[i], present) {
        if x in rest {
          var i :| 0 <= i < |init| && Trimmed(init[i], present).formats != [] && x == Trimmed(init[i], present);
          assert init[i] == recs[i];
        }
        if exists i :: 0 <= i < |init| && Trimmed(recs[i], present).formats != [] && x == Trimmed(recs[i], present) {
          var i :| 0 <= i < |init| && Trimmed(recs[i], present).formats != [] && x == Trimmed(recs[i], present);
          assert init[i] == recs[i];
        }
      }
      if t.formats != [] then rest + [t] else rest
  }

  /** `recording remove-orphans`: false when a visited record has no tenant
      (the session is rolled back); otherwise the cleaned list is committed,
      unless this is a dry run. */
  method RemoveOrphans(store: Store, present: StorageLookup, dryRun: bool) returns (ok: bool)
    modifies store`recordings
    ensures ok <==> AllOwned(old(store.recordings))
    ensures store.recordings == if ok && !dryRun then Cleaned(old(store.recordings), present) else old(store.recordings)
  {
    var recs := store.recordings;
    var out: seq<Recording> := [];
    var i := 0;
    while i < |recs|
      invariant 0 <= i <= |recs|
      invariant AllOwned(recs[..i])
      invariant out == Cleaned(recs[..i], present)
    {
      var rec := recs[i];
      if rec.tenant.None? {
        assert !AllOwned(recs) by {
          assert recs[i].tenant.None?;
        }
        return false;
      }
      var tenant := rec.tenant.value;
      var populated := false;
      var kept: seq<string> := [];
      var j := 0;
      while j < |rec.formats|
        invariant 0 <= j <= |rec.formats|
        invariant kept == KeptFormats(tenant, rec.recordId, rec.formats[..j], present)
        invariant populated <==> kept != []
      {
        assert rec.formats[..j + 1][..j] == rec.formats[..j];
        if present(tenant, rec.recordId, rec.formats[j]) {
          populated := true;
          kept := kept + [rec.formats[j]];
        }
        j := j + 1;
      }
      assert rec.formats[..j] == rec.formats;
      assert recs[..i + 1][..i] == recs[..i];
      ghost var visited := recs[..i + 1];
      assert AllOwned(visited) by {
        forall k | 0 <= k < |visited| ensures visited[k].tenant.Some? {
          if k < i {
            assert visited[k] == recs[..i][k];
          }
        }
      }
      if populated {
        out := out + [rec.(formats := kept)];
      }
      i := i + 1;
    }
    assert recs[..i] == recs;
    if !dryRun {
      store.recordings := out;
    }
    return true;
  }

  /** When every format's directory exists, the record keeps all its formats. */
  lemma KeptFormatsAll(tenant: string, id: string, formats: seq<string>, present: StorageLookup)
    requires forall f :: f in formats ==> present(tenant, id, f)
    ensures KeptFormats(tenant, id, formats, present) == formats
  {
    if formats != [] {
      var init := formats[..|formats| - 1];
      assert forall f :: f in init ==> f in formats;
      KeptFormatsAll(tenant, id, init, present);
      assert formats == init + [formats[|formats| - 1]];
    }
  }

  /** A second `remove-orphans` run on the same storage changes nothing. */
  lemma {:induction false} CleanedIdempotent(recs: seq<Recording>, present: StorageLookup)
    requires AllOwned(recs)
    ensures AllOwned(Cleaned(recs, present))
    ensures Cleaned(Cleaned(recs, present), present) == Cleaned(recs, present)
  {
    if recs != [] {
      var init := recs[..|recs| - 1];
      var last := recs[|recs| - 1];
      assert AllOwned(init) by {
        forall i | 0 <= i < |init| ensures init[i].tenant.Some? {
          assert init[i] == recs[i];
        }
      }
      CleanedIdempotent(init, present);
      var rest := Cleaned(init, present);
      var t := Trimmed(last, present);
      if t.formats != [] {
        KeptFormatsAll(t.tenant.value, t.recordId, t.formats, present);
        var c := rest + [t];
        assert c[..|c| - 1] == rest;
        assert Trimmed(t, present) == t;
        assert AllOwned(c) by {
          forall i | 0 <= i < |c| ensures c[i].tenant.Some? {
            if i < |rest| {
              assert c[i] == rest[i];
            }
          }
        }
      }
    }
  }

  /** The records `recording delete` removes. */
  function Remaining(recs: seq<Recording>, ids: set<string>): (r: seq<Recording>)
    ensures forall x :: x in r <==> x in recs && x.recordId !in ids
  {
    if recs == [] then []
    else
      var init := recs[..|recs| - 1];
      var last := recs[|recs| - 1];
      assert recs == init + [last];
      if last.recordId in ids then Remaining(init, ids) else Remaining(init, ids) + [last]
  }

  /** The storage deletions `recording delete` asks the importer for, as
      (tenant, record id) pairs in the order the records are visited. */
  function StorageDeletes(recs: seq<Recording>, ids: set<string>): (r: seq<(string, string)>)
    requires forall i :: 0 <= i < |recs| && recs[i].recordId in ids ==> recs[i].tenant.Some?
    ensures forall t, id :: (t, id) in r <==> exists i :: 0 <= i < |recs| && recs[i].recordId == id && id in ids && recs[i].tenant == Some(t)
  {
    if recs == [] then []
    else
      var init := recs[..|recs| - 1];
      var last := recs[|recs| - 1];
      assert forall i :: 0 <= i < |init| ==> init[i] == recs[i];
      var rest := StorageDeletes(init, ids);
      if last.recordId in ids then rest + [(last.tenant.value, last.recordId)] else rest
  }

  /** Every selected record has a tenant. */
  predicate SelectionOwned(recs: seq<Recording>, ids: set<string>) {
    forall i :: 0 <= i < |recs| && recs[i].recordId in ids ==> recs[i].tenant.Some?
  }

  /** `recording delete RECORD_ID...`: the records with one of the given ids
      are deleted from the database and from storage, unknown ids are
      ignored. A selected record without tenant raises when its tenant name
      is read: the database is rolled back, but the storage deletions issued
      for the records before it have already happened. */
  method Delete(store: Store, ids: set<string>) returns (ok: bool, deletes: seq<(string, string)>)
    modifies store`recordings
    ensures ok <==> SelectionOwned(old(store.recordings), ids)
    ensures ok ==> store.recordings == Remaining(old(store.recordings), ids)
    ensures ok ==> deletes == StorageDeletes(old(store.recordings), ids)
    ensures !ok ==> store.recordings == old(store.recordings)
    ensures !ok ==> exists j :: (0 <= j < |old(store.recordings)| && old(store.recordings)[j].recordId in ids
                                && old(store.recordings)[j].tenant.None? && SelectionOwned(old(store.recordings)[..j], ids)
                                && deletes == StorageDeletes(old(store.recordings)[..j], ids))
  {
    var recs := store.recordings;
    var keep: seq<Recording> := [];
    deletes := [];
    var i := 0;
    while i < |recs|
      invariant 0 <= i <= |recs|
      invariant SelectionOwned(recs[..i], ids)
      invariant keep == Remaining(recs[..i], ids)
      invariant deletes == StorageDeletes(recs[..i], ids)
    {
      var rec := recs[i];
      assert recs[..i + 1][..i] == recs[..i];
      if rec.recordId in ids {
        if rec.tenant.None? {
          assert !SelectionOwned(recs, ids) by {
            assert recs[i].recordId in ids && recs[i].tenant.None?;
          }
          return false, deletes;
        }
        deletes := deletes + [(rec.tenant.value, rec.recordId)];
      } else {
        keep := keep + [rec];
      }
      ghost var visited := recs[..i + 1];
      assert SelectionOwned(visited, ids) by {
        forall k | 0 <= k < |visited| && visited[k].recordId in ids ensures visited[k].tenant.Some? {
          if k < i {
            assert visited[k] == recs[..i][k];
          }
        }
      }
      i := i + 1;
    }
    assert recs[..i] == recs;
    store.recordings := keep;
    return true, deletes;
  }
}
