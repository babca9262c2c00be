/**
 * The in-memory mirror of the mission list that screens read: a cache
 * cell, a loading flag, and operations that run one store operation and
 * then replace the cache with its result.
 */
module Missions {
  import opened Wrappers
  import opened MissionStore

  /** The first mission in the list with that id, if any. */
  function Find(ms: seq<Mission>, id: string): (r: Option<Mission>)
    ensures r.Some? ==> r.value in ms && r.value.id == id
    ensures r.None? <==> forall m :: m in ms ==> m.id != id
  {
    if ms == [] then None
    else if ms[0].id == id then Some(ms[0])
    else Find(ms[1..], id)
  }

  /** Of several missions sharing an id, `Find` picks the first. */
  lemma {:induction false} FindIsFirst(ms: seq<Mission>, id: string, k: nat)
    requires k < |ms| && ms[k].id == id
    requires forall j :: 0 <= j < k ==> ms[j].id != id
    ensures Find(ms, id) == Some(ms[k])
  {
    if k > 0 {
      FindIsFirst(ms[1..], id, k - 1);
    }
  }

  /** The record `addMission` builds: not completed, no photo, id and time from the clock. */
  function NewMission(id: string, name: string, caption: string, latitude: real,
                      longitude: real, createdAt: int): (r: Mission)
    ensures r.id == id && r.name == name && r.caption == Some(caption)
    ensures r.latitude == latitude && r.longitude == longitude && r.createdAt == createdAt
    ensures !r.isCompleted && r.photoUri.None? && r.assetId.None?
    ensures PhotoConsistent(r)
  {
    Mission(id, name, Some(caption), latitude, longitude, false, None, None, createdAt)
  }

  /** The record `completeMission` writes: the cached record with the photo attached. */
  function Completed(m: Mission, photoUri: string, assetId: Option<string>): (r: Mission)
    ensures r.isCompleted && r.photoUri == Some(photoUri) && r.assetId == assetId
    ensures r.id == m.id && r.name == m.name && r.caption == m.caption
    ensures r.latitude == m.latitude && r.longitude == m.longitude && r.createdAt == m.createdAt
    ensures PhotoConsistent(r)
  {
    m.(isCompleted := true, photoUri := Some(photoUri), assetId := assetId)
  }

  /**
   * The list completion stores is a fresh load rewritten with a record
   * built from the cache: where the fresh load holds that id, its own
   * fields are discarded for the cached ones; where it does not (the
   * cache is stale), the fresh load comes back unchanged.
   */
  lemma {:induction false} CompletionAppliesToFreshLoad(cached: seq<Mission>, reloaded: seq<Mission>, id: string,
                                     photoUri: string, assetId: Option<string>)
    requires Find(cached, id).Some?
    ensures var r := Replaced(reloaded, Completed(Find(cached, id).value, photoUri, assetId));
            |r| == |reloaded| &&
            (forall i :: 0 <= i < |reloaded| && reloaded[i].id == id ==>
               r[i] == Completed(Find(cached, id).value, photoUri, assetId)) &&
            (forall i :: 0 <= i < |reloaded| && reloaded[i].id != id ==> r[i] == reloaded[i])
  {
    ReplacedEveryMatch(reloaded, Completed(Find(cached, id).value, photoUri, assetId));
  }

  /** A stale cache that still lists the id cannot bring it back into storage. */
  lemma {:induction false} CompletionOfVanishedMission(cached: seq<Mission>, reloaded: seq<Mission>, id: string,
                                    photoUri: string, assetId: Option<string>)
    requires Find(cached, id).Some?
    requires forall i :: 0 <= i < |reloaded| ==> reloaded[i].id != id
    ensures Replaced(reloaded, Completed(Find(cached, id).value, photoUri, assetId)) == reloaded
  {
    ReplacedNoMatch(reloaded, Completed(Find(cached, id).value, photoUri, assetId));
  }

  class MissionCache {
    var missions: seq<Mission>
    var isLoading: bool
    const store: Storage

    /** The state before the mount effect runs: an empty list, still loading. */
    constructor (store: Storage)
      ensures this.store == store
      ensures missions == [] && isLoading
    {
      this.store := store;
      missions := [];
      isLoading := true;
    }

    /** Both the cache and the storage cell satisfy the photo/completion invariant. */
    predicate Consistent()
      reads this, store
    {
      AllConsistent(missions) && CellConsistent(store.stored)
    }

    /** `refreshMissions`: mirror whatever loading gives, then stop loading. */
    method Refresh(readOk: bool)
      modifies this
      ensures missions == Loaded(store.stored, readOk) && !isLoading
      ensures CellConsistent(store.stored) ==> Consistent()
    {
      isLoading := true;
      var data := store.Load(readOk);
      missions := data;
      isLoading := false;
      if CellConsistent(store.stored) {
        LoadedConsistent(store.stored, readOk);
      }
    }

    /** `addMission`: append a reloaded record and mirror the store's result. */
    method AddMission(name: string, caption: string, latitude: real, longitude: real,
                      id: string, createdAt: int, readOk: bool, writeOk: bool)
      modifies this, store
      ensures missions == Loaded(old(store.stored), readOk)
                          + [NewMission(id, name, caption, latitude, longitude, createdAt)]
      ensures store.stored == Written(old(store.stored), missions, writeOk)
      ensures isLoading == old(isLoading)
      ensures old(Consistent()) ==> Consistent()
    {
      ghost var before := store.stored;
      var m := NewMission(id, name, caption, latitude, longitude, createdAt);
      var updated := store.Add(m, readOk, writeOk);
      missions := updated;
      if CellConsistent(before) {
        LoadedConsistent(before, readOk);
      }
    }

    /**
     * `completeMission`: look the id up in the cache; when found, store the
     * cached record marked completed with the photo, applied to a fresh load,
     * and mirror the result. When not found, nothing changes.
     */
    method CompleteMission(id: string, photoUri: string, assetId: Option<string>,
                           readOk: bool, writeOk: bool)
      modifies this, store
      ensures Find(old(missions), id).None? ==>
                missions == old(missions) && store.stored == old(store.stored)
      ensures Find(old(missions), id).Some? ==>
                missions == Replaced(Loaded(old(store.stored), readOk),
                                     Completed(Find(old(missions), id).value, photoUri, assetId)) &&
                store.stored == Written(old(store.stored), missions, writeOk)
      ensures isLoading == old(isLoading)
      ensures old(Consistent()) ==> Consistent()
    {
      ghost var before := store.stored;
      var found := Find(missions, id);
      if found.Some? {
        var updatedMission := Completed(found.value, photoUri, assetId);
        var updatedList := store.Update(updatedMission, readOk, writeOk);
        missions := updatedList;
        if CellConsistent(before) {
          LoadedConsistent(before, readOk);
          ReplacedConsistent(Loaded(before, readOk), updatedMission);
        }
      }
    }

    /** `deleteMission`: always mirror the store's result, which lacks that id. */
    method DeleteMission(id: string, readOk: bool, writeOk: bool)
      modifies this, store
      ensures missions == Removed(Loaded(old(store.stored), readOk), id)
      ensures forall m :: m in missions ==> m.id != id
      ensures store.stored == Written(old(store.stored), missions, writeOk)
      ensures isLoading == old(isLoading)
      ensures old(Consistent()) ==> Consistent()
    {
      ghost var before := store.stored;
      var updatedList := store.Delete(id, readOk, writeOk);
      missions := updatedList;
      if CellConsistent(before) {
        LoadedConsistent(before, readOk);
        RemovedConsistent(Loaded(before, readOk), id);
      }
    }
  }

  /**
   * From an empty store, adding a mission and completing it leaves one
   * completed mission carrying the photo, both in the cache and in storage.
   */
  method AddThenComplete(id: string, createdAt: int)
  {
    var store := new Storage(Absent);
    var cache := new MissionCache(store);
    cache.Refresh(true);
    assert cache.missions == [];
    cache.AddMission("Tower", "", 35.0, 139.0, id, createdAt, true, true);
    var m := NewMission(id, "Tower", "", 35.0, 139.0, createdAt);
    assert cache.missions == [m];
    assert !cache.missions[0].isCompleted;
    cache.CompleteMission(id, "file:///a.jpg", None, true, true);
    ReplacedAt([m], Completed(m, "file:///a.jpg", None), 0);
    assert |cache.missions| == 1;
    assert cache.missions[0].isCompleted && cache.missions[0].photoUri == Some("file:///a.jpg");
    assert store.stored == Encoded(cache.missions);
  }
}
