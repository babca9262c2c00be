/**
 * The durable mission list: one key-value cell holding the whole list as
 * JSON, and the load-mutate-save operations over it.
 */
module MissionStore {
  import opened Wrappers

  /** The single storage key the store reads and writes. */
  const MissionsKey: string := "@missions_data_v1"

  /** One mission record as persisted. Coordinates are only ever copied. */
  datatype Mission = Mission(
    id: string,
    name: string,
    caption: Option<string>,
    latitude: real,
    longitude: real,
    isCompleted: bool,
    photoUri: Option<string>,
    assetId: Option<string>,
    createdAt: int)

  /**
   * What the cell under MissionsKey holds, as far as loading can tell:
   * nothing, text that does not parse, or the JSON of a saved list
   * (which parses back to exactly that list).
   */
  datatype Stored =
    | Absent
    | Corrupt
    | Encoded(missions: seq<Mission>)

  /** The list `loadMissions` returns, given the cell and whether the read succeeded. */
  function Loaded(cell: Stored, readOk: bool): seq<Mission>
  {
    if readOk && cell.Encoded? then cell.missions else []
  }

  /** The cell after `saveMissions(ms)`: a failed write leaves it as it was. */
  function Written(cell: Stored, ms: seq<Mission>, writeOk: bool): Stored
  {
    if writeOk then Encoded(ms) else cell
  }

  /** The list with each element of `u`'s id replaced by `u`, in place. */
  function Replaced(ms: seq<Mission>, u: Mission): (r: seq<Mission>)
    ensures |r| == |ms|
  {
    if ms == [] then []
    else [if ms[0].id == u.id then u else ms[0]] + Replaced(ms[1..], u)
  }

  /** The elements whose id differs from `id`, in their original order. */
  function Removed(ms: seq<Mission>, id: string): (r: seq<Mission>)
    ensures |r| <= |ms|
  {
    if ms == [] then []
    else (if ms[0].id == id then [] else [ms[0]]) + Removed(ms[1..], id)
  }

  /** Saving and then loading gives back exactly what was saved. */
  lemma SaveThenLoad(cell: Stored, ms: seq<Mission>)
    ensures Loaded(Written(cell, ms, true), true) == ms
  {
  }

  /** A failed write leaves what a later load sees untouched. */
  lemma FailedSaveKeepsLoad(cell: Stored, ms: seq<Mission>, readOk: bool)
    ensures Loaded(Written(cell, ms, false), readOk) == Loaded(cell, readOk)
  {
  }

  /** Replacement is position-wise: a matching element becomes `u`, any other stays. */
  lemma {:induction false} ReplacedAt(ms: seq<Mission>, u: Mission, i: nat)
    requires i < |ms|
    ensures Replaced(ms, u)[i] == if ms[i].id == u.id then u else ms[i]
  {
    if i > 0 {
      ReplacedAt(ms[1..], u, i - 1);
    }
  }

  /** With no element of `u`'s id, replacement changes nothing. */
  lemma {:induction false} ReplacedNoMatch(ms: seq<Mission>, u: Mission)
    requires forall i :: 0 <= i < |ms| ==> ms[i].id != u.id
    ensures Replaced(ms, u) == ms
  {
    forall i | 0 <= i < |ms|
      ensures Replaced(ms, u)[i] == ms[i]
    {
      ReplacedAt(ms, u, i);
    }
  }

  /** Every element carrying `u`'s id is replaced, not only the first. */
  lemma {:induction false} ReplacedEveryMatch(ms: seq<Mission>, u: Mission)
    ensures forall i :: 0 <= i < |ms| && ms[i].id == u.id ==> Replaced(ms, u)[i] == u
    ensures forall i :: 0 <= i < |ms| && ms[i].id != u.id ==> Replaced(ms, u)[i] == ms[i]
  {
    forall i | 0 <= i < |ms|
      ensures Replaced(ms, u)[i] == if ms[i].id == u.id then u else ms[i]
    {
      ReplacedAt(ms, u, i);
    }
  }

  /** The survivors of a removal are exactly the elements of another id. */
  lemma {:induction false} RemovedMembers(ms: seq<Mission>, id: string)
    ensures forall m :: m in Removed(ms, id) <==> m in ms && m.id != id
  {
    if ms != [] {
      RemovedMembers(ms[1..], id);
      assert ms == [ms[0]] + ms[1..];
    }
  }

  /** Removal distributes over concatenation, so the survivors keep their order. */
  lemma {:induction false} RemovedConcat(a: seq<Mission>, b: seq<Mission>, id: string)
    ensures Removed(a + b, id) == Removed(a, id) + Removed(b, id)
  {
    if a == [] {
      assert a + b == b;
    } else {
      assert (a + b)[1..] == a[1..] + b;
      RemovedConcat(a[1..], b, id);
    }
  }

  /** With no element of that id, removal changes nothing. */
  lemma {:induction false} RemovedNoMatch(ms: seq<Mission>, id: string)
    requires forall i :: 0 <= i < |ms| ==> ms[i].id != id
    ensures Removed(ms, id) == ms
  {
    if ms != [] {
      RemovedNoMatch(ms[1..], id);
    }
  }

  /** Removing the same id twice leaves the same list as removing it once. */
  lemma {:induction false} RemovedIdempotent(ms: seq<Mission>, id: string)
    ensures Removed(Removed(ms, id), id) == Removed(ms, id)
  {
    var r := Removed(ms, id);
    RemovedMembers(ms, id);
    forall i | 0 <= i < |r|
      ensures r[i].id != id
    {
      assert r[i] in r;
    }
    RemovedNoMatch(r, id);
  }

  /**
   * Two deletions of one id in a row leave the cell as the first one did,
   * once the first write went through (the second reads back what the
   * first wrote).
   */
  lemma DeleteTwiceAsOnce(cell: Stored, id: string, readOk: bool, writeOk: bool)
    ensures var once := Written(cell, Removed(Loaded(cell, readOk), id), true);
            Written(once, Removed(Loaded(once, true), id), writeOk) == once
  {
    RemovedIdempotent(Loaded(cell, readOk), id);
  }

  /**
   * The read in a second delete matters: when it fails, the delete saves
   * `[]` and a mission of another id that the first delete kept is lost.
   */
  lemma DeleteWithFailedReadLosesData(m: Mission, id: string)
    requires m.id != id
    ensures var once := Written(Encoded([m]), Removed(Loaded(Encoded([m]), true), id), true);
            once == Encoded([m]) &&
            Written(once, Removed(Loaded(once, false), id), true) == Encoded([])
  {
    assert Removed([m], id) == [m] by {
      assert [m][1..] == [];
    }
  }

  /**
   * A mission keeps `isCompleted` and the presence of `photoUri` in step:
   * creation sets neither, completion sets both.
   */
  predicate PhotoConsistent(m: Mission)
  {
    m.isCompleted <==> m.photoUri.Some?
  }

  predicate AllConsistent(ms: seq<Mission>)
  {
    forall m :: m in ms ==> PhotoConsistent(m)
  }

  /** A cell whose saved list (if any) is consistent; an empty or corrupt cell is. */
  predicate CellConsistent(cell: Stored)
  {
    cell.Encoded? ==> AllConsistent(cell.missions)
  }

  lemma LoadedConsistent(cell: Stored, readOk: bool)
    requires CellConsistent(cell)
    ensures AllConsistent(Loaded(cell, readOk))
  {
  }

  /** Replacing with a consistent record keeps a consistent list consistent. */
  lemma {:induction false} ReplacedConsistent(ms: seq<Mission>, u: Mission)
    requires AllConsistent(ms) && PhotoConsistent(u)
    ensures AllConsistent(Replaced(ms, u))
  {
    if ms != [] {
      assert ms[0] in ms;
      forall m | m in ms[1..] ensures PhotoConsistent(m) {
        assert m in ms;
      }
      ReplacedConsistent(ms[1..], u);
    }
  }

  /** Removal keeps a consistent list consistent. */
  lemma {:induction false} RemovedConsistent(ms: seq<Mission>, id: string)
    requires AllConsistent(ms)
    ensures AllConsistent(Removed(ms, id))
  {
    RemovedMembers(ms, id);
  }

  /**
   * The durable cell. Every operation loads the whole list, rewrites it,
   * saves it back and returns what it tried to save. Whether the backend's
   * read and write succeed is an input; failures never reach the caller.
   */
  class Storage {
    const key: string
    var stored: Stored

    /** The cell under MissionsKey, holding whatever the backend already has. */
    constructor (initial: Stored)
      ensures key == MissionsKey && stored == initial
    {
      key := MissionsKey;
      stored := initial;
    }

    /** `saveMissions`: overwrite the whole value; a failed write is swallowed. */
    method Save(ms: seq<Mission>, writeOk: bool)
      modifies this
      ensures stored == Written(old(stored), ms, writeOk)
      ensures writeOk ==> stored == Encoded(ms)
      ensures !writeOk ==> stored == old(stored)
    {
      if writeOk {
        stored := Encoded(ms);
      }
    }

    /** `loadMissions`: a missing or unreadable value and a failed read all give `[]`. */
    method Load(readOk: bool) returns (ms: seq<Mission>)
      ensures ms == Loaded(stored, readOk)
      ensures stored.Absent? ==> ms == []
      ensures stored.Corrupt? ==> ms == []
      ensures !readOk ==> ms == []
      ensures readOk && stored.Encoded? ==> ms == stored.missions
    {
      if readOk && stored.Encoded? {
        ms := stored.missions;
      } else {
        ms := [];
      }
    }

    /** `addMissionToStore`: append `m` to the loaded list. */
    method Add(m: Mission, readOk: bool, writeOk: bool) returns (ms: seq<Mission>)
      modifies this
      ensures ms == Loaded(old(stored), readOk) + [m]
      ensures |ms| == |Loaded(old(stored), readOk)| + 1 && ms[|ms| - 1] == m
      ensures !(readOk && old(stored).Encoded?) ==> ms == [m]
      ensures stored == Written(old(stored), ms, writeOk)
    {
      var current := Load(readOk);
      ms := current + [m];
      Save(ms, writeOk);
    }

    /** `updateMissionInStore`: replace every loaded element of `u`'s id by `u`. */
    method Update(u: Mission, readOk: bool, writeOk: bool) returns (ms: seq<Mission>)
      modifies this
      ensures ms == Replaced(Loaded(old(stored), readOk), u)
      ensures |ms| == |Loaded(old(stored), readOk)|
      ensures stored == Written(old(stored), ms, writeOk)
    {
      var current := Load(readOk);
      ms := Replaced(current, u);
      Save(ms, writeOk);
    }

    /** `deleteMissionFromStore`: drop every loaded element of that id. */
    method Delete(id: string, readOk: bool, writeOk: bool) returns (ms: seq<Mission>)
      modifies this
      ensures ms == Removed(Loaded(old(stored), readOk), id)
      ensures forall m :: m in ms ==> m.id != id
      ensures stored == Written(old(stored), ms, writeOk)
    {
      var current := Load(readOk);
      ms := Removed(current, id);
      RemovedMembers(current, id);
      Save(ms, writeOk);
    }
  }
}
