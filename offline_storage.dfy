/** The durable store behind the offline queue (src/services/offlineStorage.ts): three IndexedDB object
    stores, modelled as maps from key to record, and the `isAvailable` flag that turns every operation
    into a no-op when IndexedDB is missing. */
module OfflineStore {
  import opened Wrappers
  import opened Js
  import KeyOrder

  /** The six kinds of write the queue holds. */
  datatype MutationType =
    | CreateTask | UpdateTask | RemoveTask
    | CreateProject | UpdateProject | RemoveProject

  /** A queued write, `{ id, type, payload, timestamp }`, kept under its `id`. */
  datatype Mutation = Mutation(id: string, mtype: MutationType, payload: Record, timestamp: int)

  /** A `Partial<OfflineMutation>`: a field that is None is absent from the update. */
  datatype MutationPatch = MutationPatch(
    id: Option<string>, mtype: Option<MutationType>, payload: Option<Record>, timestamp: Option<int>)

  /** An entry of the `cache` store, kept under its `key`. */
  datatype CachedData = CachedData(key: string, data: JsValue, timestamp: int)

  /** A project of the offline snapshot: its numeric id, the store's key, and its other fields. */
  datatype Project = Project(id: int, fields: Record)

  /** What `store.add` reports when the key is already taken. */
  datatype StoreError = ConstraintError

  /** `{ ...existing, ...updates, id: existing.id, timestamp: existing.timestamp }`: the fields the
      update carries win, except that the record keeps its own id and timestamp. */
  function ApplyPatch(existing: Mutation, updates: MutationPatch): (r: Mutation)
    ensures r.id == existing.id && r.timestamp == existing.timestamp
    ensures updates.mtype.Some? ==> r.mtype == updates.mtype.value
    ensures updates.mtype.None? ==> r.mtype == existing.mtype
    ensures updates.payload.Some? ==> r.payload == updates.payload.value
    ensures updates.payload.None? ==> r.payload == existing.payload
  {
    Mutation(existing.id, updates.mtype.GetOr(existing.mtype), updates.payload.GetOr(existing.payload),
             existing.timestamp)
  }

  /** Every record sits under its own id. */
  ghost predicate KeyedById(m: map<string, Mutation>) {
    forall k :: k in m ==> m[k].id == k
  }

  /** The records of `m` whose keys are in `keys`, in ascending key order. */
  ghost function ListingOf(m: map<string, Mutation>, keys: set<string>): (r: seq<Mutation>)
    requires keys <= m.Keys
  {
    var ks := KeyOrder.Ascending(keys);
    seq(|ks|, i requires 0 <= i < |ks| => m[ks[i]])
  }

  /** The listing starts with the record under the least key. */
  lemma ListingOfLeast(m: map<string, Mutation>, keys: set<string>)
    requires keys <= m.Keys && keys != {}
    ensures ListingOf(m, keys) == [m[KeyOrder.Least(keys)]] + ListingOf(m, keys - {KeyOrder.Least(keys)})
  {
    var k := KeyOrder.Least(keys);
    assert KeyOrder.Ascending(keys) == [k] + KeyOrder.Ascending(keys - {k});
  }

  /** What `store.getAll()` returns: every record, in ascending key order. */
  ghost function Listing(m: map<string, Mutation>): seq<Mutation> {
    ListingOf(m, m.Keys)
  }

  /** The listing holds each record exactly once, in strictly ascending id order. */
  lemma ListingExact(m: map<string, Mutation>)
    requires KeyedById(m)
    ensures |Listing(m)| == |m|
    ensures forall i :: 0 <= i < |Listing(m)| ==> Listing(m)[i].id in m && m[Listing(m)[i].id] == Listing(m)[i]
    ensures forall k :: k in m ==> m[k] in Listing(m)
    ensures forall i, j :: 0 <= i < j < |Listing(m)| ==> KeyOrder.Less(Listing(m)[i].id, Listing(m)[j].id)
  {
    var ks := KeyOrder.Ascending(m.Keys);
    KeyOrder.AscendingComplete(m.Keys);
    forall k | k in m ensures m[k] in Listing(m) {
      var i :| 0 <= i < |ks| && ks[i] == k;
      assert Listing(m)[i] == m[k];
    }
  }

  lemma ListingEmpty(m: map<string, Mutation>)
    requires m == map[]
    ensures Listing(m) == []
  {
  }

  /** `mapped` holds each project of `ps` under its id, a later project replacing an earlier one
      with the same id: the effect of `forEach(put)` on a cleared store. */
  function ProjectsByKey(ps: seq<Project>): (mapped: map<int, Project>)
    ensures forall k :: k in mapped ==> mapped[k].id == k
  {
    if ps == [] then map[]
    else ProjectsByKey(ps[..|ps| - 1])[ps[|ps| - 1].id := ps[|ps| - 1]]
  }

  /** A saved id is present, and holds the last project saved with that id. */
  lemma {:induction false} ProjectsByKeyLastWins(ps: seq<Project>, i: nat)
    requires i < |ps|
    requires forall j :: i < j < |ps| ==> ps[j].id != ps[i].id
    ensures ps[i].id in ProjectsByKey(ps) && ProjectsByKey(ps)[ps[i].id] == ps[i]
  {
    if i < |ps| - 1 {
      ProjectsByKeyLastWins(ps[..|ps| - 1], i);
    }
  }

  /** Only saved ids are present. */
  lemma {:induction false} ProjectsByKeyOnlySaved(ps: seq<Project>, k: int)
    requires k in ProjectsByKey(ps)
    ensures exists i :: 0 <= i < |ps| && ps[i].id == k
  {
    if ps[|ps| - 1].id != k {
      ProjectsByKeyOnlySaved(ps[..|ps| - 1], k);
      var i :| 0 <= i < |ps| - 1 && ps[..|ps| - 1][i].id == k;
      assert ps[i].id == k;
    }
  }

  /** `r` lists the projects of `m` once each, in ascending id order (the order of `getAll`). */
  ghost predicate ListsProjects(r: seq<Project>, m: map<int, Project>) {
    && (forall i :: 0 <= i < |r| ==> r[i].id in m && m[r[i].id] == r[i])
    && (forall k :: k in m ==> m[k] in r)
    && (forall i, j :: 0 <= i < j < |r| ==> r[i].id < r[j].id)
  }

  /** `r` lists, in ascending id order, the projects of `m` with smaller ids than any in `remaining`,
      and every project of `m` is in one or the other. */
  ghost predicate ProjectsListedSoFar(r: seq<Project>, remaining: set<Project>, m: map<int, Project>) {
    && (forall q :: q in remaining ==> q.id in m && m[q.id] == q)
    && (forall i :: 0 <= i < |r| ==> r[i].id in m && m[r[i].id] == r[i])
    && (forall i, j :: 0 <= i < j < |r| ==> r[i].id < r[j].id)
    && (forall i, q :: 0 <= i < |r| && q in remaining ==> r[i].id < q.id)
    && (forall k :: k in m ==> m[k] in r || m[k] in remaining)
  }

  lemma ProjectsListedAdvance(r: seq<Project>, remaining: set<Project>, m: map<int, Project>, p: Project)
    requires ProjectsListedSoFar(r, remaining, m)
    requires p in remaining && forall q :: q in remaining ==> p.id <= q.id
    ensures ProjectsListedSoFar(r + [p], remaining - {p}, m)
  {
    forall q | q in remaining - {p} ensures p.id < q.id {
      assert m[p.id] == p && m[q.id] == q;
    }
  }

  /** Finds the project with the least id in a non-empty set of projects with distinct ids. */
  method FindLeastProject(ps: set<Project>) returns (p: Project)
    requires ps != {}
    ensures p in ps && forall q :: q in ps ==> p.id <= q.id
  {
    p :| p in ps;
    var rest := ps - {p};
    while rest != {}
      invariant rest <= ps && p in ps
      invariant forall q :: q in ps && q !in rest ==> p.id <= q.id
      decreases |rest|
    {
      var x :| x in rest;
      if x.id < p.id {
        p := x;
      }
      rest := rest - {x};
    }
  }

  class OfflineStorage {
    /** `typeof indexedDB !== 'undefined'` (and the database opened). */
    var available: bool
    /** The `mutations` store, keyed by `id`. */
    var mutations: map<string, Mutation>
    /** The `cache` store, keyed by `key`. */
    var cache: map<string, CachedData>
    /** The `projects` store, keyed by `id`. */
    var projects: map<int, Project>

    ghost predicate Valid()
      reads this
    {
      && KeyedById(mutations)
      && (forall k :: k in cache ==> cache[k].key == k)
      && (forall k :: k in projects ==> projects[k].id == k)
      && (!available ==> mutations == map[] && cache == map[] && projects == map[])
    }

    constructor (indexedDbPresent: bool)
      ensures Valid()
      ensures available == indexedDbPresent
      ensures mutations == map[] && cache == map[] && projects == map[]
    {
      available := indexedDbPresent;
      mutations, cache, projects := map[], map[], map[];
    }

    /** `addMutation`: stores a new record under the given id and returns that id; `''` when the store
        is unavailable; a key clash makes `store.add` fail and leaves the store as it was. */
    method AddMutation(mtype: MutationType, payload: Record, id: string, now: int)
      returns (r: Result<string, StoreError>)
      requires Valid()
      modifies this`mutations
      ensures Valid()
      ensures !available ==> r == Success("") && mutations == old(mutations)
      ensures available && id in old(mutations) ==> r == Failure(ConstraintError) && mutations == old(mutations)
      ensures available && id !in old(mutations) ==>
        r == Success(id) && mutations == old(mutations)[id := Mutation(id, mtype, payload, now)]
    {
      if !available {
        return Success("");
      }
      if id in mutations {
        return Failure(ConstraintError);
      }
      mutations := mutations[id := Mutation(id, mtype, payload, now)];
      r := Success(id);
    }

    /** `getMutations`: every queued record, in ascending id order; `[]` when unavailable. */
    method GetMutations() returns (r: seq<Mutation>)
      requires Valid()
      ensures r == Listing(mutations)
      ensures !available ==> r == []
    {
      if !available {
        ListingEmpty(mutations);
        return [];
      }
      r := [];
      var remaining := mutations.Keys;
      while remaining != {}
        invariant remaining <= mutations.Keys
        invariant r + ListingOf(mutations, remaining) == Listing(mutations)
        decreases |remaining|
      {
        var k := KeyOrder.FindLeast(remaining);
        ListingOfLeast(mutations, remaining);
        r := r + [mutations[k]];
        remaining := remaining - {k};
      }
    }

    /** `removeMutation`: deletes the record with that id, if there is one. */
    method RemoveMutation(id: string)
      requires Valid()
      modifies this`mutations
      ensures Valid()
      ensures mutations == old(mutations) - {id}
      ensures !available ==> mutations == old(mutations)
    {
      if !available {
        return;
      }
      mutations := mutations - {id};
    }

    /** `updateMutation`: read-merge-write of the record with that id; nothing when it is absent. */
    method UpdateMutation(id: string, updates: MutationPatch)
      requires Valid()
      modifies this`mutations
      ensures Valid()
      ensures available && id in old(mutations) ==>
        mutations == old(mutations)[id := ApplyPatch(old(mutations)[id], updates)]
      ensures !(available && id in old(mutations)) ==> mutations == old(mutations)
    {
      if !available {
        return;
      }
      if id !in mutations {
        return;
      }
      var existing := mutations[id];
      mutations := mutations[id := ApplyPatch(existing, updates)];
    }

    /** `clearMutations`: empties the queue. */
    method ClearMutations()
      requires Valid()
      modifies this`mutations
      ensures Valid() && mutations == map[]
    {
      if !available {
        return;
      }
      mutations := map[];
    }

    /** `cacheData`: stores `data` under `key`, replacing what was there. */
    method CacheData(key: string, data: JsValue, now: int)
      requires Valid()
      modifies this`cache
      ensures Valid()
      ensures available ==> cache == old(cache)[key := CachedData(key, data, now)]
      ensures !available ==> cache == old(cache)
    {
      if !available {
        return;
      }
      cache := cache[key := CachedData(key, data, now)];
    }

    /** `getCachedData`: the data stored under `key`, or `null`. */
    method GetCachedData(key: string) returns (r: JsValue)
      requires Valid()
      ensures key in cache ==> r == cache[key].data
      ensures key !in cache ==> r == Null
      ensures !available ==> r == Null
    {
      if !available {
        return Null;
      }
      r := if key in cache then cache[key].data else Null;
    }

    /** `saveProjects`: clears the store, then puts each project under its id. */
    method SaveProjects(ps: seq<Project>)
      requires Valid()
      modifies this`projects
      ensures Valid()
      ensures available ==> projects == ProjectsByKey(ps)
      ensures !available ==> projects == old(projects)
    {
      if !available {
        return;
      }
      projects := map[];
      for i := 0 to |ps|
        invariant projects == ProjectsByKey(ps[..i])
      {
        assert ps[..i + 1][..i] == ps[..i];
        projects := projects[ps[i].id := ps[i]];
      }
      assert ps[..|ps|] == ps;
    }

    /** `getProjects`: every stored project, in ascending id order; `[]` when unavailable. */
    method GetProjects() returns (r: seq<Project>)
      requires Valid()
      ensures ListsProjects(r, projects)
      ensures !available ==> r == []
    {
      if !available {
        return [];
      }
      r := [];
      var remaining := set k | k in projects :: projects[k];
      while remaining != {}
        invariant ProjectsListedSoFar(r, remaining, projects)
        decreases |remaining|
      {
        var p := FindLeastProject(remaining);
        ProjectsListedAdvance(r, remaining, projects, p);
        r := r + [p];
        remaining := remaining - {p};
      }
    }
  }
}
