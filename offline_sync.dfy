/** The offline mutation queue (src/services/offlineSyncService.ts): while offline, writes are queued
    in the durable store, coalescing edits of records that only exist locally; when the network returns,
    the queue is drained through per-type executors. */
module OfflineSync {
  import opened Wrappers
  import opened Js
  import KeyOrder
  import opened OfflineStore

  // ----- Coalescing -----

  /** `payload?.id != null ? Number(payload.id) : null` plus the `isTemp` test: the negative number
      the payload's id stands for, if there is one (a placeholder id handed out while offline). */
  function TempId(payload: Record): Option<int> {
    var id := Get(payload, "id");
    if IsNullish(id) then None
    else match ToNumber(id)
      case Some(n) => if n < 0 then Some(n) else None
      case None => None
  }

  /** The create record an update or remove of a placeholder id refers to: `m.type === createType &&
      m.payload?.clientId === tempId` (strict equality, so only the number itself matches). */
  predicate IsCreateFor(m: Mutation, createType: MutationType, tempId: int) {
    m.mtype == createType && Get(m.payload, "clientId") == Number(tempId)
  }

  /** `mutations.find(...)`: the first record of `ms` that is the pending create of `tempId`. */
  function FindCreate(ms: seq<Mutation>, createType: MutationType, tempId: int): (r: Option<Mutation>)
    ensures r.None? <==> forall i :: 0 <= i < |ms| ==> !IsCreateFor(ms[i], createType, tempId)
    ensures r.Some? ==>
      exists i :: 0 <= i < |ms| && ms[i] == r.value && IsCreateFor(ms[i], createType, tempId)
                  && forall j :: 0 <= j < i ==> !IsCreateFor(ms[j], createType, tempId)
  {
    if ms == [] then None
    else if IsCreateFor(ms[0], createType, tempId) then Some(ms[0])
    else
      var r := FindCreate(ms[1..], createType, tempId);
      if r.Some? then
        var i :| 0 <= i < |ms[1..]| && ms[1..][i] == r.value && IsCreateFor(ms[1..][i], createType, tempId)
          && forall j :: 0 <= j < i ==> !IsCreateFor(ms[1..][j], createType, tempId);
        assert ms[i + 1] == r.value;
        assert forall j :: 0 <= j < i + 1 ==> !IsCreateFor(ms[j], createType, tempId) by {
          forall j | 0 <= j < i + 1 ensures !IsCreateFor(ms[j], createType, tempId) {
            if j > 0 { assert ms[j] == ms[1..][j - 1]; }
          }
        }
        r
      else
        assert forall i :: 0 <= i < |ms| ==> !IsCreateFor(ms[i], createType, tempId) by {
          forall i | 0 <= i < |ms| ensures !IsCreateFor(ms[i], createType, tempId) {
            if i > 0 { assert ms[i] == ms[1..][i - 1]; }
          }
        }
        r
  }

  /** `typeof v === 'boolean' ? v : fallback` */
  function IfBoolean(v: JsValue, fallback: JsValue): JsValue {
    if IsBoolean(v) then v else fallback
  }

  /** `typeof v === 'number' ? v : fallback` */
  function IfNumber(v: JsValue, fallback: JsValue): JsValue {
    if IsNumber(v) then v else fallback
  }

  /** The payload of a pending `createTask` after an `updateTask` of the same placeholder id: name,
      project and due date are taken from the update when it carries them (`??`), `completed` only
      when it is a boolean, `position` only when it is a number; every other field is kept. */
  function MergeTaskUpdate(existing: Record, update: Record): (r: Record)
    ensures forall k :: k !in {"name", "projectId", "dueDate", "completed", "position"} ==>
      (k in r <==> k in existing) && Get(r, k) == Get(existing, k)
    ensures forall k :: k in {"name", "projectId", "dueDate"} ==>
      Get(r, k) == (if IsNullish(Get(update, k)) then Get(existing, k) else Get(update, k))
    ensures Get(r, "completed") == (if Get(update, "completed").Bool? then Get(update, "completed") else Get(existing, "completed"))
    ensures Get(r, "position") == (if Get(update, "position").Number? then Get(update, "position") else Get(existing, "position"))
  {
    existing["name" := Coalesce(Get(update, "name"), Get(existing, "name"))]
            ["projectId" := Coalesce(Get(update, "projectId"), Get(existing, "projectId"))]
            ["dueDate" := Coalesce(Get(update, "dueDate"), Get(existing, "dueDate"))]
            ["completed" := IfBoolean(Get(update, "completed"), Get(existing, "completed"))]
            ["position" := IfNumber(Get(update, "position"), Get(existing, "position"))]
  }

  /** The payload of a pending `createProject` after an `updateProject`: only `name` (`??`) and
      `position` (when a number) are taken from the update; every other field is kept. */
  function MergeProjectUpdate(existing: Record, update: Record): (r: Record)
    ensures forall k :: k !in {"name", "position"} ==> (k in r <==> k in existing) && Get(r, k) == Get(existing, k)
    ensures Get(r, "name") == (if IsNullish(Get(update, "name")) then Get(existing, "name") else Get(update, "name"))
    ensures Get(r, "position") == (if Get(update, "position").Number? then Get(update, "position") else Get(existing, "position"))
  {
    existing["name" := Coalesce(Get(update, "name"), Get(existing, "name"))]
            ["position" := IfNumber(Get(update, "position"), Get(existing, "position"))]
  }

  /** What `queueMutation` does to the store while offline. */
  datatype Plan =
    | MergeInto(target: string, merged: Record)  // rewrite the payload of a pending create
    | Discard(target: string)                    // drop a pending create
    | Append                                     // queue a new record

  /** The create type an update or remove of a placeholder id coalesces with. */
  function CreateFor(mtype: MutationType): MutationType {
    if mtype.UpdateTask? || mtype.RemoveTask? then CreateTask else CreateProject
  }

  /** The branch `queueMutation` takes offline, given the records `getMutations` returned. */
  function PlanFor(ms: seq<Mutation>, mtype: MutationType, payload: Record): Plan {
    match TempId(payload)
    case None => Append
    case Some(t) =>
      if mtype.CreateTask? || mtype.CreateProject? then Append
      else match FindCreate(ms, CreateFor(mtype), t)
        case None => Append
        case Some(e) =>
          if mtype.UpdateTask? then MergeInto(e.id, MergeTaskUpdate(e.payload, payload))
          else if mtype.UpdateProject? then MergeInto(e.id, MergeProjectUpdate(e.payload, payload))
          else Discard(e.id)
  }

  /** The store after a plan is carried out with the storage operations. */
  function ApplyPlan(m: map<string, Mutation>, plan: Plan, mtype: MutationType, payload: Record,
                     newId: string, now: int): map<string, Mutation>
  {
    match plan
    case MergeInto(t, merged) =>
      if t in m then m[t := ApplyPatch(m[t], MutationPatch(None, None, Some(merged), None))] else m
    case Discard(t) => m - {t}
    case Append => if newId in m then m else m[newId := Mutation(newId, mtype, payload, now)]
  }

  /** A record is appended exactly when the call is not an update or remove of a placeholder id whose
      pending create is in the queue. */
  lemma PlanAppendsOtherwise(ms: seq<Mutation>, mtype: MutationType, payload: Record)
    ensures PlanFor(ms, mtype, payload) == Append <==>
      (|| TempId(payload).None?
       || mtype.CreateTask? || mtype.CreateProject?
       || FindCreate(ms, CreateFor(mtype), TempId(payload).value).None?)
  {
  }

  /** A coalescing plan targets the first pending create, in the listing, of the payload's placeholder
      id; an update merges into it (the task or the project rule), a remove discards it. */
  lemma PlanTargetsPendingCreate(m: map<string, Mutation>, mtype: MutationType, payload: Record)
    requires KeyedById(m)
    requires !PlanFor(Listing(m), mtype, payload).Append?
    ensures var plan := PlanFor(Listing(m), mtype, payload);
      && TempId(payload).Some?
      && plan.target in m && IsCreateFor(m[plan.target], CreateFor(mtype), TempId(payload).value)
      && (plan.MergeInto? <==> mtype.UpdateTask? || mtype.UpdateProject?)
      && (plan.Discard? <==> mtype.RemoveTask? || mtype.RemoveProject?)
      && (plan.MergeInto? && mtype.UpdateTask? ==> plan.merged == MergeTaskUpdate(m[plan.target].payload, payload))
      && (plan.MergeInto? && mtype.UpdateProject? ==> plan.merged == MergeProjectUpdate(m[plan.target].payload, payload))
  {
    ListingExact(m);
    var e := FindCreate(Listing(m), CreateFor(mtype), TempId(payload).value).value;
    assert e.id in m && m[e.id] == e;
  }

  /** A coalesced update rewrites the payload of its target and nothing else: the queue keeps its size
      and its other records. */
  lemma QueueMergeEffect(m: map<string, Mutation>, mtype: MutationType, payload: Record, newId: string, now: int)
    requires KeyedById(m)
    requires PlanFor(Listing(m), mtype, payload).MergeInto?
    ensures var plan := PlanFor(Listing(m), mtype, payload);
      var m' := ApplyPlan(m, plan, mtype, payload, newId, now);
      && m'.Keys == m.Keys && |m'| == |m|
      && m'[plan.target] == m[plan.target].(payload := plan.merged)
      && forall k :: k in m && k != plan.target ==> m'[k] == m[k]
  {
    PlanTargetsPendingCreate(m, mtype, payload);
  }

  /** A remove of a placeholder id whose create is pending deletes exactly that create record. */
  lemma QueueDiscardEffect(m: map<string, Mutation>, mtype: MutationType, payload: Record, newId: string, now: int)
    requires KeyedById(m)
    requires PlanFor(Listing(m), mtype, payload).Discard?
    ensures var plan := PlanFor(Listing(m), mtype, payload);
      var m' := ApplyPlan(m, plan, mtype, payload, newId, now);
      && plan.target in m && m' == m - {plan.target} && |m'| == |m| - 1
  {
    PlanTargetsPendingCreate(m, mtype, payload);
    var plan := PlanFor(Listing(m), mtype, payload);
    assert (m - {plan.target}).Keys == m.Keys - {plan.target};
  }

  /** Otherwise exactly one record, with the given type and payload, joins the queue. */
  lemma QueueAppendEffect(m: map<string, Mutation>, mtype: MutationType, payload: Record, newId: string, now: int)
    requires PlanFor(Listing(m), mtype, payload).Append?
    requires newId !in m
    ensures var m' := ApplyPlan(m, Append, mtype, payload, newId, now);
      && m'.Keys == m.Keys + {newId} && |m'| == |m| + 1
      && m'[newId] == Mutation(newId, mtype, payload, now)
      && forall k :: k in m ==> m'[k] == m[k]
  {
    var m' := m[newId := Mutation(newId, mtype, payload, now)];
    assert m'.Keys == m.Keys + {newId};
  }

  // ----- Draining -----

  /** Inserts `x` before the first record whose timestamp is not smaller. */
  function InsertByTimestamp(x: Mutation, s: seq<Mutation>): (r: seq<Mutation>)
    ensures multiset(r) == multiset{x} + multiset(s)
  {
    if s == [] || x.timestamp <= s[0].timestamp then [x] + s
    else
      assert s == [s[0]] + s[1..];
      [s[0]] + InsertByTimestamp(x, s[1..])
  }

  /** `mutations.sort((a, b) => a.timestamp - b.timestamp)`: a stable sort by timestamp. */
  function SortByTimestamp(ms: seq<Mutation>): (r: seq<Mutation>)
    ensures multiset(r) == multiset(ms)
  {
    if ms == [] then []
    else
      assert ms == [ms[0]] + ms[1..];
      InsertByTimestamp(ms[0], SortByTimestamp(ms[1..]))
  }

  /** `a` is visited before `b`: an earlier timestamp, or the same one and a smaller id. */
  predicate VisitedBefore(a: Mutation, b: Mutation) {
    a.timestamp < b.timestamp || (a.timestamp == b.timestamp && KeyOrder.Less(a.id, b.id))
  }

  ghost predicate DrainOrdered(s: seq<Mutation>) {
    forall i, j :: 0 <= i < j < |s| ==> VisitedBefore(s[i], s[j])
  }

  ghost predicate IdsAscending(s: seq<Mutation>) {
    forall i, j :: 0 <= i < j < |s| ==> KeyOrder.Less(s[i].id, s[j].id)
  }

  lemma {:induction false} InsertOrdered(x: Mutation, s: seq<Mutation>)
    requires DrainOrdered(s)
    requires forall y :: y in s ==> KeyOrder.Less(x.id, y.id)
    ensures DrainOrdered(InsertByTimestamp(x, s))
  {
    if s == [] || x.timestamp <= s[0].timestamp {
      var r := [x] + s;
      forall i, j | 0 <= i < j < |r| ensures VisitedBefore(r[i], r[j]) {
        if i == 0 {
          assert r[j] == s[j - 1] && r[j] in s;
          if j > 1 { assert VisitedBefore(s[0], s[j - 1]); }
        } else {
          assert r[i] == s[i - 1] && r[j] == s[j - 1];
        }
      }
    } else {
      var t := InsertByTimestamp(x, s[1..]);
      assert DrainOrdered(s[1..]) by {
        forall i, j | 0 <= i < j < |s[1..]| ensures VisitedBefore(s[1..][i], s[1..][j]) {
          assert s[1..][i] == s[i + 1] && s[1..][j] == s[j + 1];
        }
      }
      InsertOrdered(x, s[1..]);
      var r := [s[0]] + t;
      forall i, j | 0 <= i < j < |r| ensures VisitedBefore(r[i], r[j]) {
        if i == 0 {
          assert r[j] == t[j - 1] && r[j] in multiset(t);
          if r[j] != x {
            assert r[j] in multiset(s[1..]);
            var k :| 0 <= k < |s[1..]| && s[1..][k] == r[j];
            assert VisitedBefore(s[0], s[k + 1]);
          }
        } else {
          assert r[i] == t[i - 1] && r[j] == t[j - 1];
        }
      }
    }
  }

  /** A listing in strictly ascending id order comes out of the sort in timestamp order, records with
      equal timestamps keeping their id order: Array.prototype.sort is stable. */
  lemma {:induction false} SortOrdered(ms: seq<Mutation>)
    requires IdsAscending(ms)
    ensures DrainOrdered(SortByTimestamp(ms))
  {
    if ms != [] {
      assert IdsAscending(ms[1..]) by {
        forall i, j | 0 <= i < j < |ms[1..]| ensures KeyOrder.Less(ms[1..][i].id, ms[1..][j].id) {
          assert ms[1..][i] == ms[i + 1] && ms[1..][j] == ms[j + 1];
        }
      }
      SortOrdered(ms[1..]);
      var rest := SortByTimestamp(ms[1..]);
      forall y | y in rest ensures KeyOrder.Less(ms[0].id, y.id) {
        assert y in multiset(ms[1..]);
        var k :| 0 <= k < |ms[1..]| && ms[1..][k] == y;
        assert ms[k + 1] == y;
      }
      InsertOrdered(ms[0], rest);
    }
  }

  /** The order in which `syncPendingMutations` visits the store `m`. */
  ghost function DrainOrder(m: map<string, Mutation>): seq<Mutation> {
    SortByTimestamp(Listing(m))
  }

  /** The drain visits every record of the store once, in ascending timestamp order (ties in ascending
      id order, the order `getAll` returned them in). */
  lemma DrainVisitsAll(m: map<string, Mutation>)
    requires KeyedById(m)
    ensures |DrainOrder(m)| == |m|
    ensures forall x :: x in DrainOrder(m) ==> x.id in m && m[x.id] == x
    ensures forall k :: k in m ==> m[k] in DrainOrder(m)
    ensures DrainOrdered(DrainOrder(m))
    ensures forall i, j :: 0 <= i < j < |DrainOrder(m)| ==> DrainOrder(m)[i].timestamp <= DrainOrder(m)[j].timestamp
  {
    ListingExact(m);
    var d := DrainOrder(m);
    assert multiset(d) == multiset(Listing(m));
    assert |d| == |multiset(d)|;
    forall x | x in d ensures x.id in m && m[x.id] == x {
      assert x in multiset(Listing(m));
    }
    forall k | k in m ensures m[k] in d {
      assert m[k] in multiset(Listing(m));
    }
    SortOrdered(Listing(m));
  }

  lemma DrainLength(m: map<string, Mutation>)
    requires KeyedById(m)
    ensures |DrainOrder(m)| == |m|
  {
    ListingExact(m);
    assert |DrainOrder(m)| == |multiset(DrainOrder(m))| == |multiset(Listing(m))|;
  }

  /** A record is synced when an executor is registered for its type and that executor succeeds. */
  predicate Synced(m: Mutation, executors: set<MutationType>, outcome: Mutation -> bool) {
    m.mtype in executors && outcome(m)
  }

  /** The records of `ms` handed to an executor, in order. */
  function Executed(ms: seq<Mutation>, executors: set<MutationType>): seq<Mutation> {
    if ms == [] then []
    else Executed(ms[..|ms| - 1], executors)
         + (if ms[|ms| - 1].mtype in executors then [ms[|ms| - 1]] else [])
  }

  /** The records of `ms` that were synced, in order. */
  function SyncedOf(ms: seq<Mutation>, executors: set<MutationType>, outcome: Mutation -> bool): seq<Mutation> {
    if ms == [] then []
    else SyncedOf(ms[..|ms| - 1], executors, outcome)
         + (if Synced(ms[|ms| - 1], executors, outcome) then [ms[|ms| - 1]] else [])
  }

  /** The ids of the records of `ms`. */
  function Ids(ms: seq<Mutation>): set<string> {
    if ms == [] then {} else Ids(ms[..|ms| - 1]) + {ms[|ms| - 1].id}
  }

  lemma {:induction false} IdsMembers(ms: seq<Mutation>, k: string)
    ensures k in Ids(ms) <==> exists i :: 0 <= i < |ms| && ms[i].id == k
  {
    if ms != [] {
      IdsMembers(ms[..|ms| - 1], k);
      assert forall i :: 0 <= i < |ms| - 1 ==> ms[..|ms| - 1][i] == ms[i];
    }
  }

  lemma MapMinusUnion(m: map<string, Mutation>, s: set<string>, k: string)
    ensures (m - s) - {k} == m - (s + {k})
  {
  }

  /** What the drain loop has done after visiting the first `i` sorted records, starting from the
      store `m0` and the call log `calls0`. */
  ghost predicate DrainedUpTo(sorted: seq<Mutation>, i: nat, executors: set<MutationType>, outcome: Mutation -> bool,
                              m0: map<string, Mutation>, calls0: seq<Mutation>,
                              muts: map<string, Mutation>, calls: seq<Mutation>, synced: nat, failed: nat)
  {
    && i <= |sorted|
    && muts == m0 - Ids(SyncedOf(sorted[..i], executors, outcome))
    && synced == |SyncedOf(sorted[..i], executors, outcome)| && synced + failed == i
    && calls == calls0 + Executed(sorted[..i], executors)
  }

  /** One turn of the loop, as `Visit` states it, extends `DrainedUpTo` by one record. */
  lemma DrainAdvance(sorted: seq<Mutation>, i: nat, executors: set<MutationType>, outcome: Mutation -> bool,
                     m0: map<string, Mutation>, calls0: seq<Mutation>,
                     muts: map<string, Mutation>, calls: seq<Mutation>, synced: nat, failed: nat, ok: bool)
    requires i < |sorted|
    requires DrainedUpTo(sorted, i, executors, outcome, m0, calls0, muts, calls, synced, failed)
    requires ok == Synced(sorted[i], executors, outcome)
    ensures DrainedUpTo(sorted, i + 1, executors, outcome, m0, calls0,
                        if ok then muts - {sorted[i].id} else muts,
                        calls + (if sorted[i].mtype in executors then [sorted[i]] else []),
                        if ok then synced + 1 else synced, if ok then failed else failed + 1)
  {
    DrainStep(sorted, i, executors, outcome);
    MapMinusUnion(m0, Ids(SyncedOf(sorted[..i], executors, outcome)), sorted[i].id);
  }

  /** One more step of the drain loop extends each of its records by the record just visited. */
  lemma DrainStep(s: seq<Mutation>, i: nat, executors: set<MutationType>, outcome: Mutation -> bool)
    requires i < |s|
    ensures SyncedOf(s[..i + 1], executors, outcome)
      == SyncedOf(s[..i], executors, outcome) + (if Synced(s[i], executors, outcome) then [s[i]] else [])
    ensures Ids(SyncedOf(s[..i + 1], executors, outcome))
      == Ids(SyncedOf(s[..i], executors, outcome)) + (if Synced(s[i], executors, outcome) then {s[i].id} else {})
    ensures Executed(s[..i + 1], executors)
      == Executed(s[..i], executors) + (if s[i].mtype in executors then [s[i]] else [])
  {
    assert s[..i + 1][..i] == s[..i];
    var t := SyncedOf(s[..i], executors, outcome);
    assert SyncedOf(s[..i + 1], executors, outcome)
      == t + (if Synced(s[i], executors, outcome) then [s[i]] else []);
    if Synced(s[i], executors, outcome) {
      assert (t + [s[i]])[..|t|] == t;
      assert Ids(t + [s[i]]) == Ids(t) + {s[i].id};
    } else {
      assert t + [] == t;
    }
  }

  lemma {:induction false} SyncedOfMembers(ms: seq<Mutation>, executors: set<MutationType>, outcome: Mutation -> bool, x: Mutation)
    ensures x in SyncedOf(ms, executors, outcome) <==> x in ms && Synced(x, executors, outcome)
  {
    if ms != [] {
      SyncedOfMembers(ms[..|ms| - 1], executors, outcome, x);
      assert ms == ms[..|ms| - 1] + [ms[|ms| - 1]];
    }
  }

  /** After a drain of `m`, a record is left in the store exactly when it was not synced: its type had
      no executor, or its executor failed. */
  lemma DrainRemovesExactlySynced(m: map<string, Mutation>, executors: set<MutationType>, outcome: Mutation -> bool)
    requires KeyedById(m)
    ensures forall k :: k in m ==>
      (k in m - Ids(SyncedOf(DrainOrder(m), executors, outcome)) <==> !Synced(m[k], executors, outcome))
  {
    DrainVisitsAll(m);
    var d := DrainOrder(m);
    var s := SyncedOf(d, executors, outcome);
    forall k | k in m
      ensures k in Ids(s) <==> Synced(m[k], executors, outcome)
    {
      SyncedOfMembers(d, executors, outcome, m[k]);
      IdsMembers(s, k);
      if k in Ids(s) {
        var i :| 0 <= i < |s| && s[i].id == k;
        SyncedOfMembers(d, executors, outcome, s[i]);
      }
    }
  }

  // ----- The service -----

  /** A subscribed callback, identified by the caller. */
  type ListenerId = nat

  /** One run of `notifyListeners`: the callbacks called and the status passed. */
  datatype StatusEvent = StatusEvent(notified: set<ListenerId>, online: bool)

  /** One run of `notifyPendingCountListeners`: the callbacks called and the count passed. */
  datatype CountEvent = CountEvent(notified: set<ListenerId>, count: nat)

  datatype QueueOutcome = QueueOutcome(queued: bool, executed: bool)

  class OfflineSyncService {
    const storage: OfflineStorage
    var isOnline: bool
    var isSyncing: bool
    var statusListeners: set<ListenerId>
    var countListeners: set<ListenerId>
    /** The types `registerMutationExecutor` has been called for. */
    var executors: set<MutationType>
    /** The notifications sent, oldest first. */
    var statusEvents: seq<StatusEvent>
    var countEvents: seq<CountEvent>
    /** The executor calls made, oldest first. */
    var remoteCalls: seq<Mutation>

    ghost predicate Valid()
      reads this, storage
    {
      storage.Valid()
    }

    /** `onLine` is `navigator.onLine`, taken as online when there is no navigator. */
    constructor (store: OfflineStorage, onLine: bool)
      requires store.Valid()
      ensures Valid() && storage == store
      ensures isOnline == onLine && !isSyncing
      ensures statusListeners == {} && countListeners == {} && executors == {}
      ensures statusEvents == [] && countEvents == [] && remoteCalls == []
    {
      storage := store;
      isOnline := onLine;
      isSyncing := false;
      statusListeners, countListeners, executors := {}, {}, {};
      statusEvents, countEvents, remoteCalls := [], [], [];
    }

    method RegisterMutationExecutor(mtype: MutationType)
      modifies this`executors
      ensures executors == old(executors) + {mtype}
    {
      executors := executors + {mtype};
    }

    method GetOnlineStatus() returns (r: bool)
      ensures r == isOnline
    {
      r := isOnline;
    }

    /** `subscribe` adds the callback; calling the returned function is `Unsubscribe`. */
    method Subscribe(l: ListenerId)
      modifies this`statusListeners
      ensures statusListeners == old(statusListeners) + {l}
    {
      statusListeners := statusListeners + {l};
    }

    method Unsubscribe(l: ListenerId)
      modifies this`statusListeners
      ensures statusListeners == old(statusListeners) - {l}
    {
      statusListeners := statusListeners - {l};
    }

    /** Calls every pending-count callback with the number of queued records. */
    method NotifyPendingCount()
      requires Valid()
      modifies this`countEvents
      ensures countEvents == old(countEvents) + [CountEvent(countListeners, |storage.mutations|)]
    {
      var pending := storage.GetMutations();
      ListingExact(storage.mutations);
      countEvents := countEvents + [CountEvent(countListeners, |pending|)];
    }

    /** `subscribeToPendingCount` adds the callback and at once notifies every subscribed callback,
        not only the new one. */
    method SubscribeToPendingCount(l: ListenerId)
      requires Valid()
      modifies this`countListeners, this`countEvents
      ensures countListeners == old(countListeners) + {l}
      ensures countEvents == old(countEvents) + [CountEvent(countListeners, |storage.mutations|)]
    {
      countListeners := countListeners + {l};
      NotifyPendingCount();
    }

    method UnsubscribeFromPendingCount(l: ListenerId)
      modifies this`countListeners
      ensures countListeners == old(countListeners) - {l}
    {
      countListeners := countListeners - {l};
    }

    /** `getPendingCount`: the number of queued records. */
    method GetPendingCount() returns (r: nat)
      requires Valid()
      ensures r == |storage.mutations|
    {
      var pending := storage.GetMutations();
      ListingExact(storage.mutations);
      r := |pending|;
    }

    /** `queueMutation`, with the new record's id and timestamp passed in. Online, nothing is queued;
        offline, the call is coalesced into a pending create or appended, and the pending count is
        announced. A key clash in the store is the one error. */
    method QueueMutation(mtype: MutationType, payload: Record, newId: string, now: int)
      returns (r: Result<QueueOutcome, StoreError>)
      requires Valid()
      modifies storage`mutations, this`countEvents
      ensures Valid()
      ensures isOnline ==>
        r == Success(QueueOutcome(false, true)) && storage.mutations == old(storage.mutations)
        && countEvents == old(countEvents)
      ensures !isOnline ==>
        var plan := PlanFor(Listing(old(storage.mutations)), mtype, payload);
        && (r.Failure? <==> storage.available && plan.Append? && newId in old(storage.mutations))
        && (r.Success? ==>
              r.value == QueueOutcome(true, false)
              && countEvents == old(countEvents) + [CountEvent(countListeners, |storage.mutations|)])
        && (r.Failure? ==> countEvents == old(countEvents))
        && storage.mutations == (if storage.available
                                 then ApplyPlan(old(storage.mutations), plan, mtype, payload, newId, now)
                                 else old(storage.mutations))
    {
      if isOnline {
        return Success(QueueOutcome(false, true));
      }
      var pending := storage.GetMutations();
      r := CarryOut(PlanFor(pending, mtype, payload), mtype, payload, newId, now);
    }

    /** The offline branches of `queueMutation` once the plan is known. */
    method CarryOut(plan: Plan, mtype: MutationType, payload: Record, newId: string, now: int)
      returns (r: Result<QueueOutcome, StoreError>)
      requires Valid()
      modifies storage`mutations, this`countEvents
      ensures Valid()
      ensures r.Failure? <==> storage.available && plan.Append? && newId in old(storage.mutations)
      ensures r.Success? ==>
        r.value == QueueOutcome(true, false)
        && countEvents == old(countEvents) + [CountEvent(countListeners, |storage.mutations|)]
      ensures r.Failure? ==> countEvents == old(countEvents)
      ensures storage.mutations == (if storage.available
                                    then ApplyPlan(old(storage.mutations), plan, mtype, payload, newId, now)
                                    else old(storage.mutations))
    {
      match plan
      case MergeInto(target, merged) =>
        storage.UpdateMutation(target, MutationPatch(None, None, Some(merged), None));
        NotifyPendingCount();
        r := Success(QueueOutcome(true, false));
      case Discard(target) =>
        storage.RemoveMutation(target);
        NotifyPendingCount();
        r := Success(QueueOutcome(true, false));
      case Append =>
        var added := storage.AddMutation(mtype, payload, newId, now);
        if added.Failure? {
          return Failure(added.error);
        }
        NotifyPendingCount();
        r := Success(QueueOutcome(true, false));
    }

    /** `syncPendingMutations`, with each executor's success given by `outcome`. */
    method SyncPendingMutations(outcome: Mutation -> bool) returns (synced: nat, failed: nat)
      requires Valid()
      modifies this`isSyncing, this`remoteCalls, this`countEvents, storage`mutations
      ensures Valid()
      ensures !old(isOnline) || old(isSyncing) ==>
        && synced == 0 && failed == 0 && isSyncing == old(isSyncing)
        && storage.mutations == old(storage.mutations)
        && remoteCalls == old(remoteCalls) && countEvents == old(countEvents)
      ensures old(isOnline) && !old(isSyncing) ==>
        var drain := DrainOrder(old(storage.mutations));
        && storage.mutations == old(storage.mutations) - Ids(SyncedOf(drain, executors, outcome))
        && synced == |SyncedOf(drain, executors, outcome)|
        && synced + failed == |old(storage.mutations)|
        && remoteCalls == old(remoteCalls) + Executed(drain, executors)
        && countEvents == old(countEvents) + [CountEvent(countListeners, |storage.mutations|)]
        && !isSyncing
    {
      if !isOnline || isSyncing {
        return 0, 0;
      }
      isSyncing := true;
      synced, failed := DrainAll(outcome);
      isSyncing := false;
    }

    /** The body of the `try` in `syncPendingMutations`: read the queue, sort it, drain it, then
        announce the new pending count once. */
    method DrainAll(outcome: Mutation -> bool) returns (synced: nat, failed: nat)
      requires Valid()
      modifies this`remoteCalls, this`countEvents, storage`mutations
      ensures Valid()
      ensures var drain := DrainOrder(old(storage.mutations));
        && storage.mutations == old(storage.mutations) - Ids(SyncedOf(drain, executors, outcome))
        && synced == |SyncedOf(drain, executors, outcome)|
        && synced + failed == |old(storage.mutations)|
        && remoteCalls == old(remoteCalls) + Executed(drain, executors)
        && countEvents == old(countEvents) + [CountEvent(countListeners, |storage.mutations|)]
    {
      var batch := storage.GetMutations();
      DrainLength(storage.mutations);
      synced, failed := Drain(SortByTimestamp(batch), outcome);
      NotifyPendingCount();
    }

    /** The loop of `syncPendingMutations` over the sorted records: each record whose type has an
        executor is handed to it and removed from the store when it succeeds; the others count as
        failed and the loop goes on. */
    method Drain(sorted: seq<Mutation>, outcome: Mutation -> bool) returns (synced: nat, failed: nat)
      requires Valid()
      modifies this`remoteCalls, storage`mutations
      ensures Valid()
      ensures storage.mutations == old(storage.mutations) - Ids(SyncedOf(sorted, executors, outcome))
      ensures synced == |SyncedOf(sorted, executors, outcome)| && synced + failed == |sorted|
      ensures remoteCalls == old(remoteCalls) + Executed(sorted, executors)
    {
      synced, failed := 0, 0;
      ghost var m0, calls0 := storage.mutations, remoteCalls;
      for i := 0 to |sorted|
        invariant Valid()
        invariant DrainedUpTo(sorted, i, executors, outcome, m0, calls0, storage.mutations, remoteCalls, synced, failed)
      {
        ghost var muts, calls := storage.mutations, remoteCalls;
        var ok := Visit(sorted[i], outcome);
        DrainAdvance(sorted, i, executors, outcome, m0, calls0, muts, calls, synced, failed, ok);
        if ok {
          synced := synced + 1;
        } else {
          failed := failed + 1;
        }
      }
      assert sorted[..|sorted|] == sorted;
    }

    /** One turn of the drain loop: look up the executor, run it, and delete the record on success. */
    method Visit(mutation: Mutation, outcome: Mutation -> bool) returns (ok: bool)
      requires Valid()
      modifies this`remoteCalls, storage`mutations
      ensures Valid()
      ensures ok == Synced(mutation, executors, outcome)
      ensures storage.mutations == if ok then old(storage.mutations) - {mutation.id} else old(storage.mutations)
      ensures remoteCalls == old(remoteCalls) + (if mutation.mtype in executors then [mutation] else [])
    {
      if mutation.mtype !in executors {
        return false;
      }
      remoteCalls := remoteCalls + [mutation];
      ok := outcome(mutation);
      if ok {
        storage.RemoveMutation(mutation.id);
      }
    }

    /** The `online` event: record the status, tell the status callbacks, then drain. */
    method GoOnline(outcome: Mutation -> bool) returns (synced: nat, failed: nat)
      requires Valid()
      modifies this`isOnline, this`statusEvents, this`isSyncing, this`remoteCalls, this`countEvents, storage`mutations
      ensures Valid() && isOnline
      ensures statusEvents == old(statusEvents) + [StatusEvent(statusListeners, true)]
      ensures !old(isSyncing) ==>
        var drain := DrainOrder(old(storage.mutations));
        && storage.mutations == old(storage.mutations) - Ids(SyncedOf(drain, executors, outcome))
        && synced == |SyncedOf(drain, executors, outcome)|
        && synced + failed == |old(storage.mutations)|
        && remoteCalls == old(remoteCalls) + Executed(drain, executors)
        && countEvents == old(countEvents) + [CountEvent(countListeners, |storage.mutations|)]
        && !isSyncing
      ensures old(isSyncing) ==>
        && synced == 0 && failed == 0 && isSyncing
        && storage.mutations == old(storage.mutations)
        && remoteCalls == old(remoteCalls) && countEvents == old(countEvents)
    {
      isOnline := true;
      statusEvents := statusEvents + [StatusEvent(statusListeners, true)];
      synced, failed := SyncPendingMutations(outcome);
    }

    /** The `offline` event: record the status and tell the status callbacks. */
    method GoOffline()
      modifies this`isOnline, this`statusEvents
      ensures !isOnline
      ensures statusEvents == old(statusEvents) + [StatusEvent(statusListeners, false)]
    {
      isOnline := false;
      statusEvents := statusEvents + [StatusEvent(statusListeners, false)];
    }
  }
}
