/**
 * The remote sync layer: a per-user service that pushes local collections
 * into the document store under `users/<userId>/<collection>` and pulls them
 * back. The document store is a map from collection path to a map from
 * document id to document; a document is a map from field name to value.
 * Backend outages are inputs (`backendFails`, `fails`), as is the clock.
 */
module SyncService {
  import opened Domain
  import Text

  /** A field value of a stored document. */
  datatype Value =
    | Str(s: string)
    | Num(n: int)
    | Bool(b: bool)
    | Null
    | Stamp(ms: int)
    | Arr(elems: seq<Value>)
    | Rec(fields: map<string, Value>)

  type Doc = map<string, Value>

  /** JavaScript truthiness of a field value (objects and arrays are truthy). */
  predicate Truthy(v: Value) {
    match v
    case Str(s) => s != ""
    case Num(n) => n != 0
    case Bool(b) => b
    case Null => false
    case _ => true
  }

  /** How an item's `id` field decides what a push does with it. */
  datatype ItemKey =
    | NoKey                 // no truthy id: the item is skipped
    | Key(id: string)       // written to the document with this id
    | BadKey                // the store rejects it as a document path

  function KeyOf(item: Doc): (k: ItemKey)
    ensures k.NoKey? <==> "id" !in item || !Truthy(item["id"])
    ensures k.Key? <==> "id" in item && item["id"].Str? && item["id"].s != "" && '/' !in item["id"].s
    ensures k.Key? ==> k.id == item["id"].s
  {
    if "id" !in item || !Truthy(item["id"]) then NoKey
    else if item["id"].Str? && '/' !in item["id"].s then Key(item["id"].s)
    else BadKey
  }

  /** `users/<userId>/<collectionName>`: the namespace of one user's collection. */
  function CollectionPath(userId: string, collectionName: string): string {
    "users/" + userId + "/" + collectionName
  }

  /** The path reads `users/`, then the user id, a slash, and the collection name. */
  lemma CollectionPathShape(userId: string, collectionName: string)
    ensures var path := CollectionPath(userId, collectionName);
      && |path| == |"users/"| + |userId| + 1 + |collectionName|
      && path[..6] == "users/" && path[6..6 + |userId|] == userId
      && path[6 + |userId|] == '/' && path[7 + |userId|..] == collectionName
  {
  }

  /**
   * Distinct users, or distinct collection names, never share a path (the
   * collection names contain no slash).
   */
  lemma CollectionPathInjective(u1: string, n1: string, u2: string, n2: string)
    requires '/' !in n1 && '/' !in n2
    requires CollectionPath(u1, n1) == CollectionPath(u2, n2)
    ensures u1 == u2 && n1 == n2
  {
    assert CollectionPath(u1, n1) == ("users/" + u1) + ['/'] + n1;
    assert CollectionPath(u2, n2) == ("users/" + u2) + ['/'] + n2;
    Text.SplitAtLast("users/" + u1, n1, "users/" + u2, n2, '/');
    Text.PrefixCancel("users/", u1, u2);
  }

  /** The document a push writes for an item: the item plus `syncedAt` and `userId`, which win over its own. */
  function Stamped(item: Doc, userId: string, now: int): Doc {
    item["syncedAt" := Stamp(now)]["userId" := Str(userId)]
  }

  /** The document a pull returns: the stored one without `syncedAt` and `userId`. */
  function Strip(doc: Doc): (r: Doc)
    ensures r.Keys == doc.Keys - {"syncedAt", "userId"}
    ensures forall f :: f in r ==> r[f] == doc[f]
  {
    doc - {"syncedAt", "userId"}
  }

  /** Stripping undoes stamping on every field other than the two sync fields. */
  lemma StripStamped(item: Doc, userId: string, now: int)
    ensures Strip(Stamped(item, userId, now)) == item - {"syncedAt", "userId"}
    ensures "syncedAt" !in item && "userId" !in item ==> Strip(Stamped(item, userId, now)) == item
  {
    assert Strip(Stamped(item, userId, now)) == item - {"syncedAt", "userId"};
  }

  /** Every item can be turned into a document reference (no truthy non-path id). */
  predicate Writable(items: seq<Doc>) {
    forall i :: 0 <= i < |items| ==> !KeyOf(items[i]).BadKey?
  }

  /** The ids a push writes. */
  function WrittenIds(items: seq<Doc>): set<string> {
    set i | 0 <= i < |items| && KeyOf(items[i]).Key? :: KeyOf(items[i]).id
  }

  /** The writes a push batches, in order: a later item with the same id overwrites an earlier one. */
  function Writes(items: seq<Doc>, userId: string, now: int): (w: map<string, Doc>)
    ensures forall id :: id in w ==> "userId" in w[id] && w[id]["userId"] == Str(userId)
    ensures forall id :: id in w ==> "syncedAt" in w[id] && w[id]["syncedAt"] == Stamp(now)
  {
    if items == [] then map[]
    else
      var last := items[|items| - 1];
      var earlier := Writes(items[..|items| - 1], userId, now);
      match KeyOf(last)
      case Key(id) => earlier[id := Stamped(last, userId, now)]
      case _ => earlier
  }

  lemma {:induction false} WritesKeys(items: seq<Doc>, userId: string, now: int)
    ensures Writes(items, userId, now).Keys == WrittenIds(items)
  {
    if items != [] {
      var init := items[..|items| - 1];
      WritesKeys(init, userId, now);
      var last := items[|items| - 1];
      assert forall i :: 0 <= i < |init| ==> init[i] == items[i];
      if KeyOf(last).Key? {
        assert WrittenIds(items) == WrittenIds(init) + {KeyOf(last).id};
      } else {
        assert WrittenIds(items) == WrittenIds(init);
      }
    }
  }

  /** Items with pairwise distinct ids. */
  predicate DistinctIds(items: seq<Doc>) {
    forall i, j :: 0 <= i < j < |items| && KeyOf(items[i]).Key? && KeyOf(items[j]).Key? ==>
      KeyOf(items[i]).id != KeyOf(items[j]).id
  }

  /** With distinct ids, each id-bearing item is written exactly as stamped. */
  lemma {:induction false} WritesAt(items: seq<Doc>, userId: string, now: int, i: int)
    requires DistinctIds(items)
    requires 0 <= i < |items| && KeyOf(items[i]).Key?
    ensures KeyOf(items[i]).id in Writes(items, userId, now)
    ensures Writes(items, userId, now)[KeyOf(items[i]).id] == Stamped(items[i], userId, now)
  {
    var init := items[..|items| - 1];
    if i < |items| - 1 {
      assert DistinctIds(init) by {
        forall a, b | 0 <= a < b < |init| && KeyOf(init[a]).Key? && KeyOf(init[b]).Key?
          ensures KeyOf(init[a]).id != KeyOf(init[b]).id
        {
          assert init[a] == items[a] && init[b] == items[b];
        }
      }
      assert init[i] == items[i];
      WritesAt(init, userId, now, i);
    }
  }

  /** The collection after a committed push: the batch of writes laid over it. */
  function PushAll(coll: map<string, Doc>, items: seq<Doc>, userId: string, now: int): map<string, Doc> {
    coll + Writes(items, userId, now)
  }

  /**
   * A push never deletes: every document it does not write keeps its value,
   * and the collection's ids grow by exactly the written ids.
   */
  lemma PushNeverDeletes(coll: map<string, Doc>, items: seq<Doc>, userId: string, now: int)
    ensures PushAll(coll, items, userId, now).Keys == coll.Keys + WrittenIds(items)
    ensures forall k :: k in coll && k !in WrittenIds(items) ==> PushAll(coll, items, userId, now)[k] == coll[k]
  {
    WritesKeys(items, userId, now);
  }

  /** What a pull of a collection returns, keyed by document id. */
  function Stripped(coll: map<string, Doc>): (m: map<string, Doc>)
    ensures m.Keys == coll.Keys
  {
    map k | k in coll :: Strip(coll[k])
  }

  /** ids lists every key of m exactly once. */
  ghost predicate Enumerates(ids: seq<string>, m: map<string, Doc>) {
    && (forall i :: 0 <= i < |ids| ==> ids[i] in m)
    && (forall i, j :: 0 <= i < j < |ids| ==> ids[i] != ids[j])
    && (forall k :: k in m ==> k in ids)
  }

  /** r lists the documents of m, one per id, in some order. */
  ghost predicate Lists(r: seq<Doc>, m: map<string, Doc>) {
    exists ids :: Enumerates(ids, m) && |ids| == |r| && forall i :: 0 <= i < |r| ==> r[i] == m[ids[i]]
  }

  /** The items a push of id-bearing items with distinct ids and no own sync fields reads back, by id. */
  lemma {:induction false} PulledAfterPush(items: seq<Doc>, userId: string, now: int)
    requires forall i :: 0 <= i < |items| ==> KeyOf(items[i]).Key?
    requires forall i :: 0 <= i < |items| ==> "syncedAt" !in items[i] && "userId" !in items[i]
    requires DistinctIds(items)
    ensures Stripped(PushAll(map[], items, userId, now)).Keys == WrittenIds(items)
    ensures forall i :: 0 <= i < |items| ==>
      Stripped(PushAll(map[], items, userId, now))[KeyOf(items[i]).id] == items[i]
  {
    assert PushAll(map[], items, userId, now) == Writes(items, userId, now);
    WritesKeys(items, userId, now);
    forall i | 0 <= i < |items|
      ensures Stripped(PushAll(map[], items, userId, now))[KeyOf(items[i]).id] == items[i]
    {
      WritesAt(items, userId, now, i);
      StripStamped(items[i], userId, now);
    }
  }

  /**
   * Push then pull: pushing id-bearing items with distinct ids and no own
   * sync fields into an empty collection, then pulling it, gives back
   * exactly those items, up to order.
   */
  lemma PushThenPull(items: seq<Doc>, userId: string, now: int, r: seq<Doc>)
    requires forall i :: 0 <= i < |items| ==> KeyOf(items[i]).Key?
    requires forall i :: 0 <= i < |items| ==> "syncedAt" !in items[i] && "userId" !in items[i]
    requires DistinctIds(items)
    requires Lists(r, Stripped(PushAll(map[], items, userId, now)))
    ensures |r| == |items|
    ensures forall x :: x in r <==> x in items
  {
    PulledAfterPush(items, userId, now);
    ListingOfItems(items, Stripped(PushAll(map[], items, userId, now)), r);
  }

  /** A listing of a map holding exactly the items, each under its own id, is those items reordered. */
  lemma ListingOfItems(items: seq<Doc>, m: map<string, Doc>, r: seq<Doc>)
    requires forall i :: 0 <= i < |items| ==> KeyOf(items[i]).Key?
    requires DistinctIds(items)
    requires m.Keys == WrittenIds(items)
    requires forall i :: 0 <= i < |items| ==> m[KeyOf(items[i]).id] == items[i]
    requires Lists(r, m)
    ensures |r| == |items|
    ensures forall x :: x in r <==> x in items
  {
    var ids :| Enumerates(ids, m) && |ids| == |r| && forall i :: 0 <= i < |r| ==> r[i] == m[ids[i]];
    ListedAreItems(items, m, r, ids);
    ItemsAreListed(items, m, r, ids);
    SetOfDistinct(ids);
    assert (set i | 0 <= i < |ids| :: ids[i]) == m.Keys;
    DistinctIdsCount(items);
  }

  lemma ListedAreItems(items: seq<Doc>, m: map<string, Doc>, r: seq<Doc>, ids: seq<string>)
    requires m.Keys == WrittenIds(items)
    requires forall i :: 0 <= i < |items| && KeyOf(items[i]).Key? ==> m[KeyOf(items[i]).id] == items[i]
    requires Enumerates(ids, m) && |ids| == |r| && forall i :: 0 <= i < |r| ==> r[i] == m[ids[i]]
    ensures forall x :: x in r ==> x in items
  {
    forall x | x in r ensures x in items {
      var i :| 0 <= i < |r| && r[i] == x;
      assert ids[i] in WrittenIds(items);
      var j :| 0 <= j < |items| && KeyOf(items[j]).Key? && KeyOf(items[j]).id == ids[i];
      assert items[j] == x;
    }
  }

  lemma ItemsAreListed(items: seq<Doc>, m: map<string, Doc>, r: seq<Doc>, ids: seq<string>)
    requires forall i :: 0 <= i < |items| ==> KeyOf(items[i]).Key?
    requires m.Keys == WrittenIds(items)
    requires forall i :: 0 <= i < |items| ==> m[KeyOf(items[i]).id] == items[i]
    requires Enumerates(ids, m) && |ids| == |r| && forall i :: 0 <= i < |r| ==> r[i] == m[ids[i]]
    ensures forall x :: x in items ==> x in r
  {
    forall x | x in items ensures x in r {
      var j :| 0 <= j < |items| && items[j] == x;
      var k := KeyOf(items[j]).id;
      assert k in m;
      var i :| 0 <= i < |ids| && ids[i] == k;
      assert r[i] == x;
    }
  }

  /** A sequence without repetitions has as many elements as its set of elements. */
  lemma {:induction false} SetOfDistinct(ids: seq<string>)
    requires forall i, j :: 0 <= i < j < |ids| ==> ids[i] != ids[j]
    ensures |set i | 0 <= i < |ids| :: ids[i]| == |ids|
  {
    if ids != [] {
      var init := ids[..|ids| - 1];
      SetOfDistinct(init);
      var s := set i | 0 <= i < |ids| :: ids[i];
      var t := set i | 0 <= i < |init| :: init[i];
      assert s == t + {ids[|ids| - 1]};
      assert ids[|ids| - 1] !in t;
    }
  }

  /** Id-bearing items with distinct ids have as many ids as items. */
  lemma {:induction false} DistinctIdsCount(items: seq<Doc>)
    requires forall i :: 0 <= i < |items| ==> KeyOf(items[i]).Key?
    requires DistinctIds(items)
    ensures |WrittenIds(items)| == |items|
  {
    if items != [] {
      var init := items[..|items| - 1];
      assert forall i :: 0 <= i < |init| ==> init[i] == items[i];
      DistinctIdsCount(init);
      var last := KeyOf(items[|items| - 1]).id;
      assert WrittenIds(items) == WrittenIds(init) + {last};
      assert last !in WrittenIds(init);
    }
  }

  /** The six collections a user's data is kept in. */
  datatype Kind = Clients | Programs | CheckIns | Insights | Notifications | Activities

  const AllKinds: seq<Kind> := [Clients, Programs, CheckIns, Insights, Notifications, Activities]

  function CollectionName(k: Kind): (name: string)
    ensures '/' !in name
  {
    match k
    case Clients => "clients"
    case Programs => "programs"
    case CheckIns => "check-ins"
    case Insights => "insights"
    case Notifications => "notifications"
    case Activities => "activities"
  }

  /** Distinct kinds live at distinct paths of one user's namespace. */
  lemma KindPathsDistinct(userId: string, k1: Kind, k2: Kind)
    requires k1 != k2
    ensures CollectionPath(userId, CollectionName(k1)) != CollectionPath(userId, CollectionName(k2))
  {
    if CollectionPath(userId, CollectionName(k1)) == CollectionPath(userId, CollectionName(k2)) {
      CollectionPathInjective(userId, CollectionName(k1), userId, CollectionName(k2));
    }
  }

  /** The argument of `syncAll`: each collection may be absent. */
  datatype SyncData = SyncData(
    clients: Option<seq<Doc>>,
    programs: Option<seq<Doc>>,
    checkIns: Option<seq<Doc>>,
    insights: Option<seq<Doc>>,
    notifications: Option<seq<Doc>>,
    activities: Option<seq<Doc>>)
  {
    function Part(k: Kind): Option<seq<Doc>> {
      match k
      case Clients => clients
      case Programs => programs
      case CheckIns => checkIns
      case Insights => insights
      case Notifications => notifications
      case Activities => activities
    }
  }

  /** The result of `loadAll`: one list per collection. */
  datatype LoadedData = LoadedData(
    clients: seq<Doc>,
    programs: seq<Doc>,
    checkIns: seq<Doc>,
    insights: seq<Doc>,
    notifications: seq<Doc>,
    activities: seq<Doc>)
  {
    function Part(k: Kind): seq<Doc> {
      match k
      case Clients => clients
      case Programs => programs
      case CheckIns => checkIns
      case Insights => insights
      case Notifications => notifications
      case Activities => activities
    }
  }

  /** A collection of the store; a path nobody wrote to is an empty collection. */
  function DocsAt(colls: map<string, map<string, Doc>>, path: string): map<string, Doc> {
    if path in colls then colls[path] else map[]
  }

  /** Whether a push commits: sync is on, the backend answers, and every item has a usable id. */
  predicate PushCommits(enabled: bool, items: seq<Doc>, backendFails: bool) {
    enabled && !backendFails && Writable(items)
  }

  /** The store after one push of `items` into collection `name` of `userId`. */
  function AfterPush(colls: map<string, map<string, Doc>>, userId: string, name: string, items: seq<Doc>,
                     now: int, enabled: bool, backendFails: bool): map<string, map<string, Doc>> {
    if PushCommits(enabled, items, backendFails) then
      var path := CollectionPath(userId, name);
      colls[path := PushAll(DocsAt(colls, path), items, userId, now)]
    else colls
  }

  /** The store after `syncAll` has pushed the present collections among `kinds`. */
  function AfterSyncAll(colls: map<string, map<string, Doc>>, userId: string, data: SyncData, now: int,
                        enabled: bool, fails: set<Kind>, kinds: seq<Kind>): map<string, map<string, Doc>> {
    if kinds == [] then colls
    else
      var k := kinds[|kinds| - 1];
      var before := AfterSyncAll(colls, userId, data, now, enabled, fails, kinds[..|kinds| - 1]);
      if data.Part(k).Some? then
        AfterPush(before, userId, CollectionName(k), data.Part(k).value, now, enabled, k in fails)
      else before
  }

  /** The position of each kind in `AllKinds`, the order the source visits them in. */
  function KindIndex(k: Kind): (j: nat)
    ensures j < |AllKinds| && AllKinds[j] == k
  {
    match k
    case Clients => 0
    case Programs => 1
    case CheckIns => 2
    case Insights => 3
    case Notifications => 4
    case Activities => 5
  }

  /** The collection of kind k after `syncAll`, given what it held before. */
  function SyncedKind(coll: map<string, Doc>, userId: string, data: SyncData, now: int, enabled: bool,
                      fails: set<Kind>, k: Kind): map<string, Doc> {
    if data.Part(k).Some? && PushCommits(enabled, data.Part(k).value, k in fails)
    then PushAll(coll, data.Part(k).value, userId, now)
    else coll
  }

  lemma {:induction false} SyncAllUntouched(colls: map<string, map<string, Doc>>, userId: string, data: SyncData,
                                            now: int, enabled: bool, fails: set<Kind>, kinds: seq<Kind>, path: string)
    requires forall i :: 0 <= i < |kinds| ==> path != CollectionPath(userId, CollectionName(kinds[i]))
    ensures DocsAt(AfterSyncAll(colls, userId, data, now, enabled, fails, kinds), path) == DocsAt(colls, path)
  {
    if kinds != [] {
      SyncAllUntouched(colls, userId, data, now, enabled, fails, kinds[..|kinds| - 1], path);
    }
  }

  lemma {:induction false} SyncAllPushes(colls: map<string, map<string, Doc>>, userId: string, data: SyncData,
                                         now: int, enabled: bool, fails: set<Kind>, kinds: seq<Kind>, j: nat)
    requires forall a, b :: 0 <= a < b < |kinds| ==> kinds[a] != kinds[b]
    requires j < |kinds|
    ensures var path := CollectionPath(userId, CollectionName(kinds[j]));
      DocsAt(AfterSyncAll(colls, userId, data, now, enabled, fails, kinds), path) ==
        SyncedKind(DocsAt(colls, path), userId, data, now, enabled, fails, kinds[j])
  {
    var init := kinds[..|kinds| - 1];
    var path := CollectionPath(userId, CollectionName(kinds[j]));
    var last := kinds[|kinds| - 1];
    if j == |kinds| - 1 {
      forall i | 0 <= i < |init| ensures path != CollectionPath(userId, CollectionName(init[i])) {
        KindPathsDistinct(userId, init[i], last);
      }
      SyncAllUntouched(colls, userId, data, now, enabled, fails, init, path);
    } else {
      KindPathsDistinct(userId, kinds[j], last);
      assert init[j] == kinds[j];
      SyncAllPushes(colls, userId, data, now, enabled, fails, init, j);
    }
  }

  /**
   * `syncAll` pushes exactly the collections present in its argument, each
   * under its own name: the collection of kind k becomes the result of
   * pushing `data.Part(k)` when that is present and commits, and is
   * otherwise unchanged.
   */
  lemma SyncAllEffect(colls: map<string, map<string, Doc>>, userId: string, data: SyncData,
                      now: int, enabled: bool, fails: set<Kind>, k: Kind)
    ensures var path := CollectionPath(userId, CollectionName(k));
      DocsAt(AfterSyncAll(colls, userId, data, now, enabled, fails, AllKinds), path) ==
        SyncedKind(DocsAt(colls, path), userId, data, now, enabled, fails, k)
  {
    SyncAllPushes(colls, userId, data, now, enabled, fails, AllKinds, KindIndex(k));
  }

  /** `syncAll` touches no path outside the user's six collections. */
  lemma SyncAllElsewhere(colls: map<string, map<string, Doc>>, userId: string, data: SyncData,
                         now: int, enabled: bool, fails: set<Kind>, path: string)
    requires forall k :: path != CollectionPath(userId, CollectionName(k))
    ensures DocsAt(AfterSyncAll(colls, userId, data, now, enabled, fails, AllKinds), path) == DocsAt(colls, path)
  {
    SyncAllUntouched(colls, userId, data, now, enabled, fails, AllKinds, path);
  }

  /** The store after `clearAllData` has visited `kinds`; a failing collection is left as it was. */
  function AfterClear(colls: map<string, map<string, Doc>>, userId: string, fails: set<Kind>,
                      kinds: seq<Kind>): map<string, map<string, Doc>> {
    if kinds == [] then colls
    else
      var k := kinds[|kinds| - 1];
      var before := AfterClear(colls, userId, fails, kinds[..|kinds| - 1]);
      if k in fails then before else before[CollectionPath(userId, CollectionName(k)) := map[]]
  }

  lemma {:induction false} ClearUntouched(colls: map<string, map<string, Doc>>, userId: string, fails: set<Kind>,
                                          kinds: seq<Kind>, path: string)
    requires forall i :: 0 <= i < |kinds| ==> path != CollectionPath(userId, CollectionName(kinds[i]))
    ensures DocsAt(AfterClear(colls, userId, fails, kinds), path) == DocsAt(colls, path)
  {
    if kinds != [] {
      ClearUntouched(colls, userId, fails, kinds[..|kinds| - 1], path);
    }
  }

  lemma {:induction false} ClearEmpties(colls: map<string, map<string, Doc>>, userId: string, fails: set<Kind>,
                                        kinds: seq<Kind>, j: nat)
    requires forall a, b :: 0 <= a < b < |kinds| ==> kinds[a] != kinds[b]
    requires j < |kinds|
    ensures var path := CollectionPath(userId, CollectionName(kinds[j]));
      DocsAt(AfterClear(colls, userId, fails, kinds), path) ==
        if kinds[j] in fails then DocsAt(colls, path) else map[]
  {
    var init := kinds[..|kinds| - 1];
    var path := CollectionPath(userId, CollectionName(kinds[j]));
    var last := kinds[|kinds| - 1];
    if j == |kinds| - 1 {
      forall i | 0 <= i < |init| ensures path != CollectionPath(userId, CollectionName(init[i])) {
        KindPathsDistinct(userId, init[i], last);
      }
      ClearUntouched(colls, userId, fails, init, path);
    } else {
      KindPathsDistinct(userId, kinds[j], last);
      assert init[j] == kinds[j];
      ClearEmpties(colls, userId, fails, init, j);
    }
  }

  /**
   * `clearAllData` leaves each of the six collections empty unless clearing
   * that one failed, in which case it is as it was; the failure of one does
   * not keep the others from being cleared.
   */
  lemma ClearEffect(colls: map<string, map<string, Doc>>, userId: string, fails: set<Kind>, k: Kind)
    ensures var path := CollectionPath(userId, CollectionName(k));
      DocsAt(AfterClear(colls, userId, fails, AllKinds), path) == if k in fails then DocsAt(colls, path) else map[]
  {
    ClearEmpties(colls, userId, fails, AllKinds, KindIndex(k));
  }

  /** `clearAllData` touches no path outside the user's six collections. */
  lemma ClearElsewhere(colls: map<string, map<string, Doc>>, userId: string, fails: set<Kind>, path: string)
    requires forall k :: path != CollectionPath(userId, CollectionName(k))
    ensures DocsAt(AfterClear(colls, userId, fails, AllKinds), path) == DocsAt(colls, path)
  {
    ClearUntouched(colls, userId, fails, AllKinds, path);
  }

  /** What a pull of collection `name` may return: [] when sync is off or the read fails, else a listing. */
  ghost predicate PullResult(r: seq<Doc>, colls: map<string, map<string, Doc>>, userId: string, name: string,
                             enabled: bool, backendFails: bool) {
    if !enabled || backendFails then r == []
    else Lists(r, Stripped(DocsAt(colls, CollectionPath(userId, name))))
  }

  /** The remote document store: collection path to (document id to document). */
  class Firestore {
    var collections: map<string, map<string, Doc>>

    constructor(initial: map<string, map<string, Doc>>)
      ensures collections == initial
    {
      collections := initial;
    }
  }

  /** One signed-in user's sync service. */
  class SyncService {
    const userId: string
    var syncEnabled: bool

    constructor(userId: string)
      ensures this.userId == userId && syncEnabled
    {
      this.userId := userId;
      syncEnabled := true;
    }

    /** `setSyncEnabled`. */
    method SetSyncEnabled(enabled: bool)
      modifies this
      ensures syncEnabled == enabled
    {
      syncEnabled := enabled;
    }

    /**
     * `syncToFirestore`: batch one stamped write per id-bearing item and commit.
     * Disabled sync returns at once; a rejected document path or a failed
     * commit is rethrown, and the batch writes nothing.
     */
    method SyncToFirestore(db: Firestore, collectionName: string, data: seq<Doc>, now: int, backendFails: bool)
      returns (r: Result<()>)
      modifies db
      ensures db.collections ==
        AfterPush(old(db.collections), userId, collectionName, data, now, syncEnabled, backendFails)
      ensures r.Ok? <==> !syncEnabled || PushCommits(syncEnabled, data, backendFails)
    {
      if !syncEnabled {
        return Ok(());
      }
      var path := CollectionPath(userId, collectionName);
      var batch: map<string, Doc> := map[];
      var i := 0;
      while i < |data|
        invariant 0 <= i <= |data|
        invariant Writable(data[..i])
        invariant batch == Writes(data[..i], userId, now)
      {
        var item := data[i];
        assert data[..i + 1][..i] == data[..i];
        if "id" in item && Truthy(item["id"]) {
          if !item["id"].Str? || '/' in item["id"].s {
            assert !Writable(data);
            return Err("invalid document reference");
          }
          batch := batch[item["id"].s := item["syncedAt" := Stamp(now)]["userId" := Str(userId)]];
        }
        i := i + 1;
      }
      assert data[..|data|] == data;
      if backendFails {
        return Err("commit failed");
      }
      db.collections := db.collections[path := DocsAt(db.collections, path) + batch];
      return Ok(());
    }

    /**
     * `syncFromFirestore`: every stored document of the collection, with the
     * sync fields removed. Disabled sync, or a failed read, gives [].
     */
    method SyncFromFirestore(db: Firestore, collectionName: string, backendFails: bool) returns (r: seq<Doc>)
      ensures PullResult(r, db.collections, userId, collectionName, syncEnabled, backendFails)
    {
      if !syncEnabled || backendFails {
        return [];
      }
      var coll := DocsAt(db.collections, CollectionPath(userId, collectionName));
      var remaining := coll.Keys;
      r := [];
      ghost var ids: seq<string> := [];
      while remaining != {}
        invariant remaining <= coll.Keys
        invariant forall i :: 0 <= i < |ids| ==> ids[i] in coll && ids[i] !in remaining
        invariant forall i, j :: 0 <= i < j < |ids| ==> ids[i] != ids[j]
        invariant forall k :: k in coll ==> k in remaining || k in ids
        invariant |r| == |ids| && forall i :: 0 <= i < |r| ==> r[i] == Strip(coll[ids[i]])
        decreases remaining
      {
        var k :| k in remaining;
        r := r + [coll[k] - {"syncedAt", "userId"}];
        ids := ids + [k];
        remaining := remaining - {k};
      }
      assert Enumerates(ids, Stripped(coll));
    }

    /**
     * `syncAll`: push every collection present in `data`. All pushes are
     * attempted; the call fails when any present collection's push fails.
     */
    method SyncAll(db: Firestore, data: SyncData, now: int, fails: set<Kind>) returns (r: Result<()>)
      modifies db
      ensures db.collections == AfterSyncAll(old(db.collections), userId, data, now, syncEnabled, fails, AllKinds)
      ensures r.Ok? <==> forall k :: data.Part(k).Some? ==>
        !syncEnabled || PushCommits(syncEnabled, data.Part(k).value, k in fails)
    {
      r := Ok(());
      var i := 0;
      while i < |AllKinds|
        invariant 0 <= i <= |AllKinds|
        invariant db.collections == AfterSyncAll(old(db.collections), userId, data, now, syncEnabled, fails, AllKinds[..i])
        invariant r.Ok? <==> forall j :: 0 <= j < i && data.Part(AllKinds[j]).Some? ==>
          !syncEnabled || PushCommits(syncEnabled, data.Part(AllKinds[j]).value, AllKinds[j] in fails)
      {
        var k := AllKinds[i];
        assert AllKinds[..i + 1][..i] == AllKinds[..i];
        if data.Part(k).Some? {
          var one := SyncToFirestore(db, CollectionName(k), data.Part(k).value, now, k in fails);
          if one.Err? {
            r := one;
          }
        }
        i := i + 1;
      }
      assert AllKinds[..|AllKinds|] == AllKinds;
      forall k | data.Part(k).Some? && r.Ok?
        ensures !syncEnabled || PushCommits(syncEnabled, data.Part(k).value, k in fails)
      {
        var j := KindIndex(k);
      }
    }

    /** `loadAll`: one pull per collection; a failing pull contributes []. */
    method LoadAll(db: Firestore, fails: set<Kind>) returns (r: LoadedData)
      ensures forall k :: !syncEnabled || k in fails ==> r.Part(k) == []
      ensures forall k :: PullResult(r.Part(k), db.collections, userId, CollectionName(k), syncEnabled, k in fails)
    {
      var clients := SyncFromFirestore(db, "clients", Clients in fails);
      var programs := SyncFromFirestore(db, "programs", Programs in fails);
      var checkIns := SyncFromFirestore(db, "check-ins", CheckIns in fails);
      var insights := SyncFromFirestore(db, "insights", Insights in fails);
      var notifications := SyncFromFirestore(db, "notifications", Notifications in fails);
      var activities := SyncFromFirestore(db, "activities", Activities in fails);
      r := LoadedData(clients, programs, checkIns, insights, notifications, activities);
      forall k ensures PullResult(r.Part(k), db.collections, userId, CollectionName(k), syncEnabled, k in fails) {
        match k
        case Clients =>
        case Programs =>
        case CheckIns =>
        case Insights =>
        case Notifications =>
        case Activities =>
      }
    }

    /**
     * `clearAllData`: delete every document of the six collections, one
     * collection at a time; a failure is logged and the next one is cleared.
     * It does not consult `syncEnabled`.
     */
    method ClearAllData(db: Firestore, fails: set<Kind>)
      modifies db
      ensures db.collections == AfterClear(old(db.collections), userId, fails, AllKinds)
    {
      var i := 0;
      while i < |AllKinds|
        invariant 0 <= i <= |AllKinds|
        invariant db.collections == AfterClear(old(db.collections), userId, fails, AllKinds[..i])
      {
        var k := AllKinds[i];
        assert AllKinds[..i + 1][..i] == AllKinds[..i];
        if k !in fails {
          db.collections := db.collections[CollectionPath(userId, CollectionName(k)) := map[]];
        }
        i := i + 1;
      }
      assert AllKinds[..|AllKinds|] == AllKinds;
    }
  }
}
