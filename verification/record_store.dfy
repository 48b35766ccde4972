/** The store shape shared by the inventory, subscriptions and attachments
    modules (apps/backend/src/modules/inventory/inventory.store.ts,
    subscriptions/subscriptions.store.ts, attachments/attachments.store.ts):
    plain objects in an insertion-ordered `Map` under their generated id.
    `create` spreads the input over the generated fields, `update` spreads a
    patch over the current record and restamps `updatedAt`, `delete` answers
    whether the id was there. The clock and the id's random bytes are
    parameters. */
module RecordStore {
  import opened Wrappers
  import opened Js
  import opened OrderedMap
  import opened Ids

  type Store = OMap<Record>

  /** Every record is stored under the string in its own `id` field. */
  predicate KeyedById(s: Store) {
    forall k :: k in s.entries ==> Get(s.entries[k], "id") == Str(k)
  }

  /** `record.appId === appId`. Value equality stands for strict equality:
      the two differ only for `NaN` and for distinct objects, and neither
      is ever the id being looked for. */
  predicate BelongsTo(x: Record, appId: JsValue) {
    Get(x, "appId") == appId
  }

  /** The `filter` callback of `list(appId)`. */
  function InApp(appId: JsValue): Record -> bool {
    (x: Record) => BelongsTo(x, appId)
  }

  /** `list(appId)`: every record for a falsy `appId` (absent or empty),
      otherwise the records of that app, in insertion order and each as
      often as the store lists it (`ListByAppInOrder`). */
  function ListByApp(s: Store, appId: JsValue): (r: seq<Record>)
    ensures !Truthy(appId) ==> r == Values(s)
    ensures Truthy(appId) ==> forall x :: x in r <==> x in Values(s) && BelongsTo(x, appId)
    ensures |r| <= Size(s)
  {
    if !Truthy(appId) then Values(s) else Filter(Values(s), InApp(appId))
  }

  /** The listing keeps the store's order, and lists each record of the
      app as often as the store does and nothing else. A subsequence with
      these counts is exactly what `filter` returns. */
  lemma ListByAppInOrder(s: Store, appId: JsValue)
    ensures IsSubsequence(ListByApp(s, appId), Values(s))
    ensures Truthy(appId) ==>
      forall x :: multiset(ListByApp(s, appId))[x] == (if BelongsTo(x, appId) then multiset(Values(s))[x] else 0)
  {
    if !Truthy(appId) {
      SubsequenceRefl(Values(s));
    } else {
      FilterKeeps(Values(s), InApp(appId));
    }
  }

  /** With an app id, the listing holds exactly the stored records of that
      app. */
  lemma ListByAppExact(s: Store, appId: JsValue, x: Record)
    requires Truthy(appId)
    ensures x in ListByApp(s, appId) <==> exists k :: k in s.entries && s.entries[k] == x && BelongsTo(x, appId)
  {
    InValues(s, x);
  }

  /** A stored record is listed under its app, and in the unfiltered
      listing. */
  lemma StoredIsListed(s: Store, k: string, x: Record, appId: JsValue)
    requires Find(s, k) == Some(x)
    requires Truthy(appId) ==> BelongsTo(x, appId)
    ensures x in ListByApp(s, appId)
  {
    InValues(s, x);
  }

  /** Listing records in insertion order: after a create the new record
      comes last in the unfiltered listing. */
  lemma ListAfterInsert(s: Store, k: string, x: Record)
    requires !Has(s, k)
    ensures ListByApp(Set(s, k, x), Undefined) == ListByApp(s, Undefined) + [x]
  {
    ValuesAfterInsert(s, k, x);
  }

  /** The filtered listing in insertion order: after a create the new
      record comes last in its app's listing, and the listings of other
      apps do not change. */
  lemma ListByAppAfterInsert(s: Store, k: string, x: Record, appId: JsValue)
    requires !Has(s, k)
    ensures ListByApp(Set(s, k, x), appId) ==
      ListByApp(s, appId) + (if !Truthy(appId) || BelongsTo(x, appId) then [x] else [])
  {
    ValuesAfterInsert(s, k, x);
    if Truthy(appId) {
      FilterConcat(Values(s), [x], InApp(appId));
      FilterSingle(x, InApp(appId));
    }
  }

  /** A field `create` generates: the id, the creation instant and, in the
      stores that keep one, the update instant. */
  predicate Generated(k: string, withUpdated: bool) {
    k == "id" || k == "createdAt" || (withUpdated && k == "updatedAt")
  }

  /** The generated part of a new record. */
  function Stamp(id: string, now: string, withUpdated: bool): Record {
    if withUpdated then map["id" := Str(id), "createdAt" := Str(now), "updatedAt" := Str(now)]
    else map["id" := Str(id), "createdAt" := Str(now)]
  }

  /** `create`: `{ id: createId(prefix), createdAt: now, [updatedAt: now,]
      ...input }` stored under its id. The input type leaves out the
      generated fields, which the precondition states. */
  function Insert(s: Store, prefix: string, input: Record, now: string, random: Random6, withUpdated: bool)
    : (r: (Store, Record))
    requires "id" !in input && "createdAt" !in input && (withUpdated ==> "updatedAt" !in input)
    ensures var (s', item) := r;
      && Get(item, "id") == Str(CreateId(prefix, random))
      && Get(item, "createdAt") == Str(now)
      && (withUpdated ==> Get(item, "updatedAt") == Get(item, "createdAt"))
      && (forall k :: k in input ==> k in item && item[k] == input[k])
      && (forall k :: k in item ==> k in input || Generated(k, withUpdated))
      && Find(s', CreateId(prefix, random)) == Some(item)
      && (forall k :: k != CreateId(prefix, random) ==> Find(s', k) == Find(s, k))
  {
    var id := CreateId(prefix, random);
    var item := Stamp(id, now, withUpdated) + input;
    (Set(s, id, item), item)
  }

  /** `update`: `null` for an unknown id; otherwise `{ ...current, ...patch,
      updatedAt: now }` replaces the record under the same key. Every key
      of the patch lands in the record, even one holding `undefined`. */
  function Update(s: Store, id: string, patch: Record, now: string): (r: Option<(Store, Record)>)
    ensures r.None? <==> !Has(s, id)
    ensures r.Some? ==>
      var (s', item) := r.value;
      var prev := s.entries[id];
      && Get(item, "updatedAt") == Str(now)
      && (forall k :: k in patch && k != "updatedAt" ==> k in item && item[k] == patch[k])
      && (forall k :: k in prev && k !in patch && k != "updatedAt" ==> k in item && item[k] == prev[k])
      && (forall k :: k in item ==> k in prev || k in patch || k == "updatedAt")
      && Find(s', id) == Some(item)
      && (forall k :: k != id ==> Find(s', k) == Find(s, k))
  {
    match Find(s, id)
    case None => None
    case Some(current) =>
      var item := current + patch + map["updatedAt" := Str(now)];
      Some((Set(s, id, item), item))
  }

  /** `delete` of a record store, which is `OrderedMap.Delete`. */
  function Remove(s: Store, id: string): (Store, bool)
  {
    Delete(s, id)
  }

  /** The cascade loop of `deleteApp` over one child store, walking a
      snapshot of the keys: each visited record of the app is deleted.
      Deleting the entry being visited does not disturb a walk over a
      JavaScript `Map`, so every visited key is looked at once. */
  function PurgeKeys(s: Store, keys: seq<string>, appId: string): (r: Store)
    ensures forall k :: Has(r, k) <==> Has(s, k) && !(k in keys && BelongsTo(s.entries[k], Str(appId)))
    ensures forall k :: Has(r, k) ==> Has(s, k) && r.entries[k] == s.entries[k]
    decreases |keys|
  {
    if |keys| == 0 then s
    else
      var k := keys[0];
      var next := if Has(s, k) && BelongsTo(s.entries[k], Str(appId)) then Delete(s, k).0 else s;
      PurgeKeys(next, keys[1..], appId)
  }

  /** The whole cascade on one child store: the records of the app go,
      every other record stays as it was. */
  function PurgeApp(s: Store, appId: string): (r: Store)
    ensures forall k :: Has(r, k) <==> Has(s, k) && !BelongsTo(s.entries[k], Str(appId))
    ensures forall k :: Has(r, k) ==> Has(s, k) && r.entries[k] == s.entries[k]
  {
    PurgeKeys(s, s.order, appId)
  }

  /** After the cascade no record of the app is listed. */
  lemma PurgeAppLeavesNone(s: Store, appId: string)
    requires appId != ""
    ensures ListByApp(PurgeApp(s, appId), Str(appId)) == []
  {
    var r := PurgeApp(s, appId);
    var l := ListByApp(r, Str(appId));
    if |l| > 0 {
      assert l[0] in l;
      ListByAppExact(r, Str(appId), l[0]);
      assert false;
    }
  }

  /** Creating keeps every record under its own id. */
  lemma InsertKeepsKeyedById(s: Store, prefix: string, input: Record, now: string, random: Random6,
                             withUpdated: bool)
    requires KeyedById(s)
    requires "id" !in input && "createdAt" !in input && (withUpdated ==> "updatedAt" !in input)
    ensures KeyedById(Insert(s, prefix, input, now, random, withUpdated).0)
  {
    var (s', item) := Insert(s, prefix, input, now, random, withUpdated);
    forall k | k in s'.entries
      ensures Get(s'.entries[k], "id") == Str(k)
    {
      if k != CreateId(prefix, random) {
        assert Find(s', k) == Find(s, k);
      }
    }
  }

  /** Deleting one record keeps every remaining record under its own id. */
  lemma RemoveKeepsKeyedById(s: Store, id: string)
    requires KeyedById(s)
    ensures KeyedById(Remove(s, id).0)
  {
    var d := Remove(s, id).0;
    forall k | k in d.entries
      ensures Get(d.entries[k], "id") == Str(k)
    {
      assert Find(d, k) == Find(s, k);
    }
  }

  /** The cascade keeps every remaining record under its own id. */
  lemma PurgeKeepsKeyedById(s: Store, appId: string)
    requires KeyedById(s)
    ensures KeyedById(PurgeApp(s, appId))
  {
  }

  /** A patch that does not carry an `id` keeps every record under its own
      id. */
  lemma UpdateKeepsKeyedById(s: Store, id: string, patch: Record, now: string)
    requires KeyedById(s)
    requires "id" !in patch
    ensures Update(s, id, patch, now).Some? ==> KeyedById(Update(s, id, patch, now).value.0)
  {
    var r := Update(s, id, patch, now);
    if r.Some? {
      var (s', item) := r.value;
      forall k | k in s'.entries
        ensures Get(s'.entries[k], "id") == Str(k)
      {
        if k != id {
          assert Find(s', k) == Find(s, k);
        } else {
          assert "id" in s.entries[id];
        }
      }
    }
  }

  /** A patch that carries an `id` other than the key leaves the updated
      record under a key that is not its id. */
  lemma UpdateWithIdBreaksKeyedById(s: Store, id: string, patch: Record, now: string)
    requires Has(s, id)
    requires "id" in patch && patch["id"] != Str(id)
    ensures !KeyedById(Update(s, id, patch, now).value.0)
  {
    var (s', item) := Update(s, id, patch, now).value;
    assert s'.entries[id] == item;
    assert item["id"] == patch["id"];
  }

  /** The patch the update signatures admit (`Partial<Omit<…, "id" |
      "createdAt">>`): a body without `id` and `createdAt`. */
  function Editable(patch: Record): (r: Record)
    ensures "id" !in r && "createdAt" !in r
    ensures forall k :: k in patch && k != "id" && k != "createdAt" ==> k in r && r[k] == patch[k]
    ensures forall k :: k in r ==> k in patch
  {
    patch - {"id", "createdAt"}
  }
}
