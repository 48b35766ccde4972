/** The inventory (apps/backend/src/modules/inventory/inventory.store.ts):
    four record stores, for apps, hostings, domains and AI integrations.
    Apps are searched by a lower-cased substring of their text fields, and
    deleting an app cascades to its hostings, domains and integrations. */
module InventoryStore {
  import opened Wrappers
  import opened Text
  import opened Js
  import opened OrderedMap
  import opened Ids
  import opened RecordStore

  datatype Collection = Apps | Hostings | Domains | Integrations

  /** The `createId` prefix of each collection. */
  function Prefix(c: Collection): string {
    match c
    case Apps => "app"
    case Hostings => "host"
    case Domains => "dom"
    case Integrations => "int"
  }

  lemma PrefixesDistinct(c: Collection, d: Collection)
    ensures Prefix(c) == Prefix(d) <==> c == d
  {
  }

  datatype Inventory = Inventory(apps: Store, hostings: Store, domains: Store, integrations: Store)

  function StoreOf(inv: Inventory, c: Collection): Store {
    match c
    case Apps => inv.apps
    case Hostings => inv.hostings
    case Domains => inv.domains
    case Integrations => inv.integrations
  }

  function WithStore(inv: Inventory, c: Collection, s: Store): (r: Inventory)
    ensures StoreOf(r, c) == s
    ensures forall d :: d != c ==> StoreOf(r, d) == StoreOf(inv, d)
  {
    match c
    case Apps => inv.(apps := s)
    case Hostings => inv.(hostings := s)
    case Domains => inv.(domains := s)
    case Integrations => inv.(integrations := s)
  }

  /** Every store keeps its records under their own ids. */
  predicate Consistent(inv: Inventory) {
    forall c :: KeyedById(StoreOf(inv, c))
  }

  // ---------------------------------------------------------------- search

  /** The text an app is searched in: name, commercial name, description
      (`?? ""`) and the tags joined by spaces, joined by spaces and
      lower-cased. Reading `tags.join` throws a `TypeError` unless the
      stored tags are an array. */
  function Haystack(app: Record): (r: Result<string, string>)
    ensures r.Success? <==> Get(app, "tags").Arr?
    ensures r.Success? ==> r.value == ToLower(Join(HaystackParts(app), ' '))
  {
    var tags := Get(app, "tags");
    if tags.Arr? then Success(ToLower(Join(HaystackParts(app), ' ')))
    else if IsNullish(tags) then Failure("TypeError: Cannot read properties of " + ToStr(tags) + " (reading 'join')")
    else Failure("TypeError: item.tags.join is not a function")
  }

  /** The four parts of the haystack, as `Array.prototype.join` renders
      them. */
  function HaystackParts(app: Record): (parts: seq<string>)
    requires Get(app, "tags").Arr?
    ensures |parts| == 4
  {
    [ElementString(Get(app, "name")), ElementString(Get(app, "commercialName")),
     ElementString(Coalesce(Get(app, "description"), Str(""))), JoinValues(Get(app, "tags").items, ' ')]
  }

  /** The `filter` callback of the search: the app's haystack exists and
      contains the term. */
  function MatchesTerm(term: string): Record -> bool {
    (x: Record) => Haystack(x).Success? && Contains(Haystack(x).value, term)
  }

  /** `items.filter(item => haystack(item).includes(term))`: the matching
      apps in order, each as often as listed, or the first `TypeError` the
      predicate throws. */
  function SearchApps(items: seq<Record>, term: string): (r: Result<seq<Record>, string>)
    ensures r.Success? <==> forall i :: 0 <= i < |items| ==> Haystack(items[i]).Success?
    ensures r.Success? ==> r.value == Filter(items, MatchesTerm(term))
    ensures r.Failure? ==> exists i :: 0 <= i < |items| && Haystack(items[i]) == Failure(r.error)
  {
    if |items| == 0 then Success([])
    else
      match Haystack(items[0])
      case Failure(e) => Failure(e)
      case Success(h) =>
        match SearchApps(items[1..], term)
        case Failure(e) =>
          assert forall i :: 1 <= i < |items| ==> items[i] == items[1..][i - 1];
          Failure(e)
        case Success(rest) =>
          assert forall i :: 1 <= i < |items| ==> items[i] == items[1..][i - 1];
          Success(if Contains(h, term) then [items[0]] + rest else rest)
  }

  /** A successful search keeps exactly the matching apps, in their order
      and each as often as listed. */
  lemma SearchAppsKeeps(items: seq<Record>, term: string)
    requires SearchApps(items, term).Success?
    ensures var r := SearchApps(items, term).value;
      && |r| <= |items|
      && (forall x :: x in r <==> x in items && Haystack(x).Success? && Contains(Haystack(x).value, term))
      && (forall x :: multiset(r)[x] == if MatchesTerm(term)(x) then multiset(items)[x] else 0)
      && IsSubsequence(r, items)
  {
    FilterKeeps(items, MatchesTerm(term));
  }

  /** Searching a concatenation succeeds exactly when searching both parts
      does, and then the matches of the first part come first. */
  lemma SearchAppsConcat(xs: seq<Record>, ys: seq<Record>, term: string)
    ensures SearchApps(xs + ys, term).Success? <==> SearchApps(xs, term).Success? && SearchApps(ys, term).Success?
    ensures SearchApps(xs + ys, term).Success? ==>
      SearchApps(xs + ys, term).value == SearchApps(xs, term).value + SearchApps(ys, term).value
  {
    var zs := xs + ys;
    assert forall i :: 0 <= i < |xs| ==> zs[i] == xs[i];
    assert forall i :: 0 <= i < |ys| ==> zs[|xs| + i] == ys[i];
    FilterConcat(xs, ys, MatchesTerm(term));
  }

  /** An app appended to the list lands last among the matches when its
      haystack contains the term. */
  lemma SearchAppsAppend(xs: seq<Record>, x: Record, term: string)
    requires SearchApps(xs, term).Success? && Haystack(x).Success?
    ensures SearchApps(xs + [x], term) ==
      Success(SearchApps(xs, term).value + (if Contains(Haystack(x).value, term) then [x] else []))
  {
    SearchAppsConcat(xs, [x], term);
    FilterSingle(x, MatchesTerm(term));
  }

  /** `listApps(search)`: every app for an empty search, otherwise the apps
      whose haystack contains the lower-cased term. */
  function ListApps(inv: Inventory, search: string): (r: Result<seq<Record>, string>)
    ensures search == "" ==> r == Success(Values(inv.apps))
    ensures search != "" && r.Success? ==> forall x :: x in r.value <==>
      x in Values(inv.apps) && Haystack(x).Success? && Contains(Haystack(x).value, ToLower(search))
    ensures search != "" && r.Success? ==> r.value == Filter(Values(inv.apps), MatchesTerm(ToLower(search)))
    ensures r.Success? ==> IsSubsequence(r.value, Values(inv.apps))
    ensures search != "" ==>
      (r.Failure? <==> exists i :: 0 <= i < Size(inv.apps) && !Get(Values(inv.apps)[i], "tags").Arr?)
  {
    if search == "" then
      SubsequenceRefl(Values(inv.apps));
      Success(Values(inv.apps))
    else
      var r := SearchApps(Values(inv.apps), ToLower(search));
      if r.Success? then SearchAppsKeeps(Values(inv.apps), ToLower(search)); r else r
  }

  /** The search ignores the case of the term. */
  lemma ListAppsIgnoresCase(inv: Inventory, search: string)
    ensures ListApps(inv, ToLower(search)) == ListApps(inv, search)
  {
    ToLowerIdempotent(search);
  }

  /** An app whose tags are stored as anything but an array makes every
      non-empty search fail, whatever the term. */
  lemma SearchFailsOnMissingTags(inv: Inventory, id: string, search: string)
    requires Has(inv.apps, id) && !Get(inv.apps.entries[id], "tags").Arr?
    requires search != ""
    ensures ListApps(inv, search).Failure?
  {
    var i :| 0 <= i < |inv.apps.order| && inv.apps.order[i] == id;
    assert Values(inv.apps)[i] == inv.apps.entries[id];
  }

  lemma ToLowerConcat(a: string, b: string)
    ensures ToLower(a + b) == ToLower(a) + ToLower(b)
  {
  }

  /** An occurrence in a part is an occurrence in the whole. */
  lemma ContainsWithin(a: string, b: string, c: string, t: string)
    requires Contains(b, t)
    ensures Contains(a + b + c, t)
  {
    var j :| OccursAt(b, t, j);
    var s := a + b + c;
    assert s[|a| + j..|a| + j + |t|] == b[j..j + |t|];
    assert OccursAt(s, t, |a| + j);
  }

  /** A term found in one of the parts is found in their join. */
  lemma {:induction false} ContainsJoinPart(parts: seq<string>, i: nat, sep: char, t: string)
    requires i < |parts| && Contains(parts[i], t)
    ensures Contains(Join(parts, sep), t)
    decreases |parts|
  {
    if |parts| == 1 {
      assert Join(parts, sep) == "" + parts[0] + "";
      ContainsWithin("", parts[0], "", t);
    } else if i == 0 {
      ContainsWithin("", parts[0], [sep] + Join(parts[1..], sep), t);
      assert Join(parts, sep) == "" + parts[0] + ([sep] + Join(parts[1..], sep));
    } else {
      ContainsJoinPart(parts[1..], i - 1, sep, t);
      ContainsWithin(parts[0] + [sep], Join(parts[1..], sep), "", t);
      assert Join(parts, sep) == parts[0] + [sep] + Join(parts[1..], sep) + "";
    }
  }

  /** Searching finds every app whose name, commercial name, description
      or one of whose tags contains the term, ignoring case, provided every
      stored app has array tags. */
  lemma SearchFindsByField(inv: Inventory, id: string, search: string, part: nat)
    requires Has(inv.apps, id) && search != ""
    requires forall i :: 0 <= i < Size(inv.apps) ==> Get(Values(inv.apps)[i], "tags").Arr?
    requires Get(inv.apps.entries[id], "tags").Arr?
    requires part < 4 && Contains(ToLower(HaystackParts(inv.apps.entries[id])[part]), ToLower(search))
    ensures ListApps(inv, search).Success? && inv.apps.entries[id] in ListApps(inv, search).value
  {
    var app := inv.apps.entries[id];
    var parts := HaystackParts(app);
    var lowered := seq(4, j requires 0 <= j < 4 => ToLower(parts[j]));
    ContainsJoinPart(lowered, part, ' ', ToLower(search));
    JoinLower(parts, ' ');
    InValues(inv.apps, app);
    assert Find(inv.apps, id) == Some(app);
  }

  /** Lower-casing a join lower-cases each part, the separator being a
      space. */
  lemma {:induction false} JoinLower(parts: seq<string>, sep: char)
    requires LowerChar(sep) == sep
    ensures ToLower(Join(parts, sep)) == Join(seq(|parts|, j requires 0 <= j < |parts| => ToLower(parts[j])), sep)
    decreases |parts|
  {
    var lowered := seq(|parts|, j requires 0 <= j < |parts| => ToLower(parts[j]));
    if |parts| > 1 {
      JoinLower(parts[1..], sep);
      assert lowered[1..] == seq(|parts| - 1, j requires 0 <= j < |parts| - 1 => ToLower(parts[1..][j]));
      ToLowerConcat(parts[0] + [sep], Join(parts[1..], sep));
      ToLowerConcat(parts[0], [sep]);
    }
  }

  /** A tag containing the term is found in the joined tags. */
  lemma TagInJoin(tags: seq<JsValue>, j: nat, t: string)
    requires j < |tags| && Contains(ElementString(tags[j]), t)
    ensures Contains(JoinValues(tags, ' '), t)
  {
    var strs := seq(|tags|, i requires 0 <= i < |tags| => ElementString(tags[i]));
    ContainsJoinPart(strs, j, ' ', t);
  }

  // ---------------------------------------------------------------- children

  /** `listHostings(appId)`, `listDomains(appId)`, `listIntegrations(appId)`
      and, with `Apps`, the unfiltered app list. */
  function ListIn(inv: Inventory, c: Collection, appId: JsValue): (r: seq<Record>)
    ensures !Truthy(appId) ==> r == Values(StoreOf(inv, c))
    ensures |r| <= Size(StoreOf(inv, c))
  {
    ListByApp(StoreOf(inv, c), appId)
  }

  /** With an app id, a child listing holds exactly that app's records. */
  lemma ListInExact(inv: Inventory, c: Collection, appId: JsValue, x: Record)
    requires Truthy(appId)
    ensures x in ListIn(inv, c, appId) <==>
      exists k :: Has(StoreOf(inv, c), k) && StoreOf(inv, c).entries[k] == x && BelongsTo(x, appId)
  {
    ListByAppExact(StoreOf(inv, c), appId, x);
  }

  /** `createApp`, `createHosting`, `createDomain`, `createIntegration`:
      one record in one collection, with the collection's id prefix; the
      other collections do not change. */
  function CreateIn(inv: Inventory, c: Collection, input: Record, now: string, random: Random6): (r: (Inventory, Record))
    requires "id" !in input && "createdAt" !in input && "updatedAt" !in input
    ensures Get(r.1, "id") == Str(CreateId(Prefix(c), random))
    ensures Get(r.1, "createdAt") == Str(now) && Get(r.1, "updatedAt") == Str(now)
    ensures forall k :: k in input ==> k in r.1 && r.1[k] == input[k]
    ensures Find(StoreOf(r.0, c), CreateId(Prefix(c), random)) == Some(r.1)
    ensures forall k :: k != CreateId(Prefix(c), random) ==> Find(StoreOf(r.0, c), k) == Find(StoreOf(inv, c), k)
    ensures forall d :: d != c ==> StoreOf(r.0, d) == StoreOf(inv, d)
  {
    var (s, item) := Insert(StoreOf(inv, c), Prefix(c), input, now, random, true);
    (WithStore(inv, c, s), item)
  }

  /** `updateApp` and the child updates: `None` for an unknown id, which
      changes nothing; otherwise the patch is spread over the record and
      the other collections do not change. */
  function UpdateIn(inv: Inventory, c: Collection, id: string, patch: Record, now: string): (r: Option<(Inventory, Record)>)
    ensures r.None? <==> !Has(StoreOf(inv, c), id)
    ensures r.Some? ==>
      && Update(StoreOf(inv, c), id, patch, now).Some?
      && StoreOf(r.value.0, c) == Update(StoreOf(inv, c), id, patch, now).value.0
      && r.value.1 == Update(StoreOf(inv, c), id, patch, now).value.1
      && Find(StoreOf(r.value.0, c), id) == Some(r.value.1)
      && forall d :: d != c ==> StoreOf(r.value.0, d) == StoreOf(inv, d)
  {
    match Update(StoreOf(inv, c), id, patch, now)
    case None => None
    case Some((s, item)) => Some((WithStore(inv, c, s), item))
  }

  /** `deleteHosting`, `deleteDomain`, `deleteIntegration`: whether the id
      was present; nothing else changes. */
  function DeleteIn(inv: Inventory, c: Collection, id: string): (r: (Inventory, bool))
    requires c != Apps
    ensures r.1 <==> Has(StoreOf(inv, c), id)
    ensures !Has(StoreOf(r.0, c), id)
    ensures forall k :: k != id ==> Find(StoreOf(r.0, c), k) == Find(StoreOf(inv, c), k)
    ensures forall d :: d != c ==> StoreOf(r.0, d) == StoreOf(inv, d)
  {
    var (s, ok) := Remove(StoreOf(inv, c), id);
    (WithStore(inv, c, s), ok)
  }

  /** The cascade left exactly the records of other apps, unchanged. */
  ghost predicate Cascaded(before: Store, after: Store, appId: string) {
    && (forall k :: Has(after, k) <==> Has(before, k) && !BelongsTo(before.entries[k], Str(appId)))
    && (forall k :: Has(after, k) ==> Has(before, k) && after.entries[k] == before.entries[k])
  }

  /** `deleteApp`: whether the app existed; the app goes, and whether or
      not it existed, so do its hostings, domains and integrations. */
  function DeleteApp(inv: Inventory, id: string): (r: (Inventory, bool))
    ensures r.1 <==> Has(inv.apps, id)
    ensures !Has(r.0.apps, id)
    ensures forall k :: k != id ==> Find(r.0.apps, k) == Find(inv.apps, k)
    ensures Cascaded(inv.hostings, r.0.hostings, id)
    ensures Cascaded(inv.domains, r.0.domains, id)
    ensures Cascaded(inv.integrations, r.0.integrations, id)
  {
    var (apps, ok) := Remove(inv.apps, id);
    (Inventory(apps, PurgeApp(inv.hostings, id), PurgeApp(inv.domains, id), PurgeApp(inv.integrations, id)), ok)
  }

  /** After deleting an app none of its children is listed, and the
      children of every other app still are. */
  lemma DeleteAppOrphansNothing(inv: Inventory, id: string, c: Collection, other: JsValue)
    requires c != Apps && id != "" && Truthy(other) && other != Str(id)
    ensures ListIn(DeleteApp(inv, id).0, c, Str(id)) == []
    ensures forall x :: x in ListIn(inv, c, other) ==> x in ListIn(DeleteApp(inv, id).0, c, other)
  {
    var after := DeleteApp(inv, id).0;
    assert StoreOf(after, c) == PurgeApp(StoreOf(inv, c), id);
    PurgeAppLeavesNone(StoreOf(inv, c), id);
    forall x | x in ListIn(inv, c, other)
      ensures x in ListIn(after, c, other)
    {
      ListInExact(inv, c, other, x);
      var k :| Has(StoreOf(inv, c), k) && StoreOf(inv, c).entries[k] == x && BelongsTo(x, other);
      assert !BelongsTo(x, Str(id));
      assert Has(StoreOf(after, c), k);
      ListInExact(after, c, other, x);
    }
  }

  /** Replacing one store by a consistent one keeps the inventory
      consistent. */
  lemma WithConsistentStore(inv: Inventory, c: Collection, s: Store)
    requires Consistent(inv) && KeyedById(s)
    ensures Consistent(WithStore(inv, c, s))
  {
    forall d ensures KeyedById(StoreOf(WithStore(inv, c, s), d)) {
      if d != c { assert KeyedById(StoreOf(inv, d)); }
    }
  }

  lemma ConsistentOfParts(inv: Inventory)
    requires KeyedById(inv.apps) && KeyedById(inv.hostings) && KeyedById(inv.domains) && KeyedById(inv.integrations)
    ensures Consistent(inv)
  {
    forall d ensures KeyedById(StoreOf(inv, d)) {
    }
  }

  /** Creating keeps every record under its own id. */
  lemma CreateKeepsConsistent(inv: Inventory, c: Collection, input: Record, now: string, random: Random6)
    requires Consistent(inv)
    requires "id" !in input && "createdAt" !in input && "updatedAt" !in input
    ensures Consistent(CreateIn(inv, c, input, now, random).0)
  {
    assert KeyedById(StoreOf(inv, c));
    InsertKeepsKeyedById(StoreOf(inv, c), Prefix(c), input, now, random, true);
    WithConsistentStore(inv, c, Insert(StoreOf(inv, c), Prefix(c), input, now, random, true).0);
  }

  /** An update whose patch carries no `id` keeps every record under its
      own id. */
  lemma UpdateKeepsConsistent(inv: Inventory, c: Collection, id: string, patch: Record, now: string)
    requires Consistent(inv)
    requires "id" !in patch
    ensures UpdateIn(inv, c, id, patch, now).Some? ==> Consistent(UpdateIn(inv, c, id, patch, now).value.0)
  {
    assert KeyedById(StoreOf(inv, c));
    UpdateKeepsKeyedById(StoreOf(inv, c), id, patch, now);
    var u := Update(StoreOf(inv, c), id, patch, now);
    if u.Some? {
      WithConsistentStore(inv, c, u.value.0);
    }
  }

  /** Deleting a child keeps every remaining record under its own id. */
  lemma DeleteKeepsConsistent(inv: Inventory, c: Collection, id: string)
    requires Consistent(inv) && c != Apps
    ensures Consistent(DeleteIn(inv, c, id).0)
  {
    assert KeyedById(StoreOf(inv, c));
    RemoveKeepsKeyedById(StoreOf(inv, c), id);
    WithConsistentStore(inv, c, Remove(StoreOf(inv, c), id).0);
  }

  /** Deleting an app with its children keeps every remaining record under
      its own id. */
  lemma DeleteAppKeepsConsistent(inv: Inventory, id: string)
    requires Consistent(inv)
    ensures Consistent(DeleteApp(inv, id).0)
  {
    assert KeyedById(StoreOf(inv, Apps)) && KeyedById(StoreOf(inv, Hostings));
    assert KeyedById(StoreOf(inv, Domains)) && KeyedById(StoreOf(inv, Integrations));
    RemoveKeepsKeyedById(inv.apps, id);
    PurgeKeepsKeyedById(inv.hostings, id);
    PurgeKeepsKeyedById(inv.domains, id);
    PurgeKeepsKeyedById(inv.integrations, id);
    var after := DeleteApp(inv, id).0;
    assert after.apps == Remove(inv.apps, id).0;
    assert after.hostings == PurgeApp(inv.hostings, id);
    assert after.domains == PurgeApp(inv.domains, id);
    assert after.integrations == PurgeApp(inv.integrations, id);
    ConsistentOfParts(after);
  }
}
