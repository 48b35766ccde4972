/** The alerts view (apps/backend/src/modules/alerts/alerts.routes.ts): for
    every app, in listing order, one alert per kind of record the app has
    none of. It reads the inventory, subscription and attachment stores and
    changes nothing. */
module Alerts {
  import opened Wrappers
  import opened Js
  import opened OrderedMap
  import opened Routing
  import opened RecordStore
  import opened InventoryStore

  datatype Severity = Media | Alta

  /** The five kinds of record an app is expected to have. */
  datatype Kind = HostingKind | DomainKind | IntegrationKind | SubscriptionKind | AttachmentKind

  /** The order in which the checks run. */
  const Kinds: seq<Kind> := [HostingKind, DomainKind, IntegrationKind, SubscriptionKind, AttachmentKind]

  datatype Alert = Alert(appId: JsValue, severity: Severity, code: string, message: string)

  /** Every store the view reads. */
  datatype Stores = Stores(inv: Inventory, subs: Store, atts: Store)

  function Code(k: Kind): string {
    match k
    case HostingKind => "MISSING_HOSTING"
    case DomainKind => "MISSING_DOMAIN"
    case IntegrationKind => "MISSING_INTEGRATION"
    case SubscriptionKind => "MISSING_SUBSCRIPTION"
    case AttachmentKind => "MISSING_ATTACHMENT"
  }

  function Message(k: Kind): string {
    match k
    case HostingKind => "App sem hospedagem cadastrada"
    case DomainKind => "App sem dominio cadastrado"
    case IntegrationKind => "App sem integracoes IA/API"
    case SubscriptionKind => "App sem assinatura tecnica cadastrada"
    case AttachmentKind => "App sem anexos"
  }

  /** A missing hosting or domain is serious; the rest are moderate. */
  function SeverityOf(k: Kind): (s: Severity)
    ensures s == Alta <==> k == HostingKind || k == DomainKind
  {
    match k
    case HostingKind => Alta
    case DomainKind => Alta
    case _ => Media
  }

  /** The alert for one kind of one app. */
  function AlertOf(k: Kind, appId: JsValue): Alert {
    Alert(appId, SeverityOf(k), Code(k), Message(k))
  }

  /** The kind an alert code stands for. */
  function KindOfCode(code: string): (r: Option<Kind>) {
    if code == "MISSING_HOSTING" then Some(HostingKind)
    else if code == "MISSING_DOMAIN" then Some(DomainKind)
    else if code == "MISSING_INTEGRATION" then Some(IntegrationKind)
    else if code == "MISSING_SUBSCRIPTION" then Some(SubscriptionKind)
    else if code == "MISSING_ATTACHMENT" then Some(AttachmentKind)
    else None
  }

  /** Every code names its kind back, so no two kinds share a code. */
  lemma CodeRoundTrip(k: Kind)
    ensures KindOfCode(Code(k)) == Some(k)
  {
  }

  lemma AlertOfInjective(k: Kind, j: Kind, appId: JsValue, other: JsValue)
    ensures AlertOf(k, appId) == AlertOf(j, other) <==> k == j && appId == other
  {
    CodeRoundTrip(k);
    CodeRoundTrip(j);
  }

  /** The listing each check looks at, by the app's `id` field. */
  function Listing(st: Stores, k: Kind, appId: JsValue): seq<Record> {
    match k
    case HostingKind => ListIn(st.inv, Hostings, appId)
    case DomainKind => ListIn(st.inv, Domains, appId)
    case IntegrationKind => ListIn(st.inv, Integrations, appId)
    case SubscriptionKind => ListByApp(st.subs, appId)
    case AttachmentKind => ListByApp(st.atts, appId)
  }

  predicate Missing(st: Stores, k: Kind, appId: JsValue) {
    |Listing(st, k, appId)| == 0
  }

  /** The kinds whose listing for the app is empty. */
  function MissingSet(st: Stores, appId: JsValue): set<Kind> {
    set k: Kind | Missing(st, k, appId)
  }

  /** The kinds of a list that are missing, in the list's order: the
      checks that fire. */
  function InOrder(kinds: seq<Kind>, missing: set<Kind>): (r: seq<Kind>)
    ensures |r| <= |kinds|
    ensures forall k :: k in r <==> k in kinds && k in missing
    decreases |kinds|
  {
    if |kinds| == 0 then []
    else (if kinds[0] in missing then [kinds[0]] else []) + InOrder(kinds[1..], missing)
  }

  /** The checks keep their relative order: filtering a concatenation is
      the concatenation of the filtered parts. */
  lemma {:induction false} InOrderAppend(a: seq<Kind>, b: seq<Kind>, missing: set<Kind>)
    ensures InOrder(a + b, missing) == InOrder(a, missing) + InOrder(b, missing)
    decreases |a|
  {
    if |a| == 0 {
      assert a + b == b;
    } else {
      assert (a + b)[0] == a[0];
      assert (a + b)[1..] == a[1..] + b;
      InOrderAppend(a[1..], b, missing);
    }
  }

  /** The alerts of a list of kinds, in order. */
  function AlertsOf(kinds: seq<Kind>, appId: JsValue): (r: seq<Alert>)
    ensures |r| == |kinds|
    decreases |kinds|
  {
    if |kinds| == 0 then [] else [AlertOf(kinds[0], appId)] + AlertsOf(kinds[1..], appId)
  }

  /** The alerts name the app, one per listed kind. */
  lemma {:induction false} AlertsOfHas(kinds: seq<Kind>, appId: JsValue)
    ensures forall a :: a in AlertsOf(kinds, appId) ==> a.appId == appId
    ensures forall k :: AlertOf(k, appId) in AlertsOf(kinds, appId) <==> k in kinds
    decreases |kinds|
  {
    if |kinds| > 0 {
      AlertsOfHas(kinds[1..], appId);
      forall k ensures AlertOf(k, appId) == AlertOf(kinds[0], appId) <==> k == kinds[0] {
        AlertOfInjective(k, kinds[0], appId, appId);
      }
      assert forall k :: k in kinds <==> k == kinds[0] || k in kinds[1..];
    }
  }

  /** Every kind is checked. */
  lemma AllKindsChecked(k: Kind)
    ensures k in Kinds
  {
  }

  /** One check: the kind's alert when the check fires, else nothing. */
  function Fire(fires: bool, k: Kind, appId: JsValue): seq<Alert> {
    if fires then [AlertOf(k, appId)] else []
  }

  /** The five checks one after the other, each pushing its alert when it
      fires: hosting, domain, integration, subscription, attachment. */
  function Checks(appId: JsValue, hosting: bool, domain: bool, integration: bool, subscription: bool,
                  attachment: bool): seq<Alert> {
    Fire(hosting, HostingKind, appId) + (Fire(domain, DomainKind, appId) + (Fire(integration, IntegrationKind, appId)
    + (Fire(subscription, SubscriptionKind, appId) + Fire(attachment, AttachmentKind, appId))))
  }

  /** The checks of `Kinds`, in that order: one alert per missing kind. */
  function Raise(appId: JsValue, missing: set<Kind>): (r: seq<Alert>)
    ensures |r| <= 5
    ensures forall a :: a in r ==> a.appId == appId
    ensures r == Checks(appId, HostingKind in missing, DomainKind in missing, IntegrationKind in missing,
      SubscriptionKind in missing, AttachmentKind in missing)
  {
    AlertsOfHas(InOrder(Kinds, missing), appId);
    RaiseInCheckOrder(appId, missing);
    AlertsOf(InOrder(Kinds, missing), appId)
  }

  lemma {:induction false} AlertsOfAppend(a: seq<Kind>, b: seq<Kind>, appId: JsValue)
    ensures AlertsOf(a + b, appId) == AlertsOf(a, appId) + AlertsOf(b, appId)
    decreases |a|
  {
    if |a| == 0 {
      assert a + b == b;
    } else {
      assert (a + b)[0] == a[0];
      assert (a + b)[1..] == a[1..] + b;
      AlertsOfAppend(a[1..], b, appId);
    }
  }

  /** One check, then the rest. */
  lemma CheckStep(k: Kind, rest: seq<Kind>, missing: set<Kind>, appId: JsValue)
    ensures AlertsOf(InOrder([k] + rest, missing), appId) == Fire(k in missing, k, appId)
      + AlertsOf(InOrder(rest, missing), appId)
  {
    assert ([k] + rest)[1..] == rest;
    var head := if k in missing then [k] else [];
    assert InOrder([k] + rest, missing) == head + InOrder(rest, missing);
    AlertsOfAppend(head, InOrder(rest, missing), appId);
    assert head == [] || head[1..] == [];
  }

  lemma RaiseInCheckOrder(appId: JsValue, missing: set<Kind>)
    ensures AlertsOf(InOrder(Kinds, missing), appId) == Checks(appId, HostingKind in missing, DomainKind in missing,
      IntegrationKind in missing, SubscriptionKind in missing, AttachmentKind in missing)
  {
    var t4: seq<Kind> := [AttachmentKind];
    var t3 := [SubscriptionKind] + t4;
    var t2 := [IntegrationKind] + t3;
    var t1 := [DomainKind] + t2;
    assert Kinds == [HostingKind] + t1;
    var fa := Fire(AttachmentKind in missing, AttachmentKind, appId);
    CheckStep(AttachmentKind, [], missing, appId);
    assert t4 == [AttachmentKind] + [];
    assert AlertsOf(InOrder(t4, missing), appId) == fa;
    CheckStep(SubscriptionKind, t4, missing, appId);
    CheckStep(IntegrationKind, t3, missing, appId);
    CheckStep(DomainKind, t2, missing, appId);
    CheckStep(HostingKind, t1, missing, appId);
  }

  /** The alert of a kind is raised exactly when the kind is missing. */
  lemma RaiseHas(appId: JsValue, missing: set<Kind>, k: Kind)
    ensures AlertOf(k, appId) in Raise(appId, missing) <==> k in missing
  {
    AlertsOfHas(InOrder(Kinds, missing), appId);
    AllKindsChecked(k);
  }

  /** The alerts of one app. */
  function AppAlerts(st: Stores, app: Record): (r: seq<Alert>)
    ensures |r| <= 5
    ensures forall a :: a in r ==> a.appId == Get(app, "id")
    ensures var id := Get(app, "id");
      r == Checks(id, |ListIn(st.inv, Hostings, id)| == 0, |ListIn(st.inv, Domains, id)| == 0,
        |ListIn(st.inv, Integrations, id)| == 0, |ListByApp(st.subs, id)| == 0, |ListByApp(st.atts, id)| == 0)
  {
    MissingSetHas(st, Get(app, "id"));
    Raise(Get(app, "id"), MissingSet(st, Get(app, "id")))
  }

  /** A kind is in the missing set exactly when its listing is empty. */
  lemma MissingSetHas(st: Stores, id: JsValue)
    ensures HostingKind in MissingSet(st, id) <==> |ListIn(st.inv, Hostings, id)| == 0
    ensures DomainKind in MissingSet(st, id) <==> |ListIn(st.inv, Domains, id)| == 0
    ensures IntegrationKind in MissingSet(st, id) <==> |ListIn(st.inv, Integrations, id)| == 0
    ensures SubscriptionKind in MissingSet(st, id) <==> |ListByApp(st.subs, id)| == 0
    ensures AttachmentKind in MissingSet(st, id) <==> |ListByApp(st.atts, id)| == 0
  {
    MissingSetOne(st, id, HostingKind);
    MissingSetOne(st, id, DomainKind);
    MissingSetOne(st, id, IntegrationKind);
    MissingSetOne(st, id, SubscriptionKind);
    MissingSetOne(st, id, AttachmentKind);
  }

  lemma MissingSetOne(st: Stores, id: JsValue, k: Kind)
    ensures k in MissingSet(st, id) <==> |Listing(st, k, id)| == 0
  {
  }

  /** An app raises the alert of a kind exactly when it has no record of
      that kind. */
  lemma AppAlertsMissing(st: Stores, app: Record, k: Kind)
    ensures AlertOf(k, Get(app, "id")) in AppAlerts(st, app) <==> Missing(st, k, Get(app, "id"))
  {
    RaiseHas(Get(app, "id"), MissingSet(st, Get(app, "id")), k);
    assert k in MissingSet(st, Get(app, "id")) <==> Missing(st, k, Get(app, "id"));
  }

  /** An app with records of every kind raises no alert; one with none
      raises all five in check order, hosting and domain first, both
      serious. */
  lemma CompleteAppIsQuiet(st: Stores, app: Record)
    requires forall k :: !Missing(st, k, Get(app, "id"))
    ensures AppAlerts(st, app) == []
  {
    assert MissingSet(st, Get(app, "id")) == {};
    assert forall k :: k !in InOrder(Kinds, {});
  }

  lemma BareAppRaisesAll(st: Stores, app: Record)
    requires forall k :: Missing(st, k, Get(app, "id"))
    ensures AppAlerts(st, app) == [AlertOf(HostingKind, Get(app, "id")), AlertOf(DomainKind, Get(app, "id")),
      AlertOf(IntegrationKind, Get(app, "id")), AlertOf(SubscriptionKind, Get(app, "id")),
      AlertOf(AttachmentKind, Get(app, "id"))]
    ensures AppAlerts(st, app)[0].severity == Alta && AppAlerts(st, app)[1].severity == Alta
  {
    var id := Get(app, "id");
    var all := MissingSet(st, id);
    assert forall k :: k in all;
    InOrderAll(Kinds, all);
    AlertsOfFive(id);
  }

  /** With every kind missing, every check fires. */
  lemma {:induction false} InOrderAll(kinds: seq<Kind>, missing: set<Kind>)
    requires forall k :: k in missing
    ensures InOrder(kinds, missing) == kinds
    decreases |kinds|
  {
    if |kinds| > 0 {
      InOrderAll(kinds[1..], missing);
      assert [kinds[0]] + kinds[1..] == kinds;
    }
  }

  lemma AlertsOfFive(id: JsValue)
    ensures AlertsOf(Kinds, id) == [AlertOf(HostingKind, id), AlertOf(DomainKind, id), AlertOf(IntegrationKind, id),
      AlertOf(SubscriptionKind, id), AlertOf(AttachmentKind, id)]
  {
    var k4: seq<Kind> := [AttachmentKind];
    var k3 := [SubscriptionKind] + k4;
    var k2 := [IntegrationKind] + k3;
    var k1 := [DomainKind] + k2;
    assert Kinds == [HostingKind] + k1;
    AlertsOfCons(AttachmentKind, [], id);
    assert k4 == [AttachmentKind] + [];
    AlertsOfCons(SubscriptionKind, k4, id);
    AlertsOfCons(IntegrationKind, k3, id);
    AlertsOfCons(DomainKind, k2, id);
    AlertsOfCons(HostingKind, k1, id);
  }

  lemma AlertsOfCons(head: Kind, rest: seq<Kind>, id: JsValue)
    ensures AlertsOf([head] + rest, id) == [AlertOf(head, id)] + AlertsOf(rest, id)
  {
    assert ([head] + rest)[1..] == rest;
  }

  /** The concatenation of lists of alerts. */
  function Flatten(lists: seq<seq<Alert>>): seq<Alert>
    decreases |lists|
  {
    if |lists| == 0 then [] else lists[0] + Flatten(lists[1..])
  }

  lemma {:induction false} FlattenAppend(a: seq<seq<Alert>>, b: seq<seq<Alert>>)
    ensures Flatten(a + b) == Flatten(a) + Flatten(b)
    decreases |a|
  {
    if |a| == 0 {
      assert a + b == b;
    } else {
      assert (a + b)[1..] == a[1..] + b;
      FlattenAppend(a[1..], b);
    }
  }

  lemma {:induction false} FlattenHas(lists: seq<seq<Alert>>, x: Alert)
    ensures x in Flatten(lists) <==> exists i :: 0 <= i < |lists| && x in lists[i]
    decreases |lists|
  {
    if |lists| > 0 {
      FlattenHas(lists[1..], x);
      if x in Flatten(lists[1..]) {
        var i :| 0 <= i < |lists| - 1 && x in lists[1..][i];
        assert x in lists[i + 1];
      }
      if exists i :: 0 <= i < |lists| && x in lists[i] {
        var i :| 0 <= i < |lists| && x in lists[i];
        if i > 0 {
          assert x in lists[1..][i - 1];
        }
      }
    }
  }

  lemma {:induction false} FlattenBound(lists: seq<seq<Alert>>, n: nat)
    requires forall i :: 0 <= i < |lists| ==> |lists[i]| <= n
    ensures |Flatten(lists)| <= n * |lists|
    decreases |lists|
  {
    if |lists| > 0 {
      FlattenBound(lists[1..], n);
    }
  }

  /** A function applied to every element of a list, in order. */
  function MapSeq<A, B>(f: A -> B, xs: seq<A>): (r: seq<B>)
    ensures |r| == |xs|
    decreases |xs|
  {
    if |xs| == 0 then [] else [f(xs[0])] + MapSeq(f, xs[1..])
  }

  lemma {:induction false} MapSeqAt<A, B>(f: A -> B, xs: seq<A>, i: int)
    requires 0 <= i < |xs|
    ensures MapSeq(f, xs)[i] == f(xs[i])
    decreases |xs|
  {
    if i > 0 {
      MapSeqAt(f, xs[1..], i - 1);
      assert xs[1..][i - 1] == xs[i];
    }
  }

  lemma {:induction false} MapSeqAppend<A, B>(f: A -> B, a: seq<A>, b: seq<A>)
    ensures MapSeq(f, a + b) == MapSeq(f, a) + MapSeq(f, b)
    decreases |a|
  {
    if |a| == 0 {
      assert a + b == b;
    } else {
      assert (a + b)[0] == a[0];
      assert (a + b)[1..] == a[1..] + b;
      MapSeqAppend(f, a[1..], b);
    }
  }

  /** The per-app alert lists, in the apps' order. */
  function PerApp(st: Stores, apps: seq<Record>): (r: seq<seq<Alert>>)
    ensures |r| == |apps|
  {
    MapSeq((app: Record) => AppAlerts(st, app), apps)
  }

  lemma PerAppAt(st: Stores, apps: seq<Record>, i: int)
    requires 0 <= i < |apps|
    ensures PerApp(st, apps)[i] == AppAlerts(st, apps[i])
  {
    MapSeqAt((app: Record) => AppAlerts(st, app), apps, i);
  }

  lemma PerAppAppend(st: Stores, a: seq<Record>, b: seq<Record>)
    ensures PerApp(st, a + b) == PerApp(st, a) + PerApp(st, b)
  {
    MapSeqAppend((app: Record) => AppAlerts(st, app), a, b);
  }

  /** `apps.flatMap(appAlerts)`. */
  function AllAlerts(st: Stores, apps: seq<Record>): (r: seq<Alert>)
    ensures |apps| == 0 ==> r == []
    ensures |apps| > 0 ==> r == AppAlerts(st, apps[0]) + AllAlerts(st, apps[1..])
    decreases |apps|
  {
    PerAppCons(st, apps);
    Flatten(PerApp(st, apps))
  }

  lemma PerAppCons(st: Stores, apps: seq<Record>)
    ensures |apps| > 0 ==> Flatten(PerApp(st, apps)) == AppAlerts(st, apps[0]) + Flatten(PerApp(st, apps[1..]))
  {
    if |apps| > 0 {
      PerAppAt(st, apps, 0);
      PerAppAppend(st, [apps[0]], apps[1..]);
      assert [apps[0]] + apps[1..] == apps;
      assert PerApp(st, apps)[1..] == PerApp(st, apps[1..]);
    }
  }

  /** The flattening keeps the apps' order: the alerts of a concatenation
      of app lists are the concatenation of their alerts. */
  lemma AllAlertsAppend(st: Stores, a: seq<Record>, b: seq<Record>)
    ensures AllAlerts(st, a + b) == AllAlerts(st, a) + AllAlerts(st, b)
  {
    PerAppAppend(st, a, b);
    FlattenAppend(PerApp(st, a), PerApp(st, b));
  }

  /** `GET /alerts`: any authenticated user; the alerts of every app in
      listing order, at most five per app, each naming a listed app. */
  function AlertsRoute(st: Stores): (o: Outcome<Stores, seq<Alert>>)
    ensures o.state == st && o.events == [] && o.reply.Ok? && o.reply.status == 200
    ensures o.reply.body == AllAlerts(st, Values(st.inv.apps))
    ensures |o.reply.body| <= 5 * Size(st.inv.apps)
    ensures forall a :: a in o.reply.body ==> exists x :: x in Values(st.inv.apps) && a.appId == Get(x, "id")
  {
    var apps := Values(st.inv.apps);
    var lists := PerApp(st, apps);
    forall i | 0 <= i < |lists|
      ensures lists[i] == AppAlerts(st, apps[i])
    {
      PerAppAt(st, apps, i);
    }
    FlattenBound(lists, 5);
    assert forall a :: a in Flatten(lists) ==> exists x :: x in apps && a.appId == Get(x, "id") by {
      forall a | a in Flatten(lists)
        ensures exists x :: x in apps && a.appId == Get(x, "id")
      {
        FlattenHas(lists, a);
        var i :| 0 <= i < |lists| && a in lists[i];
        assert apps[i] in apps;
      }
    }
    Outcome(st, [], Ok(200, Flatten(lists)))
  }

  /** For a stored app the view holds the alert of a kind exactly when the
      app has no record of that kind. */
  lemma AlertIffMissing(st: Stores, id: string, k: Kind)
    requires Has(st.inv.apps, id)
    ensures var appId := Get(st.inv.apps.entries[id], "id");
      AlertOf(k, appId) in AlertsRoute(st).reply.body <==> Missing(st, k, appId)
  {
    var appId := Get(st.inv.apps.entries[id], "id");
    var apps := Values(st.inv.apps);
    var lists := PerApp(st, apps);
    assert AlertsRoute(st).reply.body == Flatten(lists);
    InValues(st.inv.apps, st.inv.apps.entries[id]);
    var j :| 0 <= j < |apps| && apps[j] == st.inv.apps.entries[id];
    FlattenHas(lists, AlertOf(k, appId));
    AppAlertsMissing(st, apps[j], k);
    PerAppAt(st, apps, j);
    if AlertOf(k, appId) in Flatten(lists) {
      var i :| 0 <= i < |lists| && AlertOf(k, appId) in lists[i];
      PerAppAt(st, apps, i);
      assert AppAlerts(st, apps[i]) == AppAlerts(st, apps[j]);
    }
  }

  /** In a consistent inventory every alert names a stored app by its key. */
  lemma AlertsNameStoredApps(st: Stores, a: Alert)
    requires Consistent(st.inv) && a in AlertsRoute(st).reply.body
    ensures exists k :: Has(st.inv.apps, k) && a.appId == Str(k)
  {
    var x :| x in Values(st.inv.apps) && a.appId == Get(x, "id");
    assert KeyedById(StoreOf(st.inv, Apps));
    StoredIdIsKey(st.inv.apps, x);
  }

  lemma StoredIdIsKey(s: Store, x: Record)
    requires KeyedById(s) && x in Values(s)
    ensures exists k :: Has(s, k) && Get(x, "id") == Str(k)
  {
    InValues(s, x);
  }
}
