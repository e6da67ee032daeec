/**
  The quota reconciler: what a quota counts, whether it applies to a namespace, its limits under a
  time window, and the projection that decides whether one more ticket fits.
 */
module QuotaController {
  import opened Common
  import opened Conditions
  import opened Lists
  import opened Resources
  import opened TicketModel
  import opened TicketWebhook
  import opened QuotaModel

  // ---------------------------------------------------------------- What is in scope

  datatype Scoped = Scoped(orders: seq<Item>, daemonOrders: seq<Item>, cronOrders: seq<Item>, tickets: seq<Ticket>)

  const NOTHING := Scoped([], [], [], [])

  /** The names of the namespaces that `getNamespacesMatchingSelector` lists. */
  function MatchingNames(all: seq<Namespace>, s: LabelSelector): seq<string> {
    if all == [] then []
    else
      var front, last := MatchingNames(all[..|all| - 1], s), all[|all| - 1];
      if Matches(s, last.labels) then front + [last.name] else front
  }

  function Within(o: Objects, names: seq<string>): Scoped {
    Scoped(InNamespaces(o.orders, ItemNs, names),
           InNamespaces(o.daemonOrders, ItemNs, names),
           InNamespaces(o.cronOrders, ItemNs, names),
           InNamespaces(o.tickets, TicketNs, names))
  }

  function Selected(o: Objects, s: LabelSelector): Scoped {
    Scoped(WithLabels(o.orders, ItemLabels, s),
           WithLabels(o.daemonOrders, ItemLabels, s),
           WithLabels(o.cronOrders, ItemLabels, s),
           WithLabels(o.tickets, TicketLabels, s))
  }

  /** `getResourcesInScope`; `None` is the error of a selector that is not well formed. */
  function InScope(o: Objects, s: Scope): Option<Scoped> {
    match s
    case Cluster => Some(Scoped(o.orders, o.daemonOrders, o.cronOrders, o.tickets))
    case NamespaceList(names) => Some(Within(o, names))
    case NamespaceSelector(None) => Some(NOTHING)
    case NamespaceSelector(Some(sel)) =>
      if WellFormed(sel) then Some(Within(o, MatchingNames(o.namespaces, sel))) else None
    case ObjectSelector(None) => Some(NOTHING)
    case ObjectSelector(Some(sel)) =>
      if WellFormed(sel) then Some(Selected(o, sel)) else None
  }

  method ListNamespaces(o: Objects, names: seq<string>) returns (r: Scoped)
    ensures r == Within(o, names)
  {
    r := NOTHING;
    var i := 0;
    while i < |names|
      invariant 0 <= i <= |names|
      invariant r == Within(o, names[..i])
    {
      assert names[..i + 1][..i] == names[..i];
      r := Scoped(r.orders + InNamespace(o.orders, ItemNs, names[i]),
                  r.daemonOrders + InNamespace(o.daemonOrders, ItemNs, names[i]),
                  r.cronOrders + InNamespace(o.cronOrders, ItemNs, names[i]),
                  r.tickets + InNamespace(o.tickets, TicketNs, names[i]));
      i := i + 1;
    }
    assert names[..|names|] == names;
  }

  method GetResourcesInScope(o: Objects, s: Scope) returns (r: Option<Scoped>)
    ensures r == InScope(o, s)
  {
    match s
    case Cluster =>
      r := Some(Scoped(o.orders, o.daemonOrders, o.cronOrders, o.tickets));
    case NamespaceList(names) =>
      var found := ListNamespaces(o, names);
      r := Some(found);
    case NamespaceSelector(selector) =>
      if selector.None? {
        r := Some(NOTHING);
      } else if !WellFormed(selector.value) {
        r := None;
      } else {
        var found := ListNamespaces(o, MatchingNames(o.namespaces, selector.value));
        r := Some(found);
      }
    case ObjectSelector(selector) =>
      if selector.None? {
        r := Some(NOTHING);
      } else if !WellFormed(selector.value) {
        r := None;
      } else {
        r := Some(Selected(o, selector.value));
      }
  }

  // ---------------------------------------------------------------- Usage

  const RESERVED_CPU := "reserved.cpu"
  const RESERVED_MEMORY := "reserved.memory"

  /** What one ticket adds to a resource that usage tracks by tickets. */
  function Weight(t: Ticket, n: string): real {
    if n == TICKETS then 1.0
    else if n == RESERVED_CPU then Read(Stated(t), "cpu")
    else if n == RESERVED_MEMORY then Read(Stated(t), "memory")
    else 0.0
  }

  function Total(tickets: seq<Ticket>, n: string): real {
    if tickets == [] then 0.0
    else Total(tickets[..|tickets| - 1], n) + Weight(tickets[|tickets| - 1], n)
  }

  /** Usage sums these over tickets. */
  predicate ByTicket(n: string) {
    n == TICKETS || n == RESERVED_CPU || n == RESERVED_MEMORY
  }

  /** Usage counts these over orders. */
  predicate ByOrder(n: string) {
    n == "orders" || n == "orders.regular" || n == "orders.daemon" || n == "orders.cron"
  }

  /** The names that are ever found in a usage. */
  predicate Tracked(n: string) {
    ByTicket(n) || ByOrder(n)
  }

  const NAMES: seq<string> :=
    ["orders", "orders.regular", "orders.daemon", "orders.cron", TICKETS, RESERVED_CPU, RESERVED_MEMORY]

  function OrderCount(x: Scoped, n: string): nat {
    if n == "orders" then |x.orders| + |x.daemonOrders| + |x.cronOrders|
    else if n == "orders.regular" then |x.orders|
    else if n == "orders.daemon" then |x.daemonOrders|
    else |x.cronOrders|
  }

  function Measure(x: Scoped, n: string): real {
    if ByTicket(n) then Total(x.tickets, n) else OrderCount(x, n) as real
  }

  /** Usage is sparse: what measures zero is left out. */
  function UsageOver(x: Scoped, names: seq<string>): ResourceList {
    if names == [] then map[]
    else
      var front, n := UsageOver(x, names[..|names| - 1]), names[|names| - 1];
      if Measure(x, n) != 0.0 then front[n := Measure(x, n)] else front
  }

  function UsageOf(x: Scoped): ResourceList {
    UsageOver(x, NAMES)
  }

  /** `calculateResourceUsage`. */
  function Usage(o: Objects, s: Scope): Option<ResourceList> {
    if InScope(o, s).Some? then Some(UsageOf(InScope(o, s).value)) else None
  }

  lemma {:induction false} TicketsTotalTheirNumber(tickets: seq<Ticket>)
    ensures Total(tickets, TICKETS) == |tickets| as real
  {
    if tickets != [] {
      TicketsTotalTheirNumber(tickets[..|tickets| - 1]);
    }
  }

  /** The loop over the tickets of a scope. */
  method SumRequests(tickets: seq<Ticket>) returns (totalCPU: real, totalMemory: real)
    ensures totalCPU == Total(tickets, RESERVED_CPU) && totalMemory == Total(tickets, RESERVED_MEMORY)
  {
    totalCPU, totalMemory := 0.0, 0.0;
    var i := 0;
    while i < |tickets|
      invariant 0 <= i <= |tickets|
      invariant totalCPU == Total(tickets[..i], RESERVED_CPU)
      invariant totalMemory == Total(tickets[..i], RESERVED_MEMORY)
    {
      assert tickets[..i + 1][..i] == tickets[..i];
      var ticket := tickets[i];
      if ticket.spec.resources.Some? {
        var requests := OrEmpty(ticket.spec.resources.value.requests);
        if "cpu" in requests {
          totalCPU := totalCPU + requests["cpu"];
        }
        if "memory" in requests {
          totalMemory := totalMemory + requests["memory"];
        }
      }
      i := i + 1;
    }
    assert tickets[..|tickets|] == tickets;
  }

  lemma OneMoreName(x: Scoped, names: seq<string>, n: string)
    ensures UsageOver(x, names + [n]) ==
            if Measure(x, n) != 0.0 then UsageOver(x, names)[n := Measure(x, n)] else UsageOver(x, names)
  {
    assert (names + [n])[..|names|] == names;
  }

  lemma CountsMeasured(x: Scoped)
    ensures Measure(x, "orders") == (|x.orders| + |x.daemonOrders| + |x.cronOrders|) as real
    ensures Measure(x, "orders.regular") == |x.orders| as real
    ensures Measure(x, "orders.daemon") == |x.daemonOrders| as real
    ensures Measure(x, "orders.cron") == |x.cronOrders| as real
  {
  }

  method CountOrders(x: Scoped) returns (usage: ResourceList)
    ensures usage == UsageOver(x, NAMES[..4])
  {
    usage := map[];
    CountsMeasured(x);
    ghost var names: seq<string> := [];

    OneMoreName(x, names, "orders");
    var total := |x.orders| + |x.daemonOrders| + |x.cronOrders|;
    if total > 0 { usage := usage["orders" := total as real]; }
    names := names + ["orders"];

    OneMoreName(x, names, "orders.regular");
    if |x.orders| > 0 { usage := usage["orders.regular" := |x.orders| as real]; }
    names := names + ["orders.regular"];

    OneMoreName(x, names, "orders.daemon");
    if |x.daemonOrders| > 0 { usage := usage["orders.daemon" := |x.daemonOrders| as real]; }
    names := names + ["orders.daemon"];

    OneMoreName(x, names, "orders.cron");
    if |x.cronOrders| > 0 { usage := usage["orders.cron" := |x.cronOrders| as real]; }
    assert names + ["orders.cron"] == NAMES[..4];
  }

  method CalculateResourceUsage(o: Objects, s: Scope) returns (r: Option<ResourceList>)
    ensures r == Usage(o, s)
  {
    var scoped := GetResourcesInScope(o, s);
    if scoped.None? {
      return None;
    }
    var x := scoped.value;
    var usage := CountOrders(x);
    ghost var names := NAMES[..4];

    TicketsTotalTheirNumber(x.tickets);
    OneMoreName(x, names, TICKETS);
    if |x.tickets| > 0 { usage := usage[TICKETS := |x.tickets| as real]; }
    names := names + [TICKETS];

    var totalCPU, totalMemory := SumRequests(x.tickets);
    OneMoreName(x, names, RESERVED_CPU);
    if totalCPU != 0.0 { usage := usage[RESERVED_CPU := totalCPU]; }
    names := names + [RESERVED_CPU];

    OneMoreName(x, names, RESERVED_MEMORY);
    if totalMemory != 0.0 { usage := usage[RESERVED_MEMORY := totalMemory]; }
    assert names + [RESERVED_MEMORY] == NAMES;
    return Some(usage);
  }

  // ---------------------------------------------------------------- Does the quota apply

  /** `Get` of a namespace by name. */
  function GetNamespace(all: seq<Namespace>, name: string): Option<Namespace> {
    if all == [] then None
    else if all[|all| - 1].name == name then Some(all[|all| - 1])
    else GetNamespace(all[..|all| - 1], name)
  }

  /** `doesQuotaApply`. */
  predicate Applies(o: Objects, s: Scope, ns: string) {
    match s
    case Cluster => true
    case NamespaceList(names) => ns in names
    case NamespaceSelector(selector) =>
      var found := GetNamespace(o.namespaces, ns);
      found.Some? && selector.Some? && WellFormed(selector.value) && Matches(selector.value, found.value.labels)
    case ObjectSelector(_) => false
  }

  /** How often a ticket with these coordinates is counted. */
  function Times(o: Objects, s: Scope, t: Ticket): nat {
    match s
    case Cluster => 1
    case NamespaceList(names) => multiset(names)[t.key.ns]
    case NamespaceSelector(None) => 0
    case NamespaceSelector(Some(sel)) => multiset(MatchingNames(o.namespaces, sel))[t.key.ns]
    case ObjectSelector(None) => 0
    case ObjectSelector(Some(sel)) => if Matches(sel, t.meta.labels) then 1 else 0
  }

  /** Namespaces are cluster-scoped objects: no two share a name. */
  ghost predicate DistinctNamespaces(all: seq<Namespace>) {
    forall i, j :: 0 <= i < j < |all| ==> all[i].name != all[j].name
  }

  lemma {:induction false} AbsentNamespace(all: seq<Namespace>, s: LabelSelector, name: string)
    requires forall i :: 0 <= i < |all| ==> all[i].name != name
    ensures GetNamespace(all, name) == None && multiset(MatchingNames(all, s))[name] == 0
  {
    if all != [] {
      AbsentNamespace(all[..|all| - 1], s, name);
    }
  }

  /** Looking a namespace up and listing the matching ones tell the same. */
  lemma {:induction false} LookupAgreesWithListing(all: seq<Namespace>, s: LabelSelector, name: string)
    requires DistinctNamespaces(all)
    ensures multiset(MatchingNames(all, s))[name] ==
            if GetNamespace(all, name).Some? && Matches(s, GetNamespace(all, name).value.labels) then 1 else 0
  {
    if all != [] {
      var front, last := all[..|all| - 1], all[|all| - 1];
      if last.name == name {
        AbsentNamespace(front, s, name);
      } else {
        LookupAgreesWithListing(front, s, name);
      }
    }
  }

  /** Outside object selectors, a quota applies to a namespace exactly when it counts its tickets. */
  lemma AppliesMeansCounted(o: Objects, s: Scope, t: Ticket)
    requires DistinctNamespaces(o.namespaces) && !s.ObjectSelector? && InScope(o, s).Some?
    ensures Applies(o, s, t.key.ns) <==> Times(o, s, t) > 0
    ensures ScopeWithoutDuplicates(s) ==> Times(o, s, t) <= 1
  {
    match s
    case Cluster =>
    case NamespaceList(names) =>
      if NoDuplicates(names) {
        CountWithoutDuplicates(names, t.key.ns);
      }
    case NamespaceSelector(None) =>
    case NamespaceSelector(Some(sel)) =>
      LookupAgreesWithListing(o.namespaces, sel, t.key.ns);
  }

  /** A quota with an object selector counts tickets but never applies, so it never refuses one. */
  lemma ObjectSelectorCountsWithoutApplying(o: Objects, sel: LabelSelector, t: Ticket)
    requires Matches(sel, t.meta.labels)
    ensures Times(o, ObjectSelector(Some(sel)), t) == 1 && !Applies(o, ObjectSelector(Some(sel)), t.key.ns)
  {
  }

  // ---------------------------------------------------------------- Which orders are counted

  /** The object is in the quota's scope: by its own labels, or by its namespace. */
  predicate Belongs(o: Objects, s: Scope, i: Item) {
    match s
    case ObjectSelector(None) => false
    case ObjectSelector(Some(sel)) => Matches(sel, i.labels)
    case _ => Applies(o, s, i.ns)
  }

  /** How many of these are in scope. */
  function CountIn(all: seq<Item>, o: Objects, s: Scope): nat {
    if all == [] then 0
    else CountIn(all[..|all| - 1], o, s) + if Belongs(o, s, all[|all| - 1]) then 1 else 0
  }

  lemma {:induction false} CountInObjects(all: seq<Item>, o: Objects, sel: LabelSelector)
    ensures CountIn(all, o, ObjectSelector(Some(sel))) == |WithLabels(all, ItemLabels, sel)|
    ensures CountIn(all, o, ObjectSelector(None)) == 0
  {
    if all != [] {
      WithLabelsStep(all, ItemLabels, sel);
      CountInObjects(all[..|all| - 1], o, sel);
    }
  }

  lemma {:induction false} CountInCluster(all: seq<Item>, o: Objects)
    ensures CountIn(all, o, Cluster) == |all|
  {
    if all != [] {
      CountInCluster(all[..|all| - 1], o);
    }
  }

  lemma {:induction false} CountInList(all: seq<Item>, o: Objects, names: seq<string>)
    requires NoDuplicates(names)
    ensures CountIn(all, o, NamespaceList(names)) == Tally(all, ItemNs, NamespaceList(names))
  {
    if all != [] {
      CountInList(all[..|all| - 1], o, names);
      CountWithoutDuplicates(names, all[|all| - 1].ns);
    }
  }

  lemma {:induction false} CountInSelector(all: seq<Item>, o: Objects, sel: LabelSelector)
    requires DistinctNamespaces(o.namespaces) && WellFormed(sel)
    ensures CountIn(all, o, NamespaceSelector(Some(sel)))
            == Tally(all, ItemNs, NamespaceList(MatchingNames(o.namespaces, sel)))
  {
    if all != [] {
      CountInSelector(all[..|all| - 1], o, sel);
      LookupAgreesWithListing(o.namespaces, sel, all[|all| - 1].ns);
    }
  }

  lemma {:induction false} CountInNone(all: seq<Item>, o: Objects)
    ensures CountIn(all, o, NamespaceSelector(None)) == 0
  {
    if all != [] {
      CountInNone(all[..|all| - 1], o);
    }
  }

  /** The objects of one kind that a scope lists. */
  function Listed(all: seq<Item>, o: Objects, s: Scope): seq<Item> {
    match s
    case Cluster => all
    case NamespaceList(names) => InNamespaces(all, ItemNs, names)
    case NamespaceSelector(None) => []
    case NamespaceSelector(Some(sel)) => InNamespaces(all, ItemNs, MatchingNames(o.namespaces, sel))
    case ObjectSelector(None) => []
    case ObjectSelector(Some(sel)) => WithLabels(all, ItemLabels, sel)
  }

  lemma ListedIsCountIn(all: seq<Item>, o: Objects, s: Scope)
    requires DistinctNamespaces(o.namespaces) && ScopeWithoutDuplicates(s)
    requires InScope(o, s).Some?
    ensures |Listed(all, o, s)| == CountIn(all, o, s)
  {
    match s
    case Cluster => CountInCluster(all, o);
    case NamespaceList(names) =>
      CountInList(all, o, names);
      ListedIsTally(all, ItemNs, names);
    case NamespaceSelector(None) => CountInNone(all, o);
    case NamespaceSelector(Some(sel)) =>
      CountInSelector(all, o, sel);
      ListedIsTally(all, ItemNs, MatchingNames(o.namespaces, sel));
    case ObjectSelector(None) => CountInObjects(all, o, LabelSelector(map[], []));
    case ObjectSelector(Some(sel)) => CountInObjects(all, o, sel);
  }

  /** Usage counts, of each kind of order, those in scope, each once, and their sum. */
  lemma UsageCountsOrders(o: Objects, s: Scope)
    requires DistinctNamespaces(o.namespaces) && ScopeWithoutDuplicates(s)
    requires Usage(o, s).Some?
    ensures
      var u := Usage(o, s).value;
      && Read(u, "orders.regular") == CountIn(o.orders, o, s) as real
      && Read(u, "orders.daemon") == CountIn(o.daemonOrders, o, s) as real
      && Read(u, "orders.cron") == CountIn(o.cronOrders, o, s) as real
      && Read(u, "orders") ==
         (CountIn(o.orders, o, s) + CountIn(o.daemonOrders, o, s) + CountIn(o.cronOrders, o, s)) as real
  {
    var x := InScope(o, s).value;
    ListedIsCountIn(o.orders, o, s);
    ListedIsCountIn(o.daemonOrders, o, s);
    ListedIsCountIn(o.cronOrders, o, s);
    CountsMeasured(x);
    ReadUsage(x, "orders");
    ReadUsage(x, "orders.regular");
    ReadUsage(x, "orders.daemon");
    ReadUsage(x, "orders.cron");
  }

  // ---------------------------------------------------------------- One more ticket

  /** The cluster with one more ticket, wherever it comes in the lists. */
  function WithTicket(o: Objects, at: nat, t: Ticket): Objects
    requires at <= |o.tickets|
  {
    o.(tickets := Insert(o.tickets, at, t))
  }

  lemma {:induction false} TotalAppend(a: seq<Ticket>, b: seq<Ticket>, n: string)
    ensures Total(a + b, n) == Total(a, n) + Total(b, n)
    decreases |b|
  {
    if b == [] {
      assert a + b == a;
    } else {
      TotalAppend(a, b[..|b| - 1], n);
      assert (a + b)[..|a + b| - 1] == a + b[..|b| - 1];
    }
  }

  lemma TotalOfThree(a: seq<Ticket>, t: Ticket, kept: bool, b: seq<Ticket>, n: string)
    ensures Total(a + (if kept then [t] else []) + b, n) == Total(a + b, n) + if kept then Weight(t, n) else 0.0
  {
    TotalAppend(a, b, n);
    TotalAppend(a + (if kept then [t] else []), b, n);
    if kept {
      assert (a + [t])[..|a|] == a;
    } else {
      assert a + [] == a;
    }
  }

  /** One namespace's sum, with one more ticket. */
  lemma TotalInNamespace(s: seq<Ticket>, at: nat, t: Ticket, name: string, n: string)
    requires at <= |s|
    ensures Total(InNamespace(Insert(s, at, t), TicketNs, name), n) ==
            Total(InNamespace(s, TicketNs, name), n) + if t.key.ns == name then Weight(t, n) else 0.0
  {
    InNamespaceInserted(s, at, t, TicketNs, name);
    TotalOfThree(InNamespace(s[..at], TicketNs, name), t, TicketNs(t) == name, InNamespace(s[at..], TicketNs, name), n);
  }

  lemma CountSnoc(names: seq<string>, last: string, name: string)
    ensures multiset(names + [last])[name] == multiset(names)[name] + if name == last then 1 else 0
  {
  }

  /** The sum over a list of namespaces is the sum over its front and over its last. */
  lemma TotalOfNames(s: seq<Ticket>, front: seq<string>, last: string, n: string)
    ensures Total(InNamespaces(s, TicketNs, front + [last]), n) ==
            Total(InNamespaces(s, TicketNs, front), n) + Total(InNamespace(s, TicketNs, last), n)
  {
    assert (front + [last])[..|front|] == front;
    TotalAppend(InNamespaces(s, TicketNs, front), InNamespace(s, TicketNs, last), n);
  }

  lemma {:induction false} TotalInNamespaces(s: seq<Ticket>, at: nat, t: Ticket, names: seq<string>, n: string)
    requires at <= |s|
    ensures Total(InNamespaces(Insert(s, at, t), TicketNs, names), n) ==
            Total(InNamespaces(s, TicketNs, names), n) + Repeated(multiset(names)[t.key.ns], Weight(t, n))
  {
    if names != [] {
      var front, last := names[..|names| - 1], names[|names| - 1];
      assert names == front + [last];
      TotalInNamespaces(s, at, t, front, n);
      TotalInNamespace(s, at, t, last, n);
      TotalOfNames(s, front, last, n);
      TotalOfNames(Insert(s, at, t), front, last, n);
      CountSnoc(front, last, t.key.ns);
    }
  }

  lemma ReadUsage(x: Scoped, n: string)
    ensures Read(UsageOf(x), n) == if Tracked(n) then Measure(x, n) else 0.0
    ensures n in UsageOf(x) ==> Tracked(n)
  {
    ReadUsageOver(x, NAMES, n);
    NamesAreTracked(n);
  }

  lemma NamesAreTracked(n: string)
    ensures n in NAMES <==> Tracked(n)
  {
  }

  lemma {:induction false} ReadUsageOver(x: Scoped, names: seq<string>, n: string)
    ensures Read(UsageOver(x, names), n) == if n in names then Measure(x, n) else 0.0
    ensures n in UsageOver(x, names) ==> n in names && UsageOver(x, names)[n] != 0.0
  {
    if names != [] {
      ReadUsageOver(x, names[..|names| - 1], n);
    }
  }

  /** Only tracked resources are listed, and none of them at zero. */
  ghost predicate Sparse(u: ResourceList) {
    forall n :: n in u ==> Tracked(n) && u[n] != 0.0
  }

  lemma UsageIsSparse(o: Objects, s: Scope)
    requires Usage(o, s).Some?
    ensures Sparse(Usage(o, s).value)
  {
    var x := InScope(o, s).value;
    forall n | n in UsageOf(x) ensures Tracked(n) && UsageOf(x)[n] != 0.0 {
      ReadUsageOver(x, NAMES, n);
      NamesAreTracked(n);
    }
  }

  /** Sparse lists are known by what is read from them. */
  lemma SparseByReading(u: ResourceList, v: ResourceList)
    requires Sparse(u) && Sparse(v) && forall n :: Read(u, n) == Read(v, n)
    ensures u == v
  {
    forall n ensures n in u <==> n in v {
      assert Read(u, n) == Read(v, n);
    }
    assert u.Keys == v.Keys;
    assert forall n :: n in u ==> Read(u, n) == Read(v, n);
  }

  /** Less usage stays within limits. */
  lemma LessStaysWithin(less: ResourceList, more: ResourceList, limits: ResourceList)
    requires Sparse(less) && forall n :: Read(less, n) <= Read(more, n)
    requires forall n :: n in limits ==> limits[n] >= 0.0
    requires !Exceeded(more, limits)
    ensures !Exceeded(less, limits)
  {
    forall n | n in limits && n in less ensures less[n] <= limits[n] {
      assert Read(less, n) <= Read(more, n);
    }
  }

  /** One more ticket changes the sum over the scope by the ticket's weight, as often as it is counted. */
  lemma ScopeGrows(o: Objects, s: Scope, at: nat, t: Ticket, n: string)
    requires at <= |o.tickets| && InScope(o, s).Some?
    ensures var o' := WithTicket(o, at, t);
      && InScope(o', s).Some?
      && InScope(o', s).value == InScope(o, s).value.(tickets := InScope(o', s).value.tickets)
      && Total(InScope(o', s).value.tickets, n) ==
         Total(InScope(o, s).value.tickets, n) + Repeated(Times(o, s, t), Weight(t, n))
  {
    match s
    case Cluster =>
      assert o.tickets == o.tickets[..at] + o.tickets[at..];
      TotalOfThree(o.tickets[..at], t, true, o.tickets[at..], n);
    case NamespaceList(names) => TotalInNamespaces(o.tickets, at, t, names, n);
    case NamespaceSelector(None) =>
    case NamespaceSelector(Some(sel)) => TotalInNamespaces(o.tickets, at, t, MatchingNames(o.namespaces, sel), n);
    case ObjectSelector(None) =>
    case ObjectSelector(Some(sel)) => SelectionGrows(o, sel, at, t, n);
  }

  lemma SelectionGrows(o: Objects, sel: LabelSelector, at: nat, t: Ticket, n: string)
    requires at <= |o.tickets|
    ensures Total(Selected(WithTicket(o, at, t), sel).tickets, n) ==
            Total(Selected(o, sel).tickets, n) + if Matches(sel, t.meta.labels) then Weight(t, n) else 0.0
  {
    WithLabelsInserted(o.tickets, at, t, TicketLabels, sel);
    TotalOfThree(WithLabels(o.tickets[..at], TicketLabels, sel), t, Matches(sel, t.meta.labels),
                 WithLabels(o.tickets[at..], TicketLabels, sel), n);
  }

  /** What usage sums over tickets is what each ticket asks for; it asks for no orders. */
  lemma WeightIsRequest(t: Ticket, n: string)
    ensures ByTicket(n) ==> Weight(t, n) == Read(TicketRequests(t), n)
    ensures ByOrder(n) ==> n !in TicketRequests(t)
  {
    if n == TICKETS {
      TicketAsksFor(t, n);
    } else if n == RESERVED_CPU {
      CpuIsRequest(t);
    } else if n == RESERVED_MEMORY {
      MemoryIsRequest(t);
    } else if ByOrder(n) {
      assert n[0] == 'o' && TICKETS[0] == 't';
      NotReserved(Stated(t), n);
    }
  }

  lemma CpuIsRequest(t: Ticket)
    ensures Weight(t, RESERVED_CPU) == Read(TicketRequests(t), RESERVED_CPU)
  {
    ReservedCpu();
    ReadReserved(Stated(t), "cpu");
    assert Read(TicketRequests(t), RESERVED_CPU) == Read(Reserved(Stated(t)), RESERVED_CPU);
  }

  lemma ReservedCpu()
    ensures RESERVED + "cpu" == RESERVED_CPU
  {
  }

  lemma ReservedMemory()
    ensures RESERVED + "memory" == RESERVED_MEMORY
  {
  }

  lemma MemoryIsRequest(t: Ticket)
    ensures Weight(t, RESERVED_MEMORY) == Read(TicketRequests(t), RESERVED_MEMORY)
  {
    ReservedMemory();
    ReadReserved(Stated(t), "memory");
    assert Read(TicketRequests(t), RESERVED_MEMORY) == Read(Reserved(Stated(t)), RESERVED_MEMORY);
  }

  /**
    The projection is exact: one more ticket changes each tracked resource by the ticket's own
    request for it, as often as the scope counts the ticket, and by nothing else.
   */
  lemma UsageGrowsByRequest(o: Objects, s: Scope, at: nat, t: Ticket, n: string)
    requires at <= |o.tickets| && Usage(o, s).Some?
    ensures Usage(WithTicket(o, at, t), s).Some?
    ensures Tracked(n) ==>
            Read(Usage(WithTicket(o, at, t), s).value, n) ==
            Read(Usage(o, s).value, n) + Repeated(Times(o, s, t), Read(TicketRequests(t), n))
  {
    ScopeGrows(o, s, at, t, n);
    WeightIsRequest(t, n);
    var x, x' := InScope(o, s).value, InScope(WithTicket(o, at, t), s).value;
    ReadUsage(x, n);
    ReadUsage(x', n);
    RepeatedZero(Times(o, s, t));
    if ByTicket(n) {
      assert Measure(x', n) == Measure(x, n) + Repeated(Times(o, s, t), Weight(t, n));
    } else {
      assert OrderCount(x', n) == OrderCount(x, n);
    }
  }

  /** Exactly the request where the quota applies, exactly nothing where it does not. */
  lemma ProjectionIsExact(o: Objects, s: Scope, at: nat, t: Ticket, n: string)
    requires at <= |o.tickets| && Usage(o, s).Some? && Tracked(n)
    requires DistinctNamespaces(o.namespaces) && ScopeWithoutDuplicates(s) && !s.ObjectSelector?
    ensures Usage(WithTicket(o, at, t), s).Some?
    ensures Read(Usage(WithTicket(o, at, t), s).value, n) ==
            Read(if Applies(o, s, t.key.ns) then Projected(Usage(o, s).value, TicketRequests(t))
                 else Usage(o, s).value, n)
  {
    UsageGrowsByRequest(o, s, at, t, n);
    AppliesMeansCounted(o, s, t);
  }

  // ---------------------------------------------------------------- Limits

  /** The multiplier in force: the first window's, if it is a positive number. */
  function Multiplier(q: Quota): Option<real> {
    if q.windows != [] && q.windows[0].multiplier.Some? && q.windows[0].multiplier.value > 0.0
    then q.windows[0].multiplier else None
  }

  /** `int64(float64(v) * m)`: whole units, the fraction dropped. */
  function Units(v: nat, m: real): int
    requires m > 0.0
  {
    (v as real * m).Floor
  }

  lemma UnitsBelow(v: nat, m: real)
    requires m > 0.0
    ensures 0 <= Units(v, m)
    ensures Units(v, m) as real <= v as real * m < Units(v, m) as real + 1.0
  {
    assert v as real * m >= 0.0;
  }

  function ScaledOne(q: real, m: real): real
    requires m > 0.0
  {
    if Value(q) > 0 then Units(Value(q), m) as real else q
  }

  function Scaled(hard: ResourceList, m: real): ResourceList
    requires m > 0.0
  {
    map n | n in hard :: ScaledOne(hard[n], m)
  }

  /** `calculateCurrentLimits`. */
  function Limits(q: Quota): ResourceList {
    if Multiplier(q).Some? then Scaled(q.hard, Multiplier(q).value) else q.hard
  }

  lemma UnitsGrow(v: nat, low: real, high: real)
    requires 0.0 < low <= high
    ensures Units(v, low) <= Units(v, high)
  {
    var a, b := v as real * low, v as real * high;
    assert b - a == v as real * (high - low);
    assert a <= b;
  }

  lemma UnitMultiplier(v: nat)
    ensures Units(v, 1.0) == v
  {
    assert v as real * 1.0 == v as real;
  }

  lemma ScaledOneIsMonotone(q: real, low: real, high: real)
    requires 0.0 < low <= high
    ensures ScaledOne(q, high) >= ScaledOne(q, low)
  {
    if Value(q) > 0 {
      UnitsGrow(Value(q), low, high);
    }
  }

  /** Limits grow with the multiplier, resource by resource. */
  lemma ScaledIsMonotone(hard: ResourceList, low: real, high: real)
    requires 0.0 < low <= high
    ensures AtLeast(Scaled(hard, high), Scaled(hard, low))
  {
    var a, b := Scaled(hard, low), Scaled(hard, high);
    forall n | n in hard ensures a[n] == ScaledOne(hard[n], low) && b[n] == ScaledOne(hard[n], high) && b[n] >= a[n] {
      ScaledOneIsMonotone(hard[n], low, high);
    }
  }

  /** A multiplier of at least one lowers no limit, whatever the rounding. */
  lemma ScalingUpNeverLowers(hard: ResourceList, m: real)
    requires m >= 1.0
    ensures AtLeast(Scaled(hard, m), hard)
  {
    forall n | n in hard ensures ScaledOne(hard[n], m) >= hard[n] {
      if Value(hard[n]) > 0 {
        UnitsGrow(Value(hard[n]), 1.0, m);
        UnitMultiplier(Value(hard[n]));
        ValueRoundsUp(hard[n]);
      }
    }
  }

  /** A multiplier of one still changes a limit, exactly when the limit is positive and not whole. */
  lemma UnitMultiplierRounds(hard: ResourceList, n: string)
    requires n in hard
    ensures Scaled(hard, 1.0)[n] == hard[n] <==> hard[n] <= 0.0 || hard[n].Floor as real == hard[n]
  {
    var q := hard[n];
    if q > 0.0 {
      ValueRoundsUp(q);
      UnitMultiplier(Value(q));
    }
  }

  /** Both roundings together: up to a whole unit, then down to one. */
  lemma ScaledIsClose(q: real, m: real)
    requires q > 0.0 && m > 0.0
    ensures q * m - 1.0 < ScaledOne(q, m) < (q + 1.0) * m
  {
    ValueRoundsUp(q);
    UnitsAreClose(q, Value(q), m);
  }

  lemma UnitsAreClose(q: real, v: nat, m: real)
    requires m > 0.0 && q <= v as real < q + 1.0
    ensures q * m - 1.0 < Units(v, m) as real < (q + 1.0) * m
  {
    UnitsBelow(v, m);
    ProductsKeepOrder(q, v as real, q + 1.0, m);
  }

  lemma ProductsKeepOrder(a: real, b: real, c: real, m: real)
    requires m > 0.0 && a <= b < c
    ensures a * m <= b * m < c * m
  {
    StretchKeepsOrder(a, b, m);
    StretchKeepsOrder(b, c, m);
  }

  lemma StretchKeepsOrder(a: real, b: real, m: real)
    requires m > 0.0 && a <= b
    ensures a * m <= b * m
    ensures a < b ==> a * m < b * m
  {
    assert b * m - a * m == (b - a) * m;
  }

  /** Raising the multiplier never turns a usage within limits into an exceeded one. */
  lemma VerdictGrowsWithMultiplier(usage: ResourceList, hard: ResourceList, low: real, high: real)
    requires 0.0 < low <= high
    ensures Exceeded(usage, Scaled(hard, high)) ==> Exceeded(usage, Scaled(hard, low))
    ensures low >= 1.0 && Exceeded(usage, Scaled(hard, low)) ==> Exceeded(usage, hard)
  {
    ScaledIsMonotone(hard, low, high);
    if Exceeded(usage, Scaled(hard, high)) {
      VerdictIsMonotone(usage, Scaled(hard, low), Scaled(hard, high));
    }
    if low >= 1.0 && Exceeded(usage, Scaled(hard, low)) {
      ScalingUpNeverLowers(hard, low);
      VerdictIsMonotone(usage, hard, Scaled(hard, low));
    }
  }

  /** What a multiplier makes of a hard limit: near the product and whole if positive, and itself if not. */
  ghost predicate Multiplied(limit: real, hard: real, m: real) {
    if hard > 0.0 then hard * m - 1.0 < limit < (hard + 1.0) * m && limit.Floor as real == limit
    else limit == hard
  }

  lemma ScaledIsMultiplied(q: real, m: real)
    requires m > 0.0
    ensures Multiplied(ScaledOne(q, m), q, m)
  {
    if q > 0.0 {
      ValueRoundsUp(q);
      ScaledIsClose(q, m);
      FloorOfUnits(Value(q), m);
    }
  }

  lemma FloorOfUnits(v: nat, m: real)
    requires m > 0.0
    ensures (Units(v, m) as real).Floor == Units(v, m)
  {
  }

  /**
    The limits of a quota: its hard limits, unless its first time window has a positive multiplier. Then
    each positive limit is multiplied and rounded to a whole number, and the others stay.
   */
  lemma LimitsFollowFirstWindow(q: Quota, n: string)
    requires n in q.hard
    ensures Limits(q).Keys == q.hard.Keys
    ensures
      if |q.windows| > 0 && q.windows[0].multiplier.Some? && q.windows[0].multiplier.value > 0.0 then
        Multiplied(Limits(q)[n], q.hard[n], q.windows[0].multiplier.value)
      else Limits(q)[n] == q.hard[n]
  {
    if Multiplier(q).Some? {
      ScaledIsMultiplied(q.hard[n], Multiplier(q).value);
      assert Limits(q)[n] == ScaledOne(q.hard[n], Multiplier(q).value);
    }
  }

  /** For two quotas with the same hard limits, the one with the higher multiplier exceeds less. */
  lemma HigherWindowExceedsLess(usage: ResourceList, low: Quota, high: Quota)
    requires low.hard == high.hard && |low.windows| > 0 && |high.windows| > 0
    requires low.windows[0].multiplier.Some? && high.windows[0].multiplier.Some?
    requires 0.0 < low.windows[0].multiplier.value <= high.windows[0].multiplier.value
    ensures Exceeded(usage, Limits(high)) ==> Exceeded(usage, Limits(low))
  {
    VerdictGrowsWithMultiplier(usage, low.hard, low.windows[0].multiplier.value, high.windows[0].multiplier.value);
  }

  /** Limits are non-negative, as the hard limits are. */
  lemma LimitsStayNonNegative(q: Quota)
    requires forall n :: n in q.hard ==> q.hard[n] >= 0.0
    ensures forall n :: n in Limits(q) ==> Limits(q)[n] >= 0.0
  {
    if Multiplier(q).Some? {
      var m := Multiplier(q).value;
      forall n | n in q.hard ensures ScaledOne(q.hard[n], m) >= 0.0 {
        if Value(q.hard[n]) > 0 {
          UnitsBelow(Value(q.hard[n]), m);
        }
      }
    }
  }

  // ---------------------------------------------------------------- Admission

  /** One quota lets the requests pass. */
  predicate Permits(o: Objects, q: Quota, ns: string, requests: ResourceList) {
    Applies(o, q.scope, ns) ==>
      && Usage(o, q.scope).Some?
      && !Exceeded(Projected(Usage(o, q.scope).value, requests), Limits(q))
  }

  /** Usage is within the limits, where it can be computed. */
  predicate Bounded(o: Objects, q: Quota) {
    Usage(o, q.scope).Some? ==> !Exceeded(Usage(o, q.scope).value, Limits(q))
  }

  /** A quota whose projection is exact, with limits its validator accepts. */
  ghost predicate Regular(o: Objects, q: Quota) {
    && DistinctNamespaces(o.namespaces)
    && ScopeWithoutDuplicates(q.scope) && !q.scope.ObjectSelector?
    && forall n :: n in q.hard ==> q.hard[n] >= 0.0
  }

  /** A request for a resource that usage does not track at all is larger than its limit. */
  predicate TooLargeAlone(limits: ResourceList, requests: ResourceList) {
    exists n :: n in requests && !Tracked(n) && n in limits && requests[n] > limits[n]
  }

  /** An applicable quota knows its usage: both fail on the same selectors. */
  lemma ApplicableIsComputable(o: Objects, s: Scope, ns: string)
    requires Applies(o, s, ns)
    ensures Usage(o, s).Some?
  {
  }

  /**
    The verdict, for a ticket in a namespace the quota applies to: it is refused exactly when
    storing it would push the usage over a limit, or when it asks for more of an untracked resource
    than the limit in a single request.
   */
  lemma PermitsIff(o: Objects, q: Quota, at: nat, t: Ticket)
    requires at <= |o.tickets| && Regular(o, q) && Applies(o, q.scope, t.key.ns)
    ensures Permits(o, q, t.key.ns, TicketRequests(t)) <==>
            Bounded(WithTicket(o, at, t), q) && !TooLargeAlone(Limits(q), TicketRequests(t))
  {
    ApplicableIsComputable(o, q.scope, t.key.ns);
    LimitsStayNonNegative(q);
    var usage, after := Usage(o, q.scope).value, Usage(WithTicket(o, at, t), q.scope);
    var p := Projected(usage, TicketRequests(t));
    forall n ensures after.Some? && (Tracked(n) ==> Read(after.value, n) == Read(p, n)) {
      UsageGrowsByRequest(o, q.scope, at, t, n);
      if Tracked(n) {
        ProjectionIsExact(o, q.scope, at, t, n);
      }
    }
    UsageIsSparse(o, q.scope);
    UsageIsSparse(WithTicket(o, at, t), q.scope);
    SameVerdict(after.value, usage, TicketRequests(t), Limits(q));
  }

  lemma SameVerdict(after: ResourceList, usage: ResourceList, requests: ResourceList, limits: ResourceList)
    requires Sparse(usage) && Sparse(after)
    requires forall n :: Tracked(n) ==> Read(after, n) == Read(Projected(usage, requests), n)
    requires forall n :: n in limits ==> limits[n] >= 0.0
    ensures Exceeded(Projected(usage, requests), limits) <==> Exceeded(after, limits) || TooLargeAlone(limits, requests)
  {
    var p := Projected(usage, requests);
    forall n | n in limits
      ensures (n in p && p[n] > limits[n]) <==>
              (n in after && after[n] > limits[n]) || (n in requests && !Tracked(n) && requests[n] > limits[n])
    {
      if Tracked(n) {
        assert Read(after, n) == Read(p, n);
      } else {
        assert n !in usage && n !in after;
      }
    }
  }

  /** Where the quota does not apply, one more ticket changes nothing it counts. */
  lemma OthersUnchanged(o: Objects, s: Scope, at: nat, t: Ticket)
    requires at <= |o.tickets| && DistinctNamespaces(o.namespaces)
    requires ScopeWithoutDuplicates(s) && !s.ObjectSelector? && !Applies(o, s, t.key.ns)
    ensures Usage(WithTicket(o, at, t), s) == Usage(o, s)
  {
    if Usage(o, s).Some? {
      var u, u' := Usage(o, s).value, Usage(WithTicket(o, at, t), s);
      UsageGrowsByRequest(o, s, at, t, TICKETS);
      UsageIsSparse(o, s);
      UsageIsSparse(WithTicket(o, at, t), s);
      forall n ensures Read(u, n) == Read(u'.value, n) {
        if Tracked(n) {
          ProjectionIsExact(o, s, at, t, n);
        }
      }
      SparseByReading(u, u'.value);
    }
  }

  predicate AllPermit(o: Objects, quotas: seq<Quota>, ns: string, requests: ResourceList) {
    forall i :: 0 <= i < |quotas| ==> Permits(o, quotas[i], ns, requests)
  }

  /** `ValidateQuota`, true for no error. */
  method ValidateQuota(o: Objects, quotas: seq<Quota>, ns: string, requests: ResourceList) returns (ok: bool)
    ensures ok <==> AllPermit(o, quotas, ns, requests)
  {
    var i := 0;
    while i < |quotas|
      invariant 0 <= i <= |quotas|
      invariant forall j :: 0 <= j < i ==> Permits(o, quotas[j], ns, requests)
    {
      var permitted := ValidateOne(o, quotas[i], ns, requests);
      if !permitted {
        return false;
      }
      i := i + 1;
    }
    return true;
  }

  /** The body of its loop. */
  method ValidateOne(o: Objects, quota: Quota, ns: string, requests: ResourceList) returns (permitted: bool)
    ensures permitted <==> Permits(o, quota, ns, requests)
  {
    if !Applies(o, quota.scope, ns) {
      return true;
    }
    var usage := CalculateResourceUsage(o, quota.scope);
    if usage.None? {
      return false;
    }
    var projected := Project(usage.value, requests);
    var copy := new QuotaObject(quota);
    var limits := copy.CalculateCurrentLimits();
    var exceeded := IsQuotaExceeded(projected, limits);
    return !exceeded;
  }

  // ---------------------------------------------------------------- Runs

  /** A ticket that asks to be stored, or one that goes. */
  datatype Step = Arrive(at: nat, ticket: Ticket) | Leave(at: nat)

  predicate Admitted(o: Objects, quotas: seq<Quota>, t: Ticket) {
    && (forall n :: n in Stated(t) ==> Stated(t)[n] >= 0.0)
    && AllPermit(o, quotas, t.key.ns, TicketRequests(t))
  }

  /** Admission and storage as one step; the order of the list is the server's. */
  function Next(o: Objects, quotas: seq<Quota>, s: Step): Objects {
    match s
    case Arrive(at, t) => if at <= |o.tickets| && Admitted(o, quotas, t) then WithTicket(o, at, t) else o
    case Leave(at) => if at < |o.tickets| then o.(tickets := o.tickets[..at] + o.tickets[at + 1..]) else o
  }

  function Run(o: Objects, quotas: seq<Quota>, steps: seq<Step>): Objects {
    if steps == [] then o else Next(Run(o, quotas, steps[..|steps| - 1]), quotas, steps[|steps| - 1])
  }

  ghost predicate AllNonNegative(o: Objects) {
    forall t, n :: t in o.tickets && n in Stated(t) ==> Stated(t)[n] >= 0.0
  }

  lemma LeavingKeepsBounds(o: Objects, q: Quota, at: nat)
    requires at < |o.tickets| && Regular(o, q) && AllNonNegative(o) && Bounded(o, q)
    ensures Bounded(o.(tickets := o.tickets[..at] + o.tickets[at + 1..]), q)
  {
    var less, t := o.(tickets := o.tickets[..at] + o.tickets[at + 1..]), o.tickets[at];
    assert WithTicket(less, at, t) == o by {
      assert less.tickets[..at] == o.tickets[..at] && less.tickets[at..] == o.tickets[at + 1..];
      assert Insert(less.tickets, at, t) == o.tickets;
    }
    LimitsStayNonNegative(q);
    if Usage(less, q.scope).Some? {
      assert t in o.tickets;
      UsageGrowsByRequest(less, q.scope, at, t, TICKETS);
      UsageIsSparse(less, q.scope);
      var u, full := Usage(less, q.scope).value, Usage(o, q.scope).value;
      UsageIsSparse(o, q.scope);
      forall n ensures Read(u, n) <= Read(full, n) {
        UsageGrowsByRequest(less, q.scope, at, t, n);
        WeightIsRequest(t, n);
      }
      LessStaysWithin(u, full, Limits(q));
    }
  }

  lemma ArrivalKeepsBounds(o: Objects, quotas: seq<Quota>, at: nat, t: Ticket, i: nat)
    requires i < |quotas| && Regular(o, quotas[i]) && Bounded(o, quotas[i])
    requires at <= |o.tickets| && Admitted(o, quotas, t)
    ensures Bounded(WithTicket(o, at, t), quotas[i])
  {
    if Applies(o, quotas[i].scope, t.key.ns) {
      assert Permits(o, quotas[i], t.key.ns, TicketRequests(t));
      PermitsIff(o, quotas[i], at, t);
    } else {
      OthersUnchanged(o, quotas[i].scope, at, t);
    }
  }

  lemma NextKeepsNonNegative(o: Objects, quotas: seq<Quota>, step: Step)
    requires AllNonNegative(o)
    ensures AllNonNegative(Next(o, quotas, step)) && Next(o, quotas, step).namespaces == o.namespaces
  {
    if step.Arrive? && step.at <= |o.tickets| && Admitted(o, quotas, step.ticket) {
      forall x | x in WithTicket(o, step.at, step.ticket).tickets ensures x in o.tickets || x == step.ticket {
        InsertedElements(o.tickets, step.at, step.ticket, x);
      }
    }
  }

  lemma NextStaysBounded(o: Objects, quotas: seq<Quota>, step: Step, i: nat)
    requires i < |quotas| && Regular(o, quotas[i]) && AllNonNegative(o) && Bounded(o, quotas[i])
    ensures Bounded(Next(o, quotas, step), quotas[i])
  {
    match step
    case Arrive(at, t) =>
      if at <= |o.tickets| && Admitted(o, quotas, t) {
        ArrivalKeepsBounds(o, quotas, at, t, i);
      }
    case Leave(at) =>
      if at < |o.tickets| {
        LeavingKeepsBounds(o, quotas[i], at);
      }
  }

  /**
    Whatever arrives, is refused or leaves, in whatever order: a quota that started within its
    limits stays within them.
   */
  lemma {:induction false} RunStaysBounded(o: Objects, quotas: seq<Quota>, steps: seq<Step>, i: nat)
    requires i < |quotas| && Regular(o, quotas[i]) && AllNonNegative(o) && Bounded(o, quotas[i])
    ensures Bounded(Run(o, quotas, steps), quotas[i])
    ensures AllNonNegative(Run(o, quotas, steps)) && Run(o, quotas, steps).namespaces == o.namespaces
  {
    if steps != [] {
      var before, step := Run(o, quotas, steps[..|steps| - 1]), steps[|steps| - 1];
      RunStaysBounded(o, quotas, steps[..|steps| - 1], i);
      NextKeepsNonNegative(before, quotas, step);
      NextStaysBounded(before, quotas, step, i);
    }
  }

  // ---------------------------------------------------------------- Repeated namespaces

  /** For this ticket the projection foretells the usage of every tracked resource. */
  ghost predicate Foretold(o: Objects, s: Scope, t: Ticket) {
    && Usage(o, s).Some? && Usage(WithTicket(o, 0, t), s).Some?
    && var foretold := if Applies(o, s, t.key.ns) then Projected(Usage(o, s).value, TicketRequests(t))
                       else Usage(o, s).value;
       forall n :: Tracked(n) ==> Read(Usage(WithTicket(o, 0, t), s).value, n) == Read(foretold, n)
  }

  lemma {:induction false} CountOfRepeated(names: seq<string>, i: nat, j: nat)
    requires i < j < |names| && names[i] == names[j]
    ensures multiset(names)[names[i]] >= 2
  {
    var front := names[..j];
    assert names == front + [names[j]] + names[j + 1..];
    assert front[i] == names[i];
    assert multiset(front)[names[i]] >= 1;
  }

  /** For lists of namespaces the projection is exact, for every cluster and ticket, only without repeats. */
  lemma ProjectionIsExactIff(names: seq<string>)
    ensures (forall o: Objects, t: Ticket :: DistinctNamespaces(o.namespaces) ==> Foretold(o, NamespaceList(names), t))
        <==> NoDuplicates(names)
  {
    var s := NamespaceList(names);
    if NoDuplicates(names) {
      forall o: Objects, t: Ticket | DistinctNamespaces(o.namespaces) ensures Foretold(o, s, t) {
        UsageGrowsByRequest(o, s, 0, t, TICKETS);
        forall n | Tracked(n)
          ensures Read(Usage(WithTicket(o, 0, t), s).value, n) ==
                  Read(if Applies(o, s, t.key.ns) then Projected(Usage(o, s).value, TicketRequests(t))
                       else Usage(o, s).value, n)
        {
          ProjectionIsExact(o, s, 0, t, n);
        }
      }
    } else {
      var i, j :| 0 <= i < j < |names| && names[i] == names[j];
      CountOfRepeated(names, i, j);
      var o, t := NO_OBJECTS, PlainTicket(names[i]);
      CountedTwice(o, s, t);
      assert DistinctNamespaces(o.namespaces) && !Foretold(o, s, t);
    }
  }

  /** A ticket of a namespace that states no requests. */
  function PlainTicket(ns: string): Ticket {
    TicketAsking(map[]).(key := Key(ns, "ticket"))
  }

  /** Where a ticket is counted more than once, usage grows by more than is foretold. */
  lemma CountedTwice(o: Objects, s: Scope, t: Ticket)
    requires Usage(o, s).Some? && Times(o, s, t) >= 2
    ensures Read(Usage(WithTicket(o, 0, t), s).value, TICKETS) >= Read(Usage(o, s).value, TICKETS) + 2.0
    ensures !Foretold(o, s, t)
  {
    UsageGrowsByRequest(o, s, 0, t, TICKETS);
    TicketAsksFor(t, "");
    RepeatedOnes(Times(o, s, t));
    var u := Usage(o, s).value;
    var p := Projected(u, TicketRequests(t));
    assert Read(p, TICKETS) == Read(u, TICKETS) + 1.0;
  }

  const NO_OBJECTS := Objects([], [], [], [], [])

  lemma {:induction false} NothingInNamespaces(names: seq<string>)
    ensures Within(NO_OBJECTS, names) == NOTHING
  {
    if names != [] {
      NothingInNamespaces(names[..|names| - 1]);
    }
  }

  lemma EmptyUsage(names: seq<string>)
    ensures Usage(NO_OBJECTS, NamespaceList(names)) == Some(map[])
  {
    NothingInNamespaces(names);
    forall n ensures n !in UsageOf(NOTHING) {
      ReadUsage(NOTHING, n);
      ReadUsageOver(NOTHING, NAMES, n);
      assert Total([], n) == 0.0;
    }
  }

  /** At most one ticket, over these namespaces. */
  function OneTicketQuota(names: seq<string>): Quota {
    Quota("q", NamespaceList(names), map[TICKETS := 1.0], [])
  }

  lemma FirstTicketIsAdmitted(names: seq<string>, ns: string)
    ensures Bounded(NO_OBJECTS, OneTicketQuota(names))
    ensures Admitted(NO_OBJECTS, [OneTicketQuota(names)], PlainTicket(ns))
  {
    EmptyUsage(names);
    AskedTickets(PlainTicket(ns));
    NothingProjectedOn(TicketRequests(PlainTicket(ns)));
    assert Permits(NO_OBJECTS, OneTicketQuota(names), ns, TicketRequests(PlainTicket(ns)));
  }

  lemma NothingProjectedOn(requests: ResourceList)
    ensures Projected(map[], requests) == requests
  {
  }

  lemma CountedTwiceIsTooMuch(names: seq<string>, ns: string)
    requires multiset(names)[ns] >= 2
    ensures !Bounded(WithTicket(NO_OBJECTS, 0, PlainTicket(ns)), OneTicketQuota(names))
  {
    EmptyUsage(names);
    CountedTwice(NO_OBJECTS, NamespaceList(names), PlainTicket(ns));
  }

  /** An admitted ticket never breaks a quota over this list of namespaces that was within its limits. */
  ghost predicate AdmissionKeepsBound(names: seq<string>) {
    forall o: Objects, q: Quota, t: Ticket ::
      && q.scope == NamespaceList(names) && DistinctNamespaces(o.namespaces)
      && (forall n :: n in q.hard ==> q.hard[n] >= 0.0)
      && Bounded(o, q) && Admitted(o, [q], t)
      ==> Bounded(WithTicket(o, 0, t), q)
  }

  /**
    That is so only without repeats: a namespace that is listed twice lets its first ticket in under a
    limit of one ticket, and then counts two.
   */
  lemma AdmissionKeepsBoundIff(names: seq<string>)
    ensures AdmissionKeepsBound(names) <==> NoDuplicates(names)
  {
    if NoDuplicates(names) {
      forall o: Objects, q: Quota, t: Ticket
        | && q.scope == NamespaceList(names) && DistinctNamespaces(o.namespaces)
          && (forall n :: n in q.hard ==> q.hard[n] >= 0.0)
          && Bounded(o, q) && Admitted(o, [q], t)
        ensures Bounded(WithTicket(o, 0, t), q)
      {
        assert [q][0] == q;
        ArrivalKeepsBounds(o, [q], 0, t, 0);
      }
    } else {
      var i, j :| 0 <= i < j < |names| && names[i] == names[j];
      CountOfRepeated(names, i, j);
      FirstTicketIsAdmitted(names, names[i]);
      CountedTwiceIsTooMuch(names, names[i]);
      BoundBroken(names, NO_OBJECTS, OneTicketQuota(names), PlainTicket(names[i]));
    }
  }

  lemma BoundBroken(names: seq<string>, o: Objects, q: Quota, t: Ticket)
    requires q.scope == NamespaceList(names) && DistinctNamespaces(o.namespaces)
    requires forall n :: n in q.hard ==> q.hard[n] >= 0.0
    requires Bounded(o, q) && Admitted(o, [q], t) && !Bounded(WithTicket(o, 0, t), q)
    ensures !AdmissionKeepsBound(names)
  {
  }

  // ---------------------------------------------------------------- The quota's own status

  datatype Verdict = Failed | OverLimits | Enforced

  function VerdictOf(o: Objects, q: Quota): Verdict {
    if Usage(o, q.scope).None? then Failed
    else if Exceeded(Usage(o, q.scope).value, Limits(q)) then OverLimits
    else Enforced
  }

  /** The one condition that a verdict writes. */
  function Report(v: Verdict, now: int): Update {
    match v
    case Failed => Update("Ready", false, now, "Failed")
    case OverLimits => Update("Exceeded", true, now, "Exceeded")
    case Enforced => Update("Enforced", true, now, "Enforced")
  }

  /** A report sets the truth value of its own condition and touches no other. */
  lemma Reported(cs: seq<Condition>, kind: string, isTrue: bool, now: int, reason: string)
    ensures Says(Upsert(cs, Update(kind, isTrue, now, reason)), kind, isTrue)
    ensures forall other :: other != kind ==>
              Lookup(Upsert(cs, Update(kind, isTrue, now, reason)), other) == Lookup(cs, other)
  {
    forall other ensures other != kind ==>
        Lookup(Upsert(cs, Update(kind, isTrue, now, reason)), other) == Lookup(cs, other) {
      LookupAfterUpsert(cs, Update(kind, isTrue, now, reason), other);
    }
    LookupAfterUpsert(cs, Update(kind, isTrue, now, reason), kind);
  }

  class QuotaObject {
    const spec: Quota
    var hard: ResourceList
    var used: ResourceList
    var activeWindow: Option<string>
    const conditions: ConditionList

    constructor (spec: Quota)
      ensures this.spec == spec && hard == map[] && used == map[] && activeWindow == None
      ensures conditions.items == [] && fresh(conditions)
    {
      this.spec := spec;
      hard, used, activeWindow := map[], map[], None;
      conditions := new ConditionList([]);
    }

    /** Scales entry by entry, over the keys in any order, and notes the window it took. */
    method CalculateCurrentLimits() returns (limits: ResourceList)
      modifies this`activeWindow
      ensures limits == Limits(spec)
      ensures activeWindow == if Multiplier(spec).Some? then Some(spec.windows[0].name) else old(activeWindow)
    {
      limits := spec.hard;
      if |spec.windows| > 0 {
        var window := spec.windows[0];
        if window.multiplier.Some? && window.multiplier.value > 0.0 {
          var m := window.multiplier.value;
          var left := limits.Keys;
          while left != {}
            invariant left <= spec.hard.Keys && limits.Keys == spec.hard.Keys
            invariant activeWindow == old(activeWindow)
            invariant forall n :: n in limits ==>
                        limits[n] == if n in left then spec.hard[n] else ScaledOne(spec.hard[n], m)
            decreases |left|
          {
            var name :| name in left;
            left := left - {name};
            var quantity := limits[name];
            if Value(quantity) > 0 {
              limits := limits[name := Units(Value(quantity), m) as real];
            }
          }
          assert limits == Scaled(spec.hard, m);
          activeWindow := Some(window.name);
        }
      }
    }

    /** One reconcile of a live quota that holds its finalizer. */
    method Reconcile(o: Objects, now: int)
      modifies this`hard, this`used, this`activeWindow, conditions
      ensures conditions.items == Upsert(old(conditions.items), Report(VerdictOf(o, spec), now))
      ensures Usage(o, spec.scope).Some? ==>
              hard == Limits(spec) && used == Usage(o, spec.scope).value
              && activeWindow == (if Multiplier(spec).Some? then Some(spec.windows[0].name) else old(activeWindow))
      ensures Usage(o, spec.scope).None? ==>
              hard == old(hard) && used == old(used) && activeWindow == old(activeWindow)
      ensures Usage(o, spec.scope).Some? ==>
              var over := exists n :: n in hard && n in used && used[n] > hard[n];
              && Says(conditions.items, if over then "Exceeded" else "Enforced", true)
              && forall kind :: kind != (if over then "Exceeded" else "Enforced") ==>
                   Lookup(conditions.items, kind) == Lookup(old(conditions.items), kind)
      ensures Usage(o, spec.scope).None? ==>
              && Says(conditions.items, "Ready", false)
              && forall kind :: kind != "Ready" ==>
                   Lookup(conditions.items, kind) == Lookup(old(conditions.items), kind)
    {
      Reported(conditions.items, "Ready", false, now, "Failed");
      Reported(conditions.items, "Exceeded", true, now, "Exceeded");
      Reported(conditions.items, "Enforced", true, now, "Enforced");
      var usage := CalculateResourceUsage(o, spec.scope);
      if usage.None? {
        conditions.Set("Ready", false, now, "Failed");
        return;
      }
      var limits := CalculateCurrentLimits();
      hard, used := limits, usage.value;
      var exceeded := IsQuotaExceeded(used, hard);
      if exceeded {
        conditions.Set("Exceeded", true, now, "Exceeded");
      } else {
        conditions.Set("Enforced", true, now, "Enforced");
      }
    }
  }

  /** The reports of a run of reconciles. */
  function Reports(verdicts: seq<Verdict>, times: seq<int>): seq<Update>
    requires |verdicts| == |times|
  {
    seq(|verdicts|, i requires 0 <= i < |verdicts| => Report(verdicts[i], times[i]))
  }

  /**
    Nothing ever clears the Exceeded condition: once some reconcile has found the quota over its
    limits, the condition stays true, dated at the first such reconcile, however usage falls later.
   */
  lemma {:induction false} ExceededIsNeverCleared(verdicts: seq<Verdict>, times: seq<int>, first: nat)
    requires |verdicts| == |times| && first < |verdicts|
    requires verdicts[first] == OverLimits && forall i :: 0 <= i < first ==> verdicts[i] != OverLimits
    ensures Lookup(After(Reports(verdicts, times)), "Exceeded") == Some(Fresh(Report(OverLimits, times[first])))
  {
    RunMeaning(Reports(verdicts, times));
    ToldExceeded(verdicts, times, first);
  }

  lemma {:induction false} ToldExceeded(verdicts: seq<Verdict>, times: seq<int>, first: nat)
    requires |verdicts| == |times| && first <= |verdicts|
    requires first < |verdicts| ==> verdicts[first] == OverLimits
    requires forall i :: 0 <= i < first ==> verdicts[i] != OverLimits
    ensures Told(Reports(verdicts, times), "Exceeded") ==
            if first < |verdicts| then Some(Fresh(Report(OverLimits, times[first]))) else None
  {
    if verdicts != [] {
      var n := |verdicts| - 1;
      assert Reports(verdicts, times)[..n] == Reports(verdicts[..n], times[..n]);
      ToldExceeded(verdicts[..n], times[..n], if first < n then first else n);
    }
  }
}
