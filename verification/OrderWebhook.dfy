/**
  The order webhook: what an order is charged for, the difference an update is charged for, and the
  check against quotas. Its usage counts orders and tickets only.
 */
module OrderWebhook {
  import opened Common
  import opened Resources
  import opened TicketModel
  import opened TicketWebhook
  import opened QuotaModel
  import OrderController

  type Order = OrderController.Order

  const ORDERS := "orders"

  // ---------------------------------------------------------------- What an order is charged for

  /** The requests that the order's ticket template states. */
  function Template(o: Order): ResourceList {
    if o.template.resources.Some? then OrEmpty(o.template.resources.value.requests) else map[]
  }

  /** `total.Set(total.Value() * replicas)`: whole units, in 64 bits. */
  function Charge(q: real, replicas: nat): real {
    Wrap64(Value(q) * replicas) as real
  }

  function Charges(list: ResourceList, replicas: nat): ResourceList {
    map n | n in list :: Charge(list[n], replicas)
  }

  function Counts(replicas: nat): ResourceList {
    map[ORDERS := 1.0][TICKETS := replicas as real]
  }

  function OrderRequests(o: Order): ResourceList {
    Reserved(Charges(Template(o), OrderController.Desired(o))) + Counts(OrderController.Desired(o))
  }

  lemma CountsAreUnreserved(replicas: nat)
    ensures Unreserved(Counts(replicas))
  {
    forall n: string ensures RESERVED + n !in Counts(replicas) {
      UnreservedName(n, TICKETS);
      UnreservedName(n, ORDERS);
    }
  }

  lemma ChargesGrow(list: ResourceList, replicas: nat, n: string, q: real)
    requires n !in list
    ensures n !in Charges(list, replicas)
    ensures Charges(list[n := q], replicas) == Charges(list, replicas)[n := Charge(q, replicas)]
  {
  }

  /** `calculateOrderResourceRequests`. */
  method CalculateOrderResourceRequests(o: Order) returns (requests: ResourceList)
    ensures requests == OrderRequests(o)
  {
    requests := map[];
    requests := requests[ORDERS := 1.0];
    var replicas := 1;
    if o.replicas.Some? {
      replicas := o.replicas.value;
    }
    requests := requests[TICKETS := replicas as real];
    assert requests == Counts(replicas);
    CountsAreUnreserved(replicas);
    NothingReserved(Counts(replicas));
    if o.template.resources.Some? && o.template.resources.value.requests.Some? {
      requests := AddCharges(o.template.resources.value.requests.value, replicas, requests);
    } else {
      assert Charges(Template(o), replicas) == map[];
    }
  }

  /** Its loop over the template's requests. */
  method AddCharges(list: ResourceList, replicas: nat, counts: ResourceList) returns (requests: ResourceList)
    requires Unreserved(counts)
    ensures requests == Reserved(Charges(list, replicas)) + counts
  {
    requests := counts;
    var left := list.Keys;
    NothingSeen(list);
    NothingReserved(counts);
    assert Charges(map[], replicas) == map[];
    while left != {}
      invariant left <= list.Keys
      invariant requests == Reserved(Charges(list - left, replicas)) + counts
      decreases |left|
    {
      var name :| name in left;
      OneMoreSeen(list, left, name);
      ChargesGrow(list - left, replicas, name, list[name]);
      RequestsGrow(Charges(list - left, replicas), name, Charge(list[name], replicas), counts);
      left := left - {name};
      requests := requests[RESERVED + name := Charge(list[name], replicas)];
    }
    AllSeen(list);
  }

  /** Resource by resource. */
  lemma OrderAsksFor(o: Order, n: string)
    ensures Read(OrderRequests(o), "orders") == 1.0
    ensures Read(OrderRequests(o), "tickets") == OrderController.Desired(o) as real
    ensures OrderController.Desired(o) == match o.replicas case None => 1 case Some(replicas) => replicas
    ensures Read(OrderRequests(o), "reserved." + n) ==
            match o.template.resources
            case Some(Requirements(Some(list), _)) =>
              if n in list then Charge(list[n], OrderController.Desired(o)) else 0.0
            case _ => 0.0
  {
    var charges := Charges(Template(o), OrderController.Desired(o));
    CountsAreUnreserved(OrderController.Desired(o));
    ReadReserved(charges, n);
    assert ORDERS != TICKETS by {
      assert ORDERS[0] != TICKETS[0];
    }
    assert Read(OrderRequests(o), RESERVED + n) == Read(Reserved(charges), RESERVED + n);
  }

  lemma MoreReplicas(a: real, b: real, r: nat)
    requires a <= b
    ensures r as real * a <= r as real * b
    ensures a < b && r > 0 ==> r as real * a < r as real * b
  {
    assert r as real * b - r as real * a == r as real * (b - a);
  }

  lemma WrapSmall(x: int)
    requires 0 <= x <= MAX_INT64
    ensures Wrap64(x) == x
  {
  }

  lemma WrapLarge(x: int)
    requires x > MAX_INT64
    ensures Wrap64(x) <= x - TWO_64
  {
    var y := x + MAX_INT64 + 1;
    assert y >= TWO_64;
    assert y == TWO_64 * (y / TWO_64) + y % TWO_64;
  }

  lemma ProductIsExact(v: nat, r: nat)
    ensures v * r >= 0 && (v * r) as real == r as real * v as real
  {
  }

  /** r replicas of q are worth at least r*q and less than one unit per replica more. */
  lemma ChargeIsClose(q: real, r: nat)
    requires q >= 0.0 && Value(q) * r <= MAX_INT64
    ensures r as real * q <= Charge(q, r)
    ensures r > 0 ==> Charge(q, r) < r as real * (q + 1.0)
  {
    ValueRoundsUp(q);
    ChargeOfUnits(q, Value(q), q + 1.0, r);
  }

  lemma ChargeOfUnits(low: real, v: nat, high: real, r: nat)
    requires v * r <= MAX_INT64 && low <= v as real < high
    ensures r as real * low <= Wrap64(v * r) as real
    ensures r > 0 ==> Wrap64(v * r) as real < r as real * high
  {
    WrappedUnits(v, r);
    RoundedProduct(low, v as real, high, r);
  }

  lemma WrappedUnits(v: nat, r: nat)
    requires v * r <= MAX_INT64
    ensures Wrap64(v * r) as real == r as real * v as real
  {
    ProductIsExact(v, r);
    WrapSmall(v * r);
  }

  lemma RoundedProduct(low: real, v: real, high: real, r: nat)
    requires low <= v < high
    ensures r as real * low <= r as real * v <= r as real * high
    ensures r > 0 ==> r as real * v < r as real * high
  {
    MoreReplicas(low, v, r);
    MoreReplicas(v, high, r);
  }

  /** With 32-bit replica counts, an order is charged too little exactly when the product overflows. */
  lemma UnderchargedExactlyOnOverflow(q: real, r: nat)
    requires q >= 0.0 && r < 0x8000_0000
    ensures Charge(q, r) < r as real * q <==> Value(q) * r > MAX_INT64
  {
    if Value(q) * r <= MAX_INT64 {
      ChargeIsClose(q, r);
    } else {
      ValueRoundsUp(q);
      OverflowUndercharges(q, Value(q), r);
    }
  }

  lemma OverflowUndercharges(q: real, v: nat, r: nat)
    requires v * r > MAX_INT64 && v as real < q + 1.0 && r < 0x8000_0000
    ensures Wrap64(v * r) as real < r as real * q
  {
    var product := v * r;
    ProductIsExact(v, r);
    WrapLarge(product);
    MoreReplicas(v as real - 1.0, q, r);
    OneLessEach(v as real, r);
  }

  lemma OneLessEach(v: real, r: nat)
    ensures r as real * (v - 1.0) == r as real * v - r as real
  {
  }

  // ---------------------------------------------------------------- Updates

  /** One entry of the difference: a resource both sides ask for equally is left out. */
  predicate Differs(prior: ResourceList, wanted: ResourceList, n: string) {
    n in wanted && (n in prior ==> wanted[n] != prior[n])
  }

  /** What an update is charged for, over the resources the new order asks for. */
  function Delta(prior: ResourceList, wanted: ResourceList): ResourceList {
    map n | n in wanted && Differs(prior, wanted, n) :: wanted[n] - Read(prior, n)
  }

  predicate Increases(delta: ResourceList) {
    exists n :: n in delta && delta[n] > 0.0
  }

  /** Old and difference together make the new order, for everything the new order asks for. */
  lemma DeltaCompletes(prior: ResourceList, wanted: ResourceList, n: string)
    requires n in wanted
    ensures Read(prior, n) + Read(Delta(prior, wanted), n) == wanted[n]
  {
  }

  /** The quota check is skipped exactly when nothing the new order asks for grew. */
  lemma SkippedIff(prior: ResourceList, wanted: ResourceList)
    ensures !Increases(Delta(prior, wanted)) <==> forall n :: n in wanted ==> wanted[n] <= Read(prior, n)
  {
    var d := Delta(prior, wanted);
    if !Increases(d) {
      forall n | n in wanted ensures wanted[n] <= Read(prior, n) {
        DeltaCompletes(prior, wanted, n);
        assert n in d ==> d[n] <= 0.0;
      }
    }
  }

  /** Quantities are non-negative and no charge overflows. */
  ghost predicate Sane(o: Order) {
    forall n :: n in Template(o) ==>
      Template(o)[n] >= 0.0 && Value(Template(o)[n]) * OrderController.Desired(o) <= MAX_INT64
  }

  /** An update that skips the check asks for at most as much as before, of every resource there is. */
  lemma SkippedNeverGrows(before: Order, after: Order, n: string)
    requires Sane(before)
    requires !Increases(Delta(OrderRequests(before), OrderRequests(after)))
    ensures Read(OrderRequests(after), n) <= Read(OrderRequests(before), n)
  {
    SkippedIff(OrderRequests(before), OrderRequests(after));
    RequestsAreNonNegative(before, n);
  }

  lemma RequestsAreNonNegative(o: Order, n: string)
    requires Sane(o)
    ensures Read(OrderRequests(o), n) >= 0.0
  {
    var charges := Charges(Template(o), OrderController.Desired(o));
    ReservedEntries(charges);
    if n in OrderRequests(o) && n !in Counts(OrderController.Desired(o)) {
      var m :| m in charges && n == RESERVED + m;
      ChargeIsNonNegative(Template(o)[m], OrderController.Desired(o));
    }
  }

  lemma ChargeIsNonNegative(q: real, r: nat)
    requires q >= 0.0 && Value(q) * r <= MAX_INT64
    ensures Charge(q, r) >= 0.0
  {
    ValueRoundsUp(q);
    WrappedUnits(Value(q), r);
    ProductIsExact(Value(q), r);
  }

  // ---------------------------------------------------------------- Usage and verdict

  /** The orders and tickets of the cluster. */
  datatype World = World(orders: seq<Order>, tickets: seq<Ticket>)

  function OrderNs(o: Order): string { o.key.ns }

  /** Only these scopes are evaluated here; a selector counts nothing and applies nowhere. */
  predicate Evaluated(s: Scope) {
    s.Cluster? || s.NamespaceList?
  }

  function OrdersInScope(w: World, s: Scope): seq<Order> {
    match s
    case Cluster => w.orders
    case NamespaceList(names) => InNamespaces(w.orders, OrderNs, names)
    case _ => []
  }

  function TicketsInScope(w: World, s: Scope): seq<Ticket> {
    match s
    case Cluster => w.tickets
    case NamespaceList(names) => InNamespaces(w.tickets, TicketNs, names)
    case _ => []
  }

  /** `calculateQuotaUsage`: sparse, and without reserved resources. */
  function Usage(w: World, s: Scope): ResourceList {
    var orders: ResourceList :=
      if OrdersInScope(w, s) != [] then map[ORDERS := |OrdersInScope(w, s)| as real] else map[];
    if TicketsInScope(w, s) != [] then orders[TICKETS := |TicketsInScope(w, s)| as real] else orders
  }

  predicate Permits(w: World, q: Quota, ns: string, requests: ResourceList) {
    Covers(q.scope, ns) ==> !Exceeded(Projected(Usage(w, q.scope), requests), q.hard)
  }

  predicate AllPermit(w: World, quotas: seq<Quota>, ns: string, requests: ResourceList) {
    forall i :: 0 <= i < |quotas| ==> Permits(w, quotas[i], ns, requests)
  }

  predicate CreateAccepted(w: World, quotas: seq<Quota>, o: Order) {
    AllPermit(w, quotas, o.key.ns, OrderRequests(o))
  }

  predicate UpdateAccepted(w: World, quotas: seq<Quota>, before: Order, after: Order) {
    var delta := Delta(OrderRequests(before), OrderRequests(after));
    Increases(delta) ==> AllPermit(w, quotas, after.key.ns, delta)
  }

  method CalculateQuotaUsage(w: World, s: Scope) returns (usage: ResourceList)
    ensures usage == Usage(w, s)
  {
    var orders: seq<Order>, tickets: seq<Ticket> := [], [];
    match s {
      case Cluster => orders, tickets := w.orders, w.tickets;
      case NamespaceList(names) =>
        var i := 0;
        while i < |names|
          invariant 0 <= i <= |names|
          invariant orders == InNamespaces(w.orders, OrderNs, names[..i])
          invariant tickets == InNamespaces(w.tickets, TicketNs, names[..i])
        {
          assert names[..i + 1][..i] == names[..i];
          orders := orders + InNamespace(w.orders, OrderNs, names[i]);
          tickets := tickets + InNamespace(w.tickets, TicketNs, names[i]);
          i := i + 1;
        }
        assert names[..|names|] == names;
      case _ =>
    }
    usage := map[];
    if |orders| > 0 {
      usage := usage[ORDERS := |orders| as real];
    }
    if |tickets| > 0 {
      usage := usage[TICKETS := |tickets| as real];
    }
  }

  /** `validateAgainstQuotas`, true for no error. */
  method ValidateAgainstQuotas(w: World, quotas: seq<Quota>, ns: string, requests: ResourceList) returns (ok: bool)
    ensures ok <==> AllPermit(w, quotas, ns, requests)
  {
    var i := 0;
    while i < |quotas|
      invariant 0 <= i <= |quotas|
      invariant forall j :: 0 <= j < i ==> Permits(w, quotas[j], ns, requests)
    {
      var quota := quotas[i];
      if Covers(quota.scope, ns) {
        var usage := CalculateQuotaUsage(w, quota.scope);
        var projected := Project(usage, requests);
        var exceeded := IsQuotaExceeded(projected, quota.hard);
        if exceeded {
          assert !Permits(w, quotas[i], ns, requests);
          return false;
        }
      }
      i := i + 1;
    }
    return true;
  }

  /** `validateQuotaCompliance`. */
  method ValidateCreate(w: World, quotas: seq<Quota>, o: Order) returns (ok: bool)
    ensures ok <==> CreateAccepted(w, quotas, o)
  {
    var requests := CalculateOrderResourceRequests(o);
    ok := ValidateAgainstQuotas(w, quotas, o.key.ns, requests);
  }

  lemma DeltaGrows(prior: ResourceList, wanted: ResourceList, n: string, q: real)
    requires n !in wanted
    ensures Delta(prior, wanted[n := q]) ==
            if n in prior && prior[n] == q then Delta(prior, wanted) else Delta(prior, wanted)[n := q - Read(prior, n)]
  {
    var d, d' := Delta(prior, wanted), Delta(prior, wanted[n := q]);
    assert forall k :: k != n ==> (Differs(prior, wanted[n := q], k) <==> Differs(prior, wanted, k));
    assert forall k :: k in d ==> k in d' && d'[k] == d[k];
  }

  /** The first loop of `validateQuotaComplianceUpdate`. */
  method CalculateDelta(prior: ResourceList, wanted: ResourceList) returns (delta: ResourceList)
    ensures delta == Delta(prior, wanted)
  {
    delta := map[];
    var left := wanted.Keys;
    NothingSeen(wanted);
    while left != {}
      invariant left <= wanted.Keys
      invariant delta == Delta(prior, wanted - left)
      decreases |left|
    {
      var name :| name in left;
      OneMoreSeen(wanted, left, name);
      DeltaGrows(prior, wanted - left, name, wanted[name]);
      left := left - {name};
      if name in prior {
        var difference := wanted[name] - prior[name];
        if difference != 0.0 {
          delta := delta[name := difference];
        }
      } else {
        delta := delta[name := wanted[name]];
      }
    }
    AllSeen(wanted);
  }

  /** Its second loop. */
  method HasIncrease(delta: ResourceList) returns (found: bool)
    ensures found <==> Increases(delta)
  {
    var left := delta.Keys;
    while left != {}
      invariant left <= delta.Keys
      invariant forall n :: n in delta.Keys - left ==> delta[n] <= 0.0
      decreases |left|
    {
      var name :| name in left;
      left := left - {name};
      if delta[name] > 0.0 {
        return true;
      }
    }
    return false;
  }

  /** `validateQuotaComplianceUpdate`. */
  method ValidateUpdate(w: World, quotas: seq<Quota>, before: Order, after: Order) returns (ok: bool)
    ensures ok <==> UpdateAccepted(w, quotas, before, after)
  {
    var oldRequests := CalculateOrderResourceRequests(before);
    var newRequests := CalculateOrderResourceRequests(after);
    var delta := CalculateDelta(oldRequests, newRequests);
    var hasIncrease := HasIncrease(delta);
    if !hasIncrease {
      return true;
    }
    ok := ValidateAgainstQuotas(w, quotas, after.key.ns, delta);
  }

  // ---------------------------------------------------------------- The decision, in numbers

  /** What a quota that covers the order's namespace and lists none twice asks of a new order. */
  ghost predicate HasRoom(w: World, q: Quota, o: Order) {
    && ("orders" in q.hard ==> (Number(w.orders, OrderNs, q.scope) + 1) as real <= q.hard["orders"])
    && ("tickets" in q.hard ==>
        (Number(w.tickets, TicketNs, q.scope) + OrderController.Desired(o)) as real <= q.hard["tickets"])
    && forall n :: n in Template(o) && "reserved." + n in q.hard ==>
         Charge(Template(o)[n], OrderController.Desired(o)) <= q.hard["reserved." + n]
  }

  /**
    A new order is refused by a quota exactly if its namespace is covered and there is no room for one
    more order, for its replicas on top of the tickets there are, or for the charge of a template
    request by itself: what other orders reserve is not counted.
   */
  lemma PermitsIff(w: World, q: Quota, o: Order)
    requires ScopeWithoutDuplicates(q.scope)
    ensures Permits(w, q, o.key.ns, OrderRequests(o)) <==> (Covers(q.scope, o.key.ns) ==> HasRoom(w, q, o))
  {
    var p := Projected(Usage(w, q.scope), OrderRequests(o));
    UsageCountsOrders(w, q.scope);
    UsageCountsTickets(w, q.scope);
    OrderAsksFor(o, "");
    OrdersRequested(o);
    TicketsRequested(o);
    RequestNames(o);
    UsageNames(w, q.scope);
    assert p[ORDERS] == (Number(w.orders, OrderNs, q.scope) + 1) as real;
    assert p[TICKETS] == (Number(w.tickets, TicketNs, q.scope) + OrderController.Desired(o)) as real;
    forall n | n in Template(o)
      ensures RESERVED + n in p && p[RESERVED + n] == Charge(Template(o)[n], OrderController.Desired(o))
    {
      OrderAsksFor(o, n);
      UnreservedName(n, TICKETS);
      UnreservedName(n, ORDERS);
    }
    if HasRoom(w, q, o) {
      forall n | n in q.hard && n in p ensures p[n] <= q.hard[n] {
        if n != ORDERS && n != TICKETS {
          var m :| m in Template(o) && n == RESERVED + m;
          assert "reserved." + m in q.hard;
        }
      }
    }
    if !Exceeded(p, q.hard) {
      forall n | n in Template(o) && "reserved." + n in q.hard
        ensures Charge(Template(o)[n], OrderController.Desired(o)) <= q.hard["reserved." + n]
      {
        assert p[RESERVED + n] <= q.hard[RESERVED + n];
      }
    }
  }

  /** What such a quota asks of an update that raises some request. */
  ghost predicate HasRoomForChange(w: World, q: Quota, before: Order, after: Order) {
    && ("orders" in q.hard ==> Number(w.orders, OrderNs, q.scope) as real <= q.hard["orders"])
    && ("tickets" in q.hard ==>
        (Number(w.tickets, TicketNs, q.scope) + Growth(before, after)) as real <= q.hard["tickets"])
    && forall n :: n in Template(after) && "reserved." + n in q.hard ==>
         ChargeGrowth(before, after, n) <= q.hard["reserved." + n]
  }

  /** By how many tickets an update grows an order. */
  function Growth(before: Order, after: Order): int {
    OrderController.Desired(after) - OrderController.Desired(before)
  }

  /** By how much it raises what the order is charged for a resource of the new template. */
  function ChargeGrowth(before: Order, after: Order, n: string): real
    requires n in Template(after)
  {
    Charge(Template(after)[n], OrderController.Desired(after)) - Read(OrderRequests(before), "reserved." + n)
  }

  lemma DeltaReads(before: Order, after: Order, n: string)
    requires n in OrderRequests(after)
    ensures Read(Delta(OrderRequests(before), OrderRequests(after)), n)
            == OrderRequests(after)[n] - Read(OrderRequests(before), n)
  {
  }

  /**
    An update that raises some request is refused by a quota exactly if the namespace is covered and the
    orders there are, the tickets there are with the change in replicas, or the change in some charge by
    itself are too much. No change in the number of orders is charged.
   */
  lemma ChangePermitsIff(w: World, q: Quota, before: Order, after: Order)
    requires ScopeWithoutDuplicates(q.scope) && forall n :: n in q.hard ==> q.hard[n] >= 0.0
    ensures Permits(w, q, after.key.ns, Delta(OrderRequests(before), OrderRequests(after)))
        <==> (Covers(q.scope, after.key.ns) ==> HasRoomForChange(w, q, before, after))
  {
    var p := Projected(Usage(w, q.scope), Delta(OrderRequests(before), OrderRequests(after)));
    ExceededByReading(p, q.hard);
    ChangeReads(w, q, before, after);
    if HasRoomForChange(w, q, before, after) {
      forall n | n in q.hard ensures Read(p, n) <= q.hard[n] {
        if n in p && n != ORDERS && n != TICKETS {
          var m :| m in Template(after) && n == RESERVED + m;
          assert "reserved." + m in q.hard;
        }
      }
    }
    if forall n :: n in q.hard ==> Read(p, n) <= q.hard[n] {
      forall n | n in Template(after) && "reserved." + n in q.hard
        ensures ChargeGrowth(before, after, n) <= q.hard["reserved." + n]
      {
        assert Read(p, RESERVED + n) <= q.hard[RESERVED + n];
      }
    }
  }

  /** What the projection of an update reads. */
  lemma ChangeReads(w: World, q: Quota, before: Order, after: Order)
    requires ScopeWithoutDuplicates(q.scope)
    ensures
      var p := Projected(Usage(w, q.scope), Delta(OrderRequests(before), OrderRequests(after)));
      && Read(p, ORDERS) == Number(w.orders, OrderNs, q.scope) as real
      && Read(p, TICKETS) == (Number(w.tickets, TicketNs, q.scope) + Growth(before, after)) as real
      && (forall n :: n in Template(after) ==> Read(p, RESERVED + n) == ChargeGrowth(before, after, n))
      && forall n :: n in p ==> n == ORDERS || n == TICKETS || exists m :: m in Template(after) && n == RESERVED + m
  {
    var u, delta := Usage(w, q.scope), Delta(OrderRequests(before), OrderRequests(after));
    UsageCountsOrders(w, q.scope);
    UsageCountsTickets(w, q.scope);
    ChangeInCounts(before, after);
    ReadProjected(u, delta, ORDERS);
    ReadProjected(u, delta, TICKETS);
    RequestNames(after);
    UsageNames(w, q.scope);
    forall n | n in Template(after) ensures Read(Projected(u, delta), RESERVED + n) == ChargeGrowth(before, after, n) {
      ReadProjected(u, delta, RESERVED + n);
      OrderAsksFor(after, n);
      DeltaReads(before, after, RESERVED + n);
      UnreservedName(n, TICKETS);
      UnreservedName(n, ORDERS);
    }
  }

  lemma ReadProjected(usage: ResourceList, requests: ResourceList, n: string)
    ensures Read(Projected(usage, requests), n) == Read(usage, n) + Read(requests, n)
  {
  }

  /** Against non-negative limits a missing entry is as good as zero. */
  lemma ExceededByReading(usage: ResourceList, hard: ResourceList)
    requires forall n :: n in hard ==> hard[n] >= 0.0
    ensures Exceeded(usage, hard) <==> exists n :: n in hard && Read(usage, n) > hard[n]
  {
    if n :| n in hard && Read(usage, n) > hard[n] {
      assert n in usage && usage[n] > hard[n];
    }
  }

  lemma ChangeInCounts(before: Order, after: Order)
    ensures
      var delta := Delta(OrderRequests(before), OrderRequests(after));
      && Read(delta, ORDERS) == 0.0
      && Read(delta, TICKETS) == (OrderController.Desired(after) - OrderController.Desired(before)) as real
  {
    OrderAsksFor(before, "");
    OrderAsksFor(after, "");
    OrdersRequested(after);
    TicketsRequested(after);
    DeltaReads(before, after, ORDERS);
    DeltaReads(before, after, TICKETS);
  }

  lemma RequestNames(o: Order)
    ensures forall n :: n in OrderRequests(o) ==>
              n == ORDERS || n == TICKETS || exists m :: m in Template(o) && n == RESERVED + m
    ensures forall m :: m in Template(o) ==> RESERVED + m in OrderRequests(o)
  {
    var charges := Charges(Template(o), OrderController.Desired(o));
    ReservedEntries(charges);
    forall n | n in OrderRequests(o) && n != ORDERS && n != TICKETS
      ensures exists m :: m in Template(o) && n == RESERVED + m
    {
      var m :| m in charges && n == RESERVED + m;
      assert m in Template(o);
    }
  }

  lemma UsageNames(w: World, s: Scope)
    ensures forall n :: n in Usage(w, s) ==> n == ORDERS || n == TICKETS
  {
  }

  // ---------------------------------------------------------------- What the created tickets ask for

  /** A created ticket asks quotas for one ticket and for exactly the requests of the order's template. */
  lemma CreatedTicketsAskForTemplate(tickets: seq<Ticket>, o: Order, calls: nat, i: nat, n: string)
    requires |OrderController.Active(tickets, o)| < OrderController.Desired(o)
    requires |tickets| <= i < |OrderController.Interrupted(tickets, o, calls).0|
    ensures
      var asked := TicketRequests(OrderController.Interrupted(tickets, o, calls).0[i]);
      && Read(asked, "tickets") == 1.0
      && Read(asked, "reserved." + n) ==
         match o.template.resources
         case Some(Requirements(Some(list), _)) => Read(list, n)
         case _ => 0.0
  {
    OrderController.CreatedTickets(tickets, o, calls, i);
    TicketAsksFor(OrderController.Interrupted(tickets, o, calls).0[i], n);
  }

  /** What a list of tickets asks for together. */
  function AskedTogether(tickets: seq<Ticket>, n: string): real {
    if tickets == [] then 0.0
    else AskedTogether(tickets[..|tickets| - 1], n) + Read(TicketRequests(tickets[|tickets| - 1]), n)
  }

  lemma {:induction false} AskedBySame(tickets: seq<Ticket>, n: string, each: real)
    requires forall i :: 0 <= i < |tickets| ==> Read(TicketRequests(tickets[i]), n) == each
    ensures AskedTogether(tickets, n) == Repeated(|tickets|, each)
  {
    if tickets != [] {
      AskedBySame(tickets[..|tickets| - 1], n, each);
    }
  }

  lemma ChargeCovers(q: real, r: nat)
    requires q >= 0.0 && Value(q) * r <= MAX_INT64
    ensures Repeated(r, q) <= Charge(q, r)
  {
    RepeatedIsProduct(r, q);
    ChargeIsClose(q, r);
  }

  lemma CreatedOne(tickets: seq<Ticket>, o: Order, calls: nat, created: seq<Ticket>, i: nat, n: string)
    requires |OrderController.Active(tickets, o)| < OrderController.Desired(o) && i < |created|
    requires OrderController.Interrupted(tickets, o, calls).0 == tickets + created
    ensures Read(TicketRequests(created[i]), "reserved." + n) == Read(Template(o), n)
  {
    CreatedFromTemplate(tickets, o, calls, created, i);
    StatedIsTemplate(created[i], o);
    TicketAsksFor(created[i], n);
  }

  lemma CreatedFromTemplate(tickets: seq<Ticket>, o: Order, calls: nat, created: seq<Ticket>, i: nat)
    requires |OrderController.Active(tickets, o)| < OrderController.Desired(o) && i < |created|
    requires OrderController.Interrupted(tickets, o, calls).0 == tickets + created
    ensures created[i].spec == o.template
  {
    var after := tickets + created;
    assert after[|tickets| + i] == created[i];
    OrderController.CreatedTickets(tickets, o, calls, |tickets| + i);
  }

  lemma StatedIsTemplate(t: Ticket, o: Order)
    requires t.spec == o.template
    ensures Stated(t) == Template(o)
  {
  }

  lemma CreatedTogether(tickets: seq<Ticket>, o: Order, calls: nat, created: seq<Ticket>, n: string)
    requires |OrderController.Active(tickets, o)| < OrderController.Desired(o)
    requires OrderController.Interrupted(tickets, o, calls).0 == tickets + created
    ensures |created| <= OrderController.Desired(o)
    ensures AskedTogether(created, "reserved." + n) == Repeated(|created|, Read(Template(o), n))
  {
    OrderController.CreatedCount(tickets, o, calls);
    assert |tickets + created| == |tickets| + |created|;
    forall i | 0 <= i < |created|
      ensures Read(TicketRequests(created[i]), "reserved." + n) == Read(Template(o), n)
    {
      CreatedOne(tickets, o, calls, created, i, n);
    }
    AskedBySame(created, "reserved." + n, Read(Template(o), n));
  }

  /**
    The tickets a reconcile creates never ask for more together than the order was charged for, in
    number and in every reserved resource, unless a charge overflows.
   */
  lemma CreatedWithinCharge(tickets: seq<Ticket>, o: Order, calls: nat, created: seq<Ticket>, n: string)
    requires |OrderController.Active(tickets, o)| < OrderController.Desired(o) && Sane(o)
    requires OrderController.Interrupted(tickets, o, calls).0 == tickets + created
    ensures |created| as real <= Read(OrderRequests(o), "tickets")
    ensures AskedTogether(created, "reserved." + n) <= Read(OrderRequests(o), "reserved." + n)
  {
    CreatedTogether(tickets, o, calls, created, n);
    EnoughCharged(o, |created|, n);
    TicketsCharged(o);
  }

  lemma TicketsCharged(o: Order)
    ensures Read(OrderRequests(o), "tickets") == OrderController.Desired(o) as real
  {
    OrderAsksFor(o, "");
  }

  lemma EnoughCharged(o: Order, count: nat, n: string)
    requires Sane(o) && count <= OrderController.Desired(o)
    ensures Repeated(count, Read(Template(o), n)) <= Read(OrderRequests(o), "reserved." + n)
  {
    OrderAsksFor(o, n);
    if n in Template(o) {
      RepeatedGrows(count, OrderController.Desired(o), Template(o)[n]);
      ChargeCovers(Template(o)[n], OrderController.Desired(o));
    } else {
      RepeatedZero(count);
    }
  }

  // ---------------------------------------------------------------- Runs

  /** Requests that reach the webhook, and tickets that come and go without it. */
  datatype Step =
    | Create(order: Order)
    | Change(at: nat, spec: Order)
    | Remove(at: nat)
    | Tickets(tickets: seq<Ticket>)

  /** Admission and storage as one step; an update keeps the object's namespace and name. */
  function Next(w: World, quotas: seq<Quota>, s: Step): World {
    match s
    case Create(o) =>
      if (exists i :: 0 <= i < |w.orders| && w.orders[i].key == o.key) || !CreateAccepted(w, quotas, o) then w
      else w.(orders := w.orders + [o])
    case Change(at, o) =>
      if at < |w.orders| && w.orders[at].key == o.key && UpdateAccepted(w, quotas, w.orders[at], o)
      then w.(orders := w.orders[at := o]) else w
    case Remove(at) =>
      if at < |w.orders| then w.(orders := w.orders[..at] + w.orders[at + 1..]) else w
    case Tickets(tickets) => w.(tickets := tickets)
  }

  function Run(w: World, quotas: seq<Quota>, steps: seq<Step>): World {
    if steps == [] then w else Next(Run(w, quotas, steps[..|steps| - 1]), quotas, steps[|steps| - 1])
  }

  predicate WithinOrderLimit(w: World, q: Quota) {
    ORDERS in q.hard ==> Number(w.orders, OrderNs, q.scope) as real <= q.hard[ORDERS]
  }

  /** Usage counts the orders of every namespace as often as the scope does, and so every one at least once. */
  lemma UsageCountsOrders(w: World, s: Scope)
    ensures Read(Usage(w, s), ORDERS) == Tally(w.orders, OrderNs, s) as real
    ensures Read(Usage(w, s), ORDERS) >= Number(w.orders, OrderNs, s) as real
    ensures ScopeWithoutDuplicates(s) ==> Read(Usage(w, s), ORDERS) == Number(w.orders, OrderNs, s) as real
  {
    match s {
      case Cluster => TallyOfCluster(w.orders, OrderNs);
      case NamespaceList(names) => ListedIsTally(w.orders, OrderNs, names);
      case _ => TallyOfSelector(w.orders, OrderNs, s);
    }
    ReadOrders(w, s);
    TallyIsNumber(w.orders, OrderNs, s);
  }

  /** And the tickets likewise. */
  lemma UsageCountsTickets(w: World, s: Scope)
    ensures Read(Usage(w, s), TICKETS) == Tally(w.tickets, TicketNs, s) as real
    ensures Read(Usage(w, s), TICKETS) >= Number(w.tickets, TicketNs, s) as real
    ensures ScopeWithoutDuplicates(s) ==> Read(Usage(w, s), TICKETS) == Number(w.tickets, TicketNs, s) as real
  {
    match s {
      case Cluster => TallyOfCluster(w.tickets, TicketNs);
      case NamespaceList(names) => ListedIsTally(w.tickets, TicketNs, names);
      case _ => TallyOfSelector(w.tickets, TicketNs, s);
    }
    assert ORDERS[0] != TICKETS[0];
    assert Read(Usage(w, s), TICKETS) == |TicketsInScope(w, s)| as real;
    TallyIsNumber(w.tickets, TicketNs, s);
  }

  lemma {:induction false} TallyOfSelector<T>(all: seq<T>, ns: T -> string, s: Scope)
    requires !Evaluated(s)
    ensures Tally(all, ns, s) == 0
  {
    if all != [] {
      TallyOfSelector(all[..|all| - 1], ns, s);
    }
  }

  lemma ReadOrders(w: World, s: Scope)
    ensures Read(Usage(w, s), ORDERS) == |OrdersInScope(w, s)| as real
  {
    assert ORDERS[0] != TICKETS[0];
  }

  /** A created order leaves room for itself in every quota that applies to it. */
  lemma CreatedFits(w: World, q: Quota, o: Order)
    requires Evaluated(q.scope) && Covers(q.scope, o.key.ns) && ORDERS in q.hard
    requires Permits(w, q, o.key.ns, OrderRequests(o))
    ensures Number(w.orders, OrderNs, q.scope) as real + 1.0 <= q.hard[ORDERS]
  {
    var p := Projected(Usage(w, q.scope), OrderRequests(o));
    OrderAsksFor(o, "");
    OrdersRequested(o);
    UsageCountsOrders(w, q.scope);
    assert p[ORDERS] == Read(Usage(w, q.scope), ORDERS) + 1.0;
  }

  lemma OrdersRequested(o: Order)
    ensures ORDERS in OrderRequests(o)
  {
  }

  lemma CreateKeepsLimit(w: World, quotas: seq<Quota>, o: Order, i: nat)
    requires i < |quotas| && Evaluated(quotas[i].scope)
    requires WithinOrderLimit(w, quotas[i]) && CreateAccepted(w, quotas, o)
    ensures WithinOrderLimit(w.(orders := w.orders + [o]), quotas[i])
  {
    var q := quotas[i];
    NumberAppend(w.orders, [o], OrderNs, q.scope);
    NumberOfOne(o, OrderNs, q.scope);
    if ORDERS in q.hard && Covers(q.scope, o.key.ns) {
      assert Permits(w, quotas[i], o.key.ns, OrderRequests(o));
      CreatedFits(w, q, o);
    }
  }

  lemma ReplaceKeepsNumber(orders: seq<Order>, at: nat, o: Order, s: Scope)
    requires at < |orders| && orders[at].key == o.key
    ensures Number(orders[at := o], OrderNs, s) == Number(orders, OrderNs, s)
  {
    var a, b := orders[..at], orders[at + 1..];
    assert orders == a + [orders[at]] + b && orders[at := o] == a + [o] + b;
    NumberAppend(a + [orders[at]], b, OrderNs, s);
    NumberAppend(a, [orders[at]], OrderNs, s);
    NumberAppend(a + [o], b, OrderNs, s);
    NumberAppend(a, [o], OrderNs, s);
    NumberOfOne(o, OrderNs, s);
    NumberOfOne(orders[at], OrderNs, s);
  }

  lemma RemoveShrinksNumber(orders: seq<Order>, at: nat, s: Scope)
    requires at < |orders|
    ensures Number(orders[..at] + orders[at + 1..], OrderNs, s) <= Number(orders, OrderNs, s)
  {
    var a, b := orders[..at], orders[at + 1..];
    assert orders == a + [orders[at]] + b;
    NumberAppend(a + [orders[at]], b, OrderNs, s);
    NumberAppend(a, [orders[at]], OrderNs, s);
    NumberAppend(a, b, OrderNs, s);
  }

  lemma NextKeepsOrderLimit(w: World, quotas: seq<Quota>, step: Step, i: nat)
    requires i < |quotas| && Evaluated(quotas[i].scope) && WithinOrderLimit(w, quotas[i])
    ensures WithinOrderLimit(Next(w, quotas, step), quotas[i])
  {
    match step
    case Create(o) =>
      if CreateAccepted(w, quotas, o) {
        CreateKeepsLimit(w, quotas, o, i);
      }
    case Change(at, o) =>
      if at < |w.orders| && w.orders[at].key == o.key {
        ReplaceKeepsNumber(w.orders, at, o, quotas[i].scope);
      }
    case Remove(at) =>
      if at < |w.orders| {
        RemoveShrinksNumber(w.orders, at, quotas[i].scope);
      }
    case Tickets(_) =>
  }

  /**
    Over any run of creates, updates and deletes, whatever tickets do meanwhile: a quota over the
    cluster or over a list of namespaces, repeated names or not, that starts within its order limit
    stays within it.
   */
  lemma {:induction false} OrderLimitHolds(w: World, quotas: seq<Quota>, steps: seq<Step>, i: nat)
    requires i < |quotas| && Evaluated(quotas[i].scope) && WithinOrderLimit(w, quotas[i])
    ensures WithinOrderLimit(Run(w, quotas, steps), quotas[i])
  {
    if steps != [] {
      OrderLimitHolds(w, quotas, steps[..|steps| - 1], i);
      NextKeepsOrderLimit(Run(w, quotas, steps[..|steps| - 1]), quotas, steps[|steps| - 1], i);
    }
  }

  // ---------------------------------------------------------------- Promised tickets

  /** What the orders in scope ask for together. */
  function Promised(orders: seq<Order>, s: Scope): nat {
    if orders == [] then 0
    else
      var last := orders[|orders| - 1];
      Promised(orders[..|orders| - 1], s) + if Covers(s, last.key.ns) then OrderController.Desired(last) else 0
  }

  lemma {:induction false} PromisedAppend(a: seq<Order>, b: seq<Order>, s: Scope)
    ensures Promised(a + b, s) == Promised(a, s) + Promised(b, s)
    decreases |b|
  {
    if b == [] {
      assert a + b == a;
    } else {
      PromisedAppend(a, b[..|b| - 1], s);
      assert (a + b)[..|a + b| - 1] == a + b[..|b| - 1];
    }
  }

  lemma PromisedByOne(o: Order, s: Scope)
    ensures Promised([o], s) == if Covers(s, o.key.ns) then OrderController.Desired(o) else 0
  {
    assert Promised([o][..0], s) == 0;
  }

  /** As far as tickets are concerned, an order is let in if its replicas fit on top of the tickets that exist. */
  lemma TicketsOnTop(w: World, q: Quota, o: Order)
    requires TICKETS in q.hard && Covers(q.scope, o.key.ns)
    requires Permits(w, q, o.key.ns, OrderRequests(o))
    ensures Tally(w.tickets, TicketNs, q.scope) as real + OrderController.Desired(o) as real <= q.hard[TICKETS]
  {
    OrderAsksFor(o, "");
    UsageCountsTickets(w, q.scope);
    TicketsRequested(o);
    var p := Projected(Usage(w, q.scope), OrderRequests(o));
    assert p[TICKETS] == Read(Usage(w, q.scope), TICKETS) + OrderController.Desired(o) as real;
  }

  lemma TicketsRequested(o: Order)
    ensures TICKETS in OrderRequests(o)
  {
  }

  /** Every order in scope has its tickets, and they are within the limit. */
  predicate Settled(w: World, q: Quota) {
    && TICKETS in q.hard
    && Promised(w.orders, q.scope) <= Tally(w.tickets, TicketNs, q.scope)
    && Tally(w.tickets, TicketNs, q.scope) as real <= q.hard[TICKETS]
  }

  lemma CreateKeepsPromise(w: World, quotas: seq<Quota>, o: Order, i: nat)
    requires i < |quotas| && Settled(w, quotas[i]) && CreateAccepted(w, quotas, o)
    ensures Promised(w.orders + [o], quotas[i].scope) as real <= quotas[i].hard[TICKETS]
  {
    var q := quotas[i];
    PromisedAppend(w.orders, [o], q.scope);
    PromisedByOne(o, q.scope);
    if Covers(q.scope, o.key.ns) {
      assert Permits(w, quotas[i], o.key.ns, OrderRequests(o));
      TicketsOnTop(w, q, o);
    }
  }

  /** An update that raises the replicas is let in if the increase fits on top of the tickets that exist. */
  lemma IncreaseOnTop(w: World, q: Quota, before: Order, after: Order)
    requires TICKETS in q.hard && Covers(q.scope, after.key.ns)
    requires OrderController.Desired(before) < OrderController.Desired(after)
    requires Permits(w, q, after.key.ns, Delta(OrderRequests(before), OrderRequests(after)))
    ensures Tally(w.tickets, TicketNs, q.scope) as real
            + (OrderController.Desired(after) - OrderController.Desired(before)) as real <= q.hard[TICKETS]
  {
    UsageCountsTickets(w, q.scope);
    TicketsDiffer(before, after);
    var delta := Delta(OrderRequests(before), OrderRequests(after));
    var p := Projected(Usage(w, q.scope), delta);
    assert p[TICKETS] == Read(Usage(w, q.scope), TICKETS) + delta[TICKETS];
  }

  lemma TicketsDiffer(before: Order, after: Order)
    requires OrderController.Desired(before) < OrderController.Desired(after)
    ensures
      var delta := Delta(OrderRequests(before), OrderRequests(after));
      && TICKETS in delta
      && delta[TICKETS] == (OrderController.Desired(after) - OrderController.Desired(before)) as real
      && Increases(delta)
  {
    OrderAsksFor(before, "");
    OrderAsksFor(after, "");
    TicketsRequested(before);
    TicketsRequested(after);
  }

  lemma PromisedAfterChange(orders: seq<Order>, at: nat, o: Order, s: Scope)
    requires at < |orders| && orders[at].key == o.key
    ensures Promised(orders[at := o], s) ==
            Promised(orders, s)
            + if Covers(s, o.key.ns) then OrderController.Desired(o) - OrderController.Desired(orders[at]) else 0
  {
    var a, b := orders[..at], orders[at + 1..];
    assert orders == a + [orders[at]] + b && orders[at := o] == a + [o] + b;
    PromisedAppend(a + [orders[at]], b, s);
    PromisedAppend(a, [orders[at]], s);
    PromisedAppend(a + [o], b, s);
    PromisedAppend(a, [o], s);
    PromisedByOne(o, s);
    PromisedByOne(orders[at], s);
  }

  lemma ChangeKeepsPromise(w: World, quotas: seq<Quota>, at: nat, o: Order, i: nat)
    requires i < |quotas| && Settled(w, quotas[i])
    requires at < |w.orders| && w.orders[at].key == o.key && UpdateAccepted(w, quotas, w.orders[at], o)
    ensures Promised(w.orders[at := o], quotas[i].scope) as real <= quotas[i].hard[TICKETS]
  {
    var q, before := quotas[i], w.orders[at];
    PromisedAfterChange(w.orders, at, o, q.scope);
    if Covers(q.scope, o.key.ns) && OrderController.Desired(before) < OrderController.Desired(o) {
      TicketsDiffer(before, o);
      assert Permits(w, quotas[i], o.key.ns, Delta(OrderRequests(before), OrderRequests(o)));
      IncreaseOnTop(w, q, before, o);
    }
  }

  /**
    From a settled state, whatever the next request is and whatever other quotas say, the orders in
    scope are promised no more tickets than the limit.
   */
  lemma SettledKeepsPromise(w: World, quotas: seq<Quota>, step: Step, i: nat)
    requires i < |quotas| && Settled(w, quotas[i])
    ensures Promised(Next(w, quotas, step).orders, quotas[i].scope) as real <= quotas[i].hard[TICKETS]
  {
    match step
    case Create(o) =>
      if CreateAccepted(w, quotas, o) {
        CreateKeepsPromise(w, quotas, o, i);
      }
    case Change(at, o) =>
      if at < |w.orders| && w.orders[at].key == o.key && UpdateAccepted(w, quotas, w.orders[at], o) {
        ChangeKeepsPromise(w, quotas, at, o, i);
      }
    case Remove(at) =>
      if at < |w.orders| {
        var a, b := w.orders[..at], w.orders[at + 1..];
        assert w.orders == a + [w.orders[at]] + b;
        PromisedAppend(a + [w.orders[at]], b, quotas[i].scope);
        PromisedAppend(a, [w.orders[at]], quotas[i].scope);
        PromisedAppend(a, b, quotas[i].scope);
      }
    case Tickets(_) =>
  }

  /** A new order that storage does not refuse: its key is free and its replica count has 32 bits. */
  ghost predicate Storable(w: World, o: Order) {
    && OrderController.Desired(o) <= MAX_INT32
    && forall i :: 0 <= i < |w.orders| ==> w.orders[i].key != o.key
  }

  /**
    When a ticket limit bounds what is promised, exactly: with the tickets that are counted within the
    limit, every new order the quota lets in keeps the sum of replicas in scope within it if and only
    if that sum is at most the number of tickets counted already, or so far below the limit that no
    single order can reach it. Otherwise some order is let in that breaks it.
   */
  lemma TicketLimitHoldsIff(w: World, q: Quota, limit: real)
    requires Evaluated(q.scope) && q.hard == map[TICKETS := limit]
    requires Tally(w.tickets, TicketNs, q.scope) as real <= limit
    ensures
      (forall o: Order :: Storable(w, o) && CreateAccepted(w, [q], o) ==>
         Promised(w.orders + [o], q.scope) as real <= limit)
      <==>
      || Promised(w.orders, q.scope) <= Tally(w.tickets, TicketNs, q.scope)
      || (Promised(w.orders, q.scope) + MAX_INT32) as real <= limit
  {
    var existing, promised := Tally(w.tickets, TicketNs, q.scope), Promised(w.orders, q.scope);
    if promised <= existing {
      forall o: Order | CreateAccepted(w, [q], o) ensures Promised(w.orders + [o], q.scope) as real <= limit {
        CreateKeepsPromise(w, [q], o, 0);
      }
    } else if (promised + MAX_INT32) as real <= limit {
      forall o: Order | Storable(w, o) ensures Promised(w.orders + [o], q.scope) as real <= limit {
        PromisedAppend(w.orders, [o], q.scope);
        PromisedByOne(o, q.scope);
      }
    } else {
      var room := limit.Floor - existing;
      var o := BreakingOrder(w, q, limit, if room < MAX_INT32 then room else MAX_INT32);
      assert Storable(w, o) && CreateAccepted(w, [q], o);
    }
  }

  lemma BreakingOrder(w: World, q: Quota, limit: real, replicas: nat) returns (o: Order)
    requires Evaluated(q.scope) && q.hard == map[TICKETS := limit]
    requires Promised(w.orders, q.scope) > 0 && replicas <= MAX_INT32
    requires (Tally(w.tickets, TicketNs, q.scope) + replicas) as real
            <= limit < (Promised(w.orders, q.scope) + replicas) as real
    ensures Storable(w, o) && CreateAccepted(w, [q], o)
    ensures Promised(w.orders + [o], q.scope) as real > limit
  {
    var model := SomeInScope(w.orders, q.scope);
    var key := FreeKey(w.orders, model.key.ns);
    o := model.(key := key, replicas := Some(replicas));
    FittingIsAccepted(w, q, o, limit);
    PromisedAppend(w.orders, [o], q.scope);
    PromisedByOne(o, q.scope);
  }

  /** A name longer than all others is free. */
  lemma {:induction false} FreeKey(orders: seq<Order>, ns: string) returns (key: Key)
    ensures key.ns == ns
    ensures forall i :: 0 <= i < |orders| ==> orders[i].key != key && |orders[i].key.name| < |key.name|
  {
    if orders == [] {
      key := Key(ns, "order");
    } else {
      var front, last := orders[..|orders| - 1], orders[|orders| - 1];
      var other := FreeKey(front, ns);
      key := Key(ns, "x" + other.name + last.key.name);
      forall i | 0 <= i < |orders| ensures |orders[i].key.name| < |key.name| {
        assert i < |front| ==> orders[i] == front[i];
      }
    }
  }

  lemma {:induction false} SomeInScope(orders: seq<Order>, s: Scope) returns (o: Order)
    requires Promised(orders, s) > 0
    ensures Covers(s, o.key.ns)
  {
    var last := orders[|orders| - 1];
    if Covers(s, last.key.ns) {
      o := last;
    } else {
      o := SomeInScope(orders[..|orders| - 1], s);
    }
  }

  lemma FittingIsAccepted(w: World, q: Quota, o: Order, limit: real)
    requires q.hard == map[TICKETS := limit]
    requires (Tally(w.tickets, TicketNs, q.scope) + OrderController.Desired(o)) as real <= limit
    ensures CreateAccepted(w, [q], o)
  {
    OrderAsksFor(o, "");
    UsageCountsTickets(w, q.scope);
    TicketsRequested(o);
    var p := Projected(Usage(w, q.scope), OrderRequests(o));
    assert p[TICKETS] == Read(Usage(w, q.scope), TICKETS) + OrderController.Desired(o) as real;
    assert Permits(w, q, o.key.ns, OrderRequests(o));
  }

  function Creations(orders: seq<Order>): seq<Step> {
    seq(|orders|, i requires 0 <= i < |orders| => Create(orders[i]))
  }

  /**
    Left unsettled, nothing bounds it: as long as no ticket exists yet, any number of orders of the
    full size are let in one after the other, each promised the whole limit.
   */
  lemma {:induction false} TicketLimitDoesNotHold(orders: seq<Order>, n: nat)
    requires forall i, j :: 0 <= i < j < |orders| ==> orders[i].key != orders[j].key
    requires forall i :: 0 <= i < |orders| ==> orders[i].replicas == Some(n)
    ensures
      var q := Quota("q", Cluster, map[TICKETS := n as real], []);
      Run(World([], []), [q], Creations(orders)) == World(orders, [])
    ensures Promised(orders, Cluster) == |orders| * n
  {
    var q := Quota("q", Cluster, map[TICKETS := n as real], []);
    if orders == [] {
      assert Creations(orders) == [];
    } else {
      var front, last := orders[..|orders| - 1], orders[|orders| - 1];
      TicketLimitDoesNotHold(front, n);
      assert Creations(orders)[..|orders| - 1] == Creations(front);
      FittingIsAccepted(World(front, []), q, last, n as real);
      assert front + [last] == orders;
      OneOrderMore(|front|, n);
    }
  }

  lemma OneOrderMore(k: nat, n: nat)
    ensures (k + 1) * n == k * n + n
  {
  }
}
