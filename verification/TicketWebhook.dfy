/** What a ticket asks of quotas, and the comparison of two resource requirements. */
module TicketWebhook {
  import opened Common
  import opened Resources
  import opened Lists
  import opened TicketModel
  import opened QuotaModel

  /** Ranging over a nil map is ranging over an empty one. */
  function OrEmpty(list: Option<ResourceList>): ResourceList {
    if list.Some? then list.value else map[]
  }

  /** The requests a ticket states, none if it has no requirements at all. */
  function Stated(t: Ticket): ResourceList {
    if t.spec.resources.Some? then OrEmpty(t.spec.resources.value.requests) else map[]
  }

  const TICKETS := "tickets"

  const ONE_TICKET: ResourceList := map[TICKETS := 1.0]

  lemma TicketsAreUnreserved(n: string)
    ensures RESERVED + n !in ONE_TICKET
  {
    UnreservedName(n, TICKETS);
  }

  /** What one ticket asks for: itself, and all that it states under reserved names. */
  function TicketRequests(t: Ticket): ResourceList {
    Reserved(Stated(t)) + ONE_TICKET
  }

  /** Resource by resource; nothing else is ever asked for. */
  lemma TicketAsksFor(t: Ticket, n: string)
    ensures Read(TicketRequests(t), TICKETS) == 1.0
    ensures Read(TicketRequests(t), RESERVED + n) == Read(Stated(t), n)
    ensures Read(TicketRequests(t), "reserved." + n) ==
            match t.spec.resources
            case Some(Requirements(Some(list), _)) => Read(list, n)
            case _ => 0.0
    ensures n in TicketRequests(t) ==> n == TICKETS || (exists m :: m in Stated(t) && n == RESERVED + m)
  {
    ReservedEntries(Stated(t));
    ReadReserved(Stated(t), n);
    UnreservedName(n, TICKETS);
  }

  /** `calculateTicketResourceRequests`. */
  method CalculateTicketResourceRequests(t: Ticket) returns (requests: ResourceList)
    ensures requests == TicketRequests(t)
  {
    requests := map[];
    requests := requests[TICKETS := 1.0];
    NothingReserved(ONE_TICKET);
    if t.spec.resources.Some? && t.spec.resources.value.requests.Some? {
      var list := t.spec.resources.value.requests.value;
      var left := list.Keys;
      NothingSeen(list);
      while left != {}
        invariant left <= list.Keys
        invariant requests == Reserved(list - left) + ONE_TICKET
        decreases |left|
      {
        var name :| name in left;
        OneMoreSeen(list, left, name);
        TicketsAreUnreserved(name);
        RequestsGrow(list - left, name, list[name], ONE_TICKET);
        left := left - {name};
        requests := requests[RESERVED + name := list[name]];
      }
      AllSeen(list);
    }
  }

  // ---------------------------------------------------------------- Comparison

  /** One of the two loops of `resourcesEqual`: every entry of the old list is in the new one. */
  predicate Carried(prior: ResourceList, wanted: ResourceList) {
    forall n :: n in prior ==> n in wanted && prior[n] == wanted[n]
  }

  /** `resourcesEqual`: equal sizes, and the old entries looked up in the new lists. */
  predicate ResourcesEqual(a: Requirements, b: Requirements) {
    && |OrEmpty(a.requests)| == |OrEmpty(b.requests)|
    && |OrEmpty(a.limits)| == |OrEmpty(b.limits)|
    && Carried(OrEmpty(a.requests), OrEmpty(b.requests))
    && Carried(OrEmpty(a.limits), OrEmpty(b.limits))
  }

  /** Looking one way is enough because the sizes agree. */
  lemma CarriedIsEqual(a: ResourceList, b: ResourceList)
    ensures |a| == |b| && Carried(a, b) <==> a == b
  {
    if |a| == |b| && Carried(a, b) {
      assert |a.Keys| == |a| && |b.Keys| == |b|;
      SubsetOfSameSize(a.Keys, b.Keys);
      assert a == b;
    }
  }

  /** The comparison is equality, with a nil list and an empty one taken as the same. */
  lemma ResourcesEqualIsEquality(a: Requirements, b: Requirements)
    ensures ResourcesEqual(a, b) <==>
            OrEmpty(a.requests) == OrEmpty(b.requests) && OrEmpty(a.limits) == OrEmpty(b.limits)
  {
    CarriedIsEqual(OrEmpty(a.requests), OrEmpty(b.requests));
    CarriedIsEqual(OrEmpty(a.limits), OrEmpty(b.limits));
  }

  // ---------------------------------------------------------------- The webhook's own quota check

  /** The ticket webhook compares each request with the limit and never looks at usage. */
  predicate FitsAlone(requests: ResourceList, hard: ResourceList) {
    forall n :: n in requests && n in hard ==> requests[n] <= hard[n]
  }

  /**
    It refuses nothing that the projection would let pass: on top of a non-negative usage, a
    request that is too large alone is too large together.
   */
  lemma FitsAloneIsWeaker(usage: ResourceList, requests: ResourceList, hard: ResourceList)
    requires forall n :: n in usage ==> usage[n] >= 0.0
    requires !Exceeded(Projected(usage, requests), hard)
    ensures FitsAlone(requests, hard)
  {
    var p := Projected(usage, requests);
    forall n | n in requests && n in hard ensures requests[n] <= hard[n] {
      assert p[n] == Read(usage, n) + requests[n];
    }
  }

  /** A ticket as its specification check lets it through: no negative request. */
  ghost predicate NonNegative(t: Ticket) {
    forall n :: n in Stated(t) ==> Stated(t)[n] >= 0.0
  }

  /** For this ticket the webhook's own check and the projection say the same. */
  ghost predicate AgreesOn(t: Ticket, usage: ResourceList, hard: ResourceList) {
    FitsAlone(TicketRequests(t), hard) <==> !Exceeded(Projected(usage, TicketRequests(t)), hard)
  }

  /** There is room for one more ticket, and nothing reserved that is limited is in use. */
  ghost predicate RoomAndNothingReserved(usage: ResourceList, hard: ResourceList) {
    && (TICKETS in hard ==> Read(usage, TICKETS) + 1.0 <= hard[TICKETS])
    && forall m: string :: RESERVED + m in hard ==> Read(usage, RESERVED + m) == 0.0
  }

  /**
    When the webhook's own check is as good as the projection, for all tickets at once: exactly if the
    quota lets no ticket in at all, or if one more ticket fits and no reserved resource that the quota
    limits is in use. Limits on orders play no part, because no ticket asks for any.
   */
  lemma FitsAloneIsEnoughIff(usage: ResourceList, hard: ResourceList)
    requires forall n :: n in usage ==> usage[n] >= 0.0
    requires forall n :: n in hard ==> hard[n] >= 0.0
    requires !Exceeded(usage, hard)
    ensures (forall t: Ticket :: NonNegative(t) ==> AgreesOn(t, usage, hard))
        <==> (TICKETS in hard && hard[TICKETS] < 1.0) || RoomAndNothingReserved(usage, hard)
  {
    if TICKETS in hard && hard[TICKETS] < 1.0 {
      forall t: Ticket ensures AgreesOn(t, usage, hard) {
        NothingFits(t, usage, hard);
      }
    } else if RoomAndNothingReserved(usage, hard) {
      forall t: Ticket ensures AgreesOn(t, usage, hard) {
        EverythingAgrees(t, usage, hard);
      }
    } else if TICKETS in hard && Read(usage, TICKETS) + 1.0 > hard[TICKETS] {
      var t := TicketAsking(map[]);
      OneMoreIsTooMany(t, usage, hard);
    } else {
      var m: string :| RESERVED + m in hard && Read(usage, RESERVED + m) != 0.0;
      var t := TicketAsking(map[m := hard[RESERVED + m]]);
      SecondShareIsTooMuch(t, usage, hard, m);
    }
  }

  /** A ticket that states these requests and nothing else. */
  function TicketAsking(requests: ResourceList): (t: Ticket)
    ensures Stated(t) == requests
  {
    Ticket(Key("", ""), 0, 0, Meta(map[], map[]), false, false,
           Spec(NoWindow, Retain, None, None, Some(Requirements(Some(requests), None))), NEW_STATUS)
  }

  lemma AskedTickets(t: Ticket)
    ensures TICKETS in TicketRequests(t) && TicketRequests(t)[TICKETS] == 1.0
  {
  }

  lemma NothingFits(t: Ticket, usage: ResourceList, hard: ResourceList)
    requires forall n :: n in usage ==> usage[n] >= 0.0
    requires TICKETS in hard && hard[TICKETS] < 1.0
    ensures !FitsAlone(TicketRequests(t), hard) && Exceeded(Projected(usage, TicketRequests(t)), hard)
  {
    AskedTickets(t);
    assert Projected(usage, TicketRequests(t))[TICKETS] == Read(usage, TICKETS) + 1.0;
  }

  lemma EverythingAgrees(t: Ticket, usage: ResourceList, hard: ResourceList)
    requires forall n :: n in usage ==> usage[n] >= 0.0
    requires !Exceeded(usage, hard) && RoomAndNothingReserved(usage, hard)
    ensures AgreesOn(t, usage, hard)
  {
    var r := TicketRequests(t);
    var p := Projected(usage, r);
    AskedTickets(t);
    forall n | n in hard ensures (n in r && r[n] > hard[n]) <==> (n in p && p[n] > hard[n]) {
      if n in r && n != TICKETS {
        TicketAsksFor(t, n);
        ReservedEntries(Stated(t));
        var m: string :| m in Stated(t) && n == RESERVED + m;
        assert Read(usage, n) == 0.0;
      }
      assert n in p ==> p[n] == Read(usage, n) + Read(r, n);
    }
  }

  lemma OneMoreIsTooMany(t: Ticket, usage: ResourceList, hard: ResourceList)
    requires Stated(t) == map[] && TICKETS in hard
    requires 1.0 <= hard[TICKETS] < Read(usage, TICKETS) + 1.0
    ensures NonNegative(t) && !AgreesOn(t, usage, hard)
  {
    AskedTickets(t);
    NothingReserved(ONE_TICKET);
    var r := TicketRequests(t);
    assert r == ONE_TICKET;
    assert Projected(usage, r)[TICKETS] == Read(usage, TICKETS) + 1.0;
  }

  lemma SecondShareIsTooMuch(t: Ticket, usage: ResourceList, hard: ResourceList, m: string)
    requires forall n :: n in usage ==> usage[n] >= 0.0
    requires forall n :: n in hard ==> hard[n] >= 0.0
    requires TICKETS in hard ==> hard[TICKETS] >= 1.0
    requires RESERVED + m in hard && Read(usage, RESERVED + m) != 0.0
    requires Stated(t) == map[m := hard[RESERVED + m]]
    ensures NonNegative(t) && !AgreesOn(t, usage, hard)
  {
    var r, share := TicketRequests(t), RESERVED + m;
    AskedTickets(t);
    TicketAsksFor(t, m);
    ReservedEntries(Stated(t));
    TicketsAreUnreserved(m);
    assert share in r && r[share] == hard[share];
    forall n | n in r && n in hard ensures r[n] <= hard[n] {
      TicketAsksFor(t, n);
    }
    assert Projected(usage, r)[share] == Read(usage, share) + hard[share];
  }

  /** It is strictly weaker: a full quota still lets one more ticket through. */
  lemma FitsAloneIsNotEnough(t: Ticket)
    requires t.spec.resources.None?
    ensures var full := map[TICKETS := 1.0];
      && FitsAlone(TicketRequests(t), full)
      && Exceeded(Projected(full, TicketRequests(t)), full)
  {
    var full := map[TICKETS := 1.0];
    assert Reserved(Stated(t)) == map[];
    assert Projected(full, TicketRequests(t))[TICKETS] == 2.0;
  }

  // ---------------------------------------------------------------- Runs of the webhook's own check

  predicate Accepted(quotas: seq<Quota>, ns: string, requests: ResourceList) {
    forall i :: 0 <= i < |quotas| && Covers(quotas[i].scope, ns) ==> FitsAlone(requests, quotas[i].hard)
  }

  /** `validateAgainstQuotas`, true for no error. */
  method ValidateAgainstQuotas(quotas: seq<Quota>, ns: string, requests: ResourceList) returns (ok: bool)
    ensures ok <==> Accepted(quotas, ns, requests)
  {
    var i := 0;
    while i < |quotas|
      invariant 0 <= i <= |quotas|
      invariant forall j :: 0 <= j < i && Covers(quotas[j].scope, ns) ==> FitsAlone(requests, quotas[j].hard)
    {
      if Covers(quotas[i].scope, ns) {
        var hard := quotas[i].hard;
        var left := requests.Keys;
        while left != {}
          invariant left <= requests.Keys
          invariant forall n :: n in requests.Keys - left && n in hard ==> requests[n] <= hard[n]
          decreases |left|
        {
          var name :| name in left;
          left := left - {name};
          if name in hard && requests[name] > hard[name] {
            return false;
          }
        }
      }
      i := i + 1;
    }
    return true;
  }

  /** The tickets stored after a run of arrivals, each admitted or refused as it comes. */
  function Stored(quotas: seq<Quota>, before: seq<Ticket>, arrivals: seq<Ticket>): seq<Ticket> {
    if arrivals == [] then before
    else
      var front, t := Stored(quotas, before, arrivals[..|arrivals| - 1]), arrivals[|arrivals| - 1];
      if Accepted(quotas, t.key.ns, TicketRequests(t)) then front + [t] else front
  }

  /**
    Nothing that is stored ever counts: a quota that limits only tickets lets any number of tickets in
    if its limit is at least one, and none at all otherwise.
   */
  lemma {:induction false} TicketsAreNeverCounted(q: Quota, before: seq<Ticket>, arrivals: seq<Ticket>)
    requires q.hard.Keys == {TICKETS}
    requires forall i :: 0 <= i < |arrivals| ==> Covers(q.scope, arrivals[i].key.ns)
    ensures Stored([q], before, arrivals) == before + if q.hard[TICKETS] >= 1.0 then arrivals else []
  {
    if arrivals == [] {
      assert before + [] == before;
    } else {
      var front, t := arrivals[..|arrivals| - 1], arrivals[|arrivals| - 1];
      TicketsAreNeverCounted(q, before, front);
      AcceptedByCount(q, t);
      assert before + front + [t] == before + arrivals;
    }
  }

  lemma AcceptedByCount(q: Quota, t: Ticket)
    requires q.hard.Keys == {TICKETS} && Covers(q.scope, t.key.ns)
    ensures Accepted([q], t.key.ns, TicketRequests(t)) <==> q.hard[TICKETS] >= 1.0
  {
    AskedTickets(t);
    assert [q][0] == q;
  }
}
