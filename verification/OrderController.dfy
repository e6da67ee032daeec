/**
  The order reconciler: how many tickets an order creates or deletes, under which names, and what
  repeated reconciles do while finalizers make deletion lag. Versions and identities of tickets
  play no part here.
 */
module OrderController {
  import opened Common
  import opened Conditions
  import opened Lists
  import opened Text
  import opened TicketModel

  datatype Policy = Always | OnClaim | Never | OtherPolicy

  /** An order; its replica count is never negative (the schema's minimum) and defaults to one. */
  datatype Order = Order(
    key: Key,
    uid: string,
    replicas: Option<nat>,
    policy: Policy,
    labels: map<string, string>,
    template: Spec)

  const ORDER_LABEL := "korder.dev/order"
  const ORDER_UID_LABEL := "korder.dev/order-uid"

  function Desired(o: Order): nat {
    if o.replicas.Some? then o.replicas.value else 1
  }

  /** `fmt.Sprintf("%s-%d", order.Name, index)`. */
  function TicketName(order: string, index: nat): string {
    order + "-" + Decimal(index)
  }

  function TicketKey(o: Order, index: nat): Key {
    Key(o.key.ns, TicketName(o.key.name, index))
  }

  function NewTicket(o: Order, index: nat): Ticket {
    Ticket(TicketKey(o, index), 0, 0,
           Meta(o.labels[ORDER_LABEL := o.key.name][ORDER_UID_LABEL := o.uid], map[]),
           false, false, o.template, NEW_STATUS)
  }

  /** The tickets `getOwnedTickets` lists. */
  predicate Owns(o: Order, t: Ticket) {
    t.key.ns == o.key.ns && ORDER_LABEL in t.meta.labels && t.meta.labels[ORDER_LABEL] == o.key.name
  }

  predicate IsActive(t: Ticket) {
    t.status.phase != Expired
  }

  predicate IsClaimed(t: Ticket) {
    t.status.phase == Claimed
  }

  function OwnedTickets(tickets: seq<Ticket>, o: Order): seq<Ticket> {
    Filter(tickets, (t: Ticket) => Owns(o, t))
  }

  function ActiveTickets(tickets: seq<Ticket>): seq<Ticket> {
    Filter(tickets, (t: Ticket) => IsActive(t))
  }

  function Active(tickets: seq<Ticket>, o: Order): seq<Ticket> {
    ActiveTickets(OwnedTickets(tickets, o))
  }

  // ---------------------------------------------------------------- Names

  /** Decimals hold no dash, so the last dash of a name separates order and index. */
  lemma {:induction false} TicketNameInjective(a: string, i: nat, b: string, j: nat)
    requires TicketName(a, i) == TicketName(b, j)
    ensures a == b && i == j
  {
    var s := TicketName(a, i);
    DecimalFree(i, '-');
    DecimalFree(j, '-');
    assert s[|a| + 1..] == Decimal(i) && s[|b| + 1..] == Decimal(j);
    assert forall k :: |a| < k < |s| ==> s[k] == Decimal(i)[k - |a| - 1];
    assert forall k :: |b| < k < |s| ==> s[k] == Decimal(j)[k - |b| - 1];
    assert s[|a|] == '-' && s[|b|] == '-';
    assert |a| == |b|;
    assert s[..|a|] == a && s[..|b|] == b;
    DecimalInjective(i, j);
  }

  // ---------------------------------------------------------------- Deletion

  /** `Delete` on each of these keys: a ticket with a finalizer is marked, any other goes. */
  function DeleteAll(tickets: seq<Ticket>, keys: set<Key>): seq<Ticket> {
    if tickets == [] then []
    else
      var front, t := DeleteAll(tickets[..|tickets| - 1], keys), tickets[|tickets| - 1];
      if t.key !in keys then front + [t]
      else if t.finalizer then front + [t.(deleting := true)]
      else front
  }

  function KeysOf(tickets: seq<Ticket>): set<Key> {
    set t | t in tickets :: t.key
  }

  lemma {:induction false} DeleteTwice(tickets: seq<Ticket>, a: set<Key>, b: set<Key>)
    ensures DeleteAll(DeleteAll(tickets, a), b) == DeleteAll(tickets, a + b)
  {
    if tickets != [] {
      var n := |tickets| - 1;
      var front, t := DeleteAll(tickets[..n], a), tickets[n];
      DeleteTwice(tickets[..n], a, b);
      if t.key !in a || t.finalizer {
        var t' := if t.key in a then t.(deleting := true) else t;
        assert (front + [t'])[..|front|] == front;
      }
    }
  }

  lemma {:induction false} DeleteNone(tickets: seq<Ticket>, keys: set<Key>)
    requires forall t :: t in tickets ==> t.key !in keys
    ensures DeleteAll(tickets, keys) == tickets
  {
    if tickets != [] {
      assert forall t :: t in tickets[..|tickets| - 1] ==> t in tickets;
      assert tickets[|tickets| - 1] in tickets;
      DeleteNone(tickets[..|tickets| - 1], keys);
    }
  }

  lemma {:induction false} DeleteAppend(a: seq<Ticket>, b: seq<Ticket>, keys: set<Key>)
    ensures DeleteAll(a + b, keys) == DeleteAll(a, keys) + DeleteAll(b, keys)
    decreases |b|
  {
    if b == [] {
      assert a + b == a;
    } else {
      DeleteAppend(a, b[..|b| - 1], keys);
      assert (a + b)[..|a + b| - 1] == a + b[..|b| - 1];
    }
  }

  /** A test that deletion marks do not affect. */
  ghost predicate Unmarked(keep: Ticket -> bool) {
    forall t: Ticket :: keep(t.(deleting := true)) == keep(t)
  }

  lemma {:induction false} FilterDeleted(tickets: seq<Ticket>, keys: set<Key>, keep: Ticket -> bool)
    requires Unmarked(keep)
    ensures Filter(DeleteAll(tickets, keys), keep) == DeleteAll(Filter(tickets, keep), keys)
  {
    if tickets != [] {
      var n := |tickets| - 1;
      var front, t := DeleteAll(tickets[..n], keys), tickets[n];
      FilterDeleted(tickets[..n], keys, keep);
      var kept := Filter(tickets[..n], keep);
      if keep(t) {
        assert (kept + [t])[..|kept|] == kept;
      }
      if t.key !in keys || t.finalizer {
        var t' := if t.key in keys then t.(deleting := true) else t;
        assert (front + [t'])[..|front|] == front;
        assert keep(t') == keep(t);
      }
    }
  }

  lemma ActiveAfterDelete(tickets: seq<Ticket>, o: Order, keys: set<Key>)
    ensures Active(DeleteAll(tickets, keys), o) == DeleteAll(Active(tickets, o), keys)
  {
    FilterDeleted(tickets, keys, (t: Ticket) => Owns(o, t));
    FilterDeleted(OwnedTickets(tickets, o), keys, (t: Ticket) => IsActive(t));
  }

  // ---------------------------------------------------------------- Excess tickets

  /** The last `n` claimed tickets of a list, or all of them if there are fewer. */
  function LastClaimed(active: seq<Ticket>, n: nat): set<Key> {
    if active == [] || n == 0 then {}
    else
      var front, t := active[..|active| - 1], active[|active| - 1];
      if IsClaimed(t) then {t.key} + LastClaimed(front, n - 1) else LastClaimed(front, n)
  }

  /** The tickets `handleExcessTickets` deletes. */
  function Victims(policy: Policy, active: seq<Ticket>, desired: nat): set<Key> {
    if |active| <= desired then {}
    else
      match policy
      case Always => KeysOf(active[desired..])
      case OnClaim => LastClaimed(active, |active| - desired)
      case _ => {}
  }

  function CountClaimed(tickets: seq<Ticket>): nat {
    |Filter(tickets, (t: Ticket) => IsClaimed(t))|
  }

  lemma LastKeyIsNew(tickets: seq<Ticket>)
    requires DistinctKeys(tickets) && tickets != []
    ensures tickets[|tickets| - 1].key !in KeysOf(tickets[..|tickets| - 1])
  {
    var m := |tickets| - 1;
    forall u | u in tickets[..m] ensures u.key != tickets[m].key {
      var j :| 0 <= j < m && tickets[..m][j] == u;
      assert tickets[j].key != tickets[m].key;
    }
  }

  lemma {:induction false} LastClaimedMisses(active: seq<Ticket>, n: nat, key: Key)
    requires forall j :: 0 <= j < |active| ==> active[j].key != key
    ensures key !in LastClaimed(active, n)
  {
    if active != [] && n > 0 {
      LastClaimedMisses(active[..|active| - 1], n, key);
      LastClaimedMisses(active[..|active| - 1], n - 1, key);
    }
  }

  lemma CountClaimedSnoc(tickets: seq<Ticket>, t: Ticket)
    ensures CountClaimed(tickets + [t]) == CountClaimed(tickets) + if IsClaimed(t) then 1 else 0
  {
    assert (tickets + [t])[..|tickets|] == tickets;
  }

  /** A ticket is among the last `n` claimed ones if it is claimed and fewer than `n` after it are. */
  lemma {:induction false} LastClaimedExactly(active: seq<Ticket>, n: nat, i: nat)
    requires DistinctKeys(active) && i < |active|
    ensures active[i].key in LastClaimed(active, n) <==>
            IsClaimed(active[i]) && CountClaimed(active[i + 1..]) < n
  {
    if n > 0 {
      var m := |active| - 1;
      var front, t := active[..m], active[m];
      var left := if IsClaimed(t) then n - 1 else n;
      if i == m {
        assert active[i + 1..] == [];
        LastClaimedMisses(front, left, t.key);
      } else {
        LastClaimedExactly(front, left, i);
        assert active[i].key != t.key;
        assert active[i + 1..] == front[i + 1..] + [t];
        CountClaimedSnoc(front[i + 1..], t);
      }
    }
  }

  lemma {:induction false} LastClaimedFrom(active: seq<Ticket>, n: nat)
    ensures LastClaimed(active, n) <= KeysOf(active)
  {
    if active != [] && n > 0 {
      var m := |active| - 1;
      LastClaimedFrom(active[..m], n);
      LastClaimedFrom(active[..m], n - 1);
      assert forall t :: t in active[..m] ==> t in active;
      assert active[m] in active;
    }
  }

  lemma {:induction false} LastClaimedSize(active: seq<Ticket>, n: nat)
    requires DistinctKeys(active)
    ensures |LastClaimed(active, n)| == if n < CountClaimed(active) then n else CountClaimed(active)
  {
    if active != [] && n > 0 {
      var m := |active| - 1;
      var front, t := active[..m], active[m];
      LastClaimedSize(front, if IsClaimed(t) then n - 1 else n);
      LastClaimedFrom(front, n - 1);
      LastKeyIsNew(active);
    }
  }

  /** The victims of a policy, ticket by ticket, with no reference to the order of deletion. */
  lemma VictimsExactly(policy: Policy, active: seq<Ticket>, desired: nat, i: nat)
    requires DistinctKeys(active) && i < |active|
    ensures active[i].key in Victims(policy, active, desired) <==>
            match policy
            case Always => i >= desired
            case OnClaim => IsClaimed(active[i]) && CountClaimed(active[i + 1..]) + desired < |active|
            case _ => false
  {
    if |active| > desired {
      match policy
      case Always =>
        if i >= desired {
          assert active[desired..][i - desired] == active[i];
        } else {
          SuffixKeysAreOthers(active, desired);
          assert active[..desired][i] == active[i];
        }
      case OnClaim => LastClaimedExactly(active, |active| - desired, i);
      case _ =>
    } else if policy.OnClaim? {
      assert CountClaimed(active[i + 1..]) >= 0;
    }
  }

  lemma {:induction false} KeysOfDistinct(tickets: seq<Ticket>)
    requires DistinctKeys(tickets)
    ensures |KeysOf(tickets)| == |tickets|
  {
    if tickets != [] {
      var m := |tickets| - 1;
      var front, t := tickets[..m], tickets[m];
      KeysOfDistinct(front);
      assert tickets == front + [t];
      assert KeysOf(tickets) == KeysOf(front) + {t.key};
      LastKeyIsNew(tickets);
    }
  }

  /**
    What is left once the victims are gone: Always leaves the desired number, OnClaim the larger of
    that and the unclaimed tickets, and every other policy everything.
   */
  lemma SurvivorCount(policy: Policy, active: seq<Ticket>, desired: nat)
    requires DistinctKeys(active) && |active| > desired
    ensures Victims(policy, active, desired) <= KeysOf(active)
    ensures |active| - |Victims(policy, active, desired)| ==
            match policy
            case Always => desired
            case OnClaim =>
              if desired > |active| - CountClaimed(active) then desired else |active| - CountClaimed(active)
            case _ => |active|
  {
    match policy
    case Always =>
      assert DistinctKeys(active[desired..]);
      KeysOfDistinct(active[desired..]);
    case OnClaim =>
      LastClaimedSize(active, |active| - desired);
      LastClaimedFrom(active, |active| - desired);
    case _ =>
  }

  // ---------------------------------------------------------------- One reconcile

  predicate Taken(tickets: seq<Ticket>, key: Key) {
    exists i :: 0 <= i < |tickets| && tickets[i].key == key
  }

  /** Creates `count` tickets from `index` on, stopping at the first name already in use. */
  function CreateFrom(tickets: seq<Ticket>, o: Order, index: nat, count: nat): (seq<Ticket>, bool)
    decreases count
  {
    if count == 0 then (tickets, true)
    else if Taken(tickets, TicketKey(o, index)) then (tickets, false)
    else CreateFrom(tickets + [NewTicket(o, index)], o, index + 1, count - 1)
  }

  /** The tickets of the namespace after `reconcileTickets`, and whether it returned without error. */
  function Reconciled(tickets: seq<Ticket>, o: Order): (seq<Ticket>, bool) {
    var current, active, desired := OwnedTickets(tickets, o), Active(tickets, o), Desired(o);
    if |active| < desired then CreateFrom(tickets, o, |current|, desired - |active|)
    else (DeleteAll(tickets, Victims(o.policy, active, desired)), true)
  }

  function Least(a: nat, b: nat): nat {
    if a < b then a else b
  }

  /** The same when the API server lets only so many writes through: creation and deletion stop there. */
  function Interrupted(tickets: seq<Ticket>, o: Order, calls: nat): (seq<Ticket>, bool) {
    var current, active, desired := OwnedTickets(tickets, o), Active(tickets, o), Desired(o);
    if |active| < desired then
      var (after, ok) := CreateFrom(tickets, o, |current|, Least(desired - |active|, calls));
      (after, ok && desired - |active| <= calls)
    else
      (DeleteAll(tickets, FirstVictims(o.policy, active, desired, calls)),
       |Victims(o.policy, active, desired)| <= calls)
  }

  /** The victims that are reached before the calls run out. */
  function FirstVictims(policy: Policy, active: seq<Ticket>, desired: nat, calls: nat): set<Key> {
    Victims(policy, active, if desired + calls < |active| then |active| - calls else desired)
  }

  function NewTickets(o: Order, index: nat, count: nat): seq<Ticket> {
    seq(count, i requires 0 <= i < count => NewTicket(o, index + i))
  }

  lemma OwnsNewTicket(o: Order, index: nat)
    ensures Owns(o, NewTicket(o, index)) && IsActive(NewTicket(o, index))
  {
  }

  /** Creation goes through exactly when none of the names is in use, and then adds just those tickets. */
  lemma {:induction false} CreateFromExactly(tickets: seq<Ticket>, o: Order, index: nat, count: nat)
    ensures CreateFrom(tickets, o, index, count).1 <==>
            forall n: nat :: index <= n < index + count ==> !Taken(tickets, TicketKey(o, n))
    ensures CreateFrom(tickets, o, index, count).1 ==>
            CreateFrom(tickets, o, index, count).0 == tickets + NewTickets(o, index, count)
    ensures tickets <= CreateFrom(tickets, o, index, count).0
    decreases count
  {
    if count == 0 {
      assert NewTickets(o, index, 0) == [];
      assert tickets + [] == tickets;
    } else if !Taken(tickets, TicketKey(o, index)) {
      var more := tickets + [NewTicket(o, index)];
      CreateFromExactly(more, o, index + 1, count - 1);
      forall n: nat | index < n < index + count
        ensures Taken(more, TicketKey(o, n)) <==> Taken(tickets, TicketKey(o, n))
      {
        TakenAppend(tickets, o, index, n);
      }
      assert [NewTicket(o, index)] + NewTickets(o, index + 1, count - 1) == NewTickets(o, index, count);
      assert more + NewTickets(o, index + 1, count - 1) == tickets + NewTickets(o, index, count);
    }
  }

  /** A new ticket takes its own name and no other of the order's. */
  lemma TakenAppend(tickets: seq<Ticket>, o: Order, index: nat, n: nat)
    requires n != index
    ensures Taken(tickets + [NewTicket(o, index)], TicketKey(o, n)) <==> Taken(tickets, TicketKey(o, n))
  {
    var more := tickets + [NewTicket(o, index)];
    if TicketKey(o, n) == TicketKey(o, index) {
      TicketNameInjective(o.key.name, n, o.key.name, index);
    }
    if Taken(tickets, TicketKey(o, n)) {
      var j :| 0 <= j < |tickets| && tickets[j].key == TicketKey(o, n);
      assert more[j].key == TicketKey(o, n);
    }
  }

  lemma {:induction false} FilterNewTickets(o: Order, index: nat, count: nat)
    ensures OwnedTickets(NewTickets(o, index, count), o) == NewTickets(o, index, count)
    ensures ActiveTickets(NewTickets(o, index, count)) == NewTickets(o, index, count)
    decreases count
  {
    if count > 0 {
      var all := NewTickets(o, index, count);
      FilterNewTickets(o, index, count - 1);
      assert all[..count - 1] == NewTickets(o, index, count - 1);
      OwnsNewTicket(o, index + count - 1);
      assert all == all[..count - 1] + [NewTicket(o, index + count - 1)];
    }
  }

  /** The order's tickets bear exactly the names 0 to n-1. */
  ghost predicate Contiguous(tickets: seq<Ticket>, o: Order) {
    var owned := OwnedTickets(tickets, o);
    && (forall t :: t in owned ==> exists i: nat :: i < |owned| && t.key == TicketKey(o, i))
    && (forall i: nat :: i < |owned| ==> Taken(owned, TicketKey(o, i)))
  }

  /** Every ticket of the namespace was named by the order its label names. */
  ghost predicate NamedByOrders(tickets: seq<Ticket>, ns: string) {
    forall t :: t in tickets && t.key.ns == ns ==>
      && ORDER_LABEL in t.meta.labels
      && exists i: nat :: t.key.name == TicketName(t.meta.labels[ORDER_LABEL], i)
  }

  lemma FreeNames(tickets: seq<Ticket>, o: Order, i: nat)
    requires NamedByOrders(tickets, o.key.ns) && Contiguous(tickets, o)
    requires i >= |OwnedTickets(tickets, o)|
    ensures !Taken(tickets, TicketKey(o, i))
  {
    if Taken(tickets, TicketKey(o, i)) {
      var k :| 0 <= k < |tickets| && tickets[k].key == TicketKey(o, i);
      var t := tickets[k];
      assert t in tickets;
      var j: nat :| t.key.name == TicketName(t.meta.labels[ORDER_LABEL], j);
      TicketNameInjective(o.key.name, i, t.meta.labels[ORDER_LABEL], j);
      FilterKeeps(tickets, (u: Ticket) => Owns(o, u), t);
      assert t in OwnedTickets(tickets, o);
      var m: nat :| m < |OwnedTickets(tickets, o)| && t.key == TicketKey(o, m);
      TicketNameInjective(o.key.name, i, o.key.name, m);
    }
  }

  /** Creation adds the tickets up to the first name in use. */
  lemma {:induction false} CreateFromPrefix(tickets: seq<Ticket>, o: Order, index: nat, count: nat) returns (made: nat)
    ensures made <= count
    ensures CreateFrom(tickets, o, index, count).0 == tickets + NewTickets(o, index, made)
    ensures CreateFrom(tickets, o, index, count).1 <==> made == count
    decreases count
  {
    if count == 0 || Taken(tickets, TicketKey(o, index)) {
      made := 0;
      assert tickets + NewTickets(o, index, 0) == tickets;
    } else {
      var more := tickets + [NewTicket(o, index)];
      made := CreateFromPrefix(more, o, index + 1, count - 1);
      assert [NewTicket(o, index)] + NewTickets(o, index + 1, made) == NewTickets(o, index, made + 1);
      assert more + NewTickets(o, index + 1, made) == tickets + NewTickets(o, index, made + 1);
      made := made + 1;
    }
  }

  lemma ScaleUpAdds(tickets: seq<Ticket>, o: Order) returns (made: nat)
    requires |Active(tickets, o)| < Desired(o)
    ensures made <= Desired(o) - |Active(tickets, o)|
    ensures Reconciled(tickets, o).0 == tickets + NewTickets(o, |OwnedTickets(tickets, o)|, made)
    ensures Reconciled(tickets, o).1 <==> made == Desired(o) - |Active(tickets, o)|
    ensures |Active(Reconciled(tickets, o).0, o)| == |Active(tickets, o)| + made
  {
    var first := |OwnedTickets(tickets, o)|;
    made := CreateFromPrefix(tickets, o, first, Desired(o) - |Active(tickets, o)|);
    AppendOwned(tickets, o, first, made);
  }

  /**
    Scale-up, whatever else lives in the namespace: below the target a reconcile ends with exactly the
    desired number of active tickets if and only if it returns without an error; it then has added the
    next names and nothing else. Error or not, every existing ticket stays as it was, and contiguous
    names stay contiguous.
   */
  lemma ScaleUpIsExact(tickets: seq<Ticket>, o: Order)
    requires |Active(tickets, o)| < Desired(o)
    ensures
      var (after, ok) := Reconciled(tickets, o);
      && (ok <==> |Active(after, o)| == Desired(o))
      && (ok ==> after == tickets + NewTickets(o, |OwnedTickets(tickets, o)|, Desired(o) - |Active(tickets, o)|))
      && tickets <= after
      && (Contiguous(tickets, o) ==> Contiguous(after, o))
  {
    var made := ScaleUpAdds(tickets, o);
    if Contiguous(tickets, o) {
      AppendOwned(tickets, o, |OwnedTickets(tickets, o)|, made);
      ContiguousAppend(tickets, o, made);
    }
  }

  /**
    It does return without an error when names are contiguous and every ticket of the namespace was
    named by an order, because no order's names can collide with another's.
   */
  lemma ScaleUpSucceeds(tickets: seq<Ticket>, o: Order)
    requires NamedByOrders(tickets, o.key.ns) && Contiguous(tickets, o)
    requires |Active(tickets, o)| < Desired(o)
    ensures Reconciled(tickets, o).1 && NamedByOrders(Reconciled(tickets, o).0, o.key.ns)
  {
    var owned, n := OwnedTickets(tickets, o), Desired(o) - |Active(tickets, o)|;
    forall i: nat | |owned| <= i < |owned| + n ensures !Taken(tickets, TicketKey(o, i)) {
      FreeNames(tickets, o, i);
    }
    CreateFromExactly(tickets, o, |owned|, n);
    NamedAppend(tickets, o, n);
  }

  lemma AppendOwned(tickets: seq<Ticket>, o: Order, index: nat, n: nat)
    ensures OwnedTickets(tickets + NewTickets(o, index, n), o) == OwnedTickets(tickets, o) + NewTickets(o, index, n)
    ensures Active(tickets + NewTickets(o, index, n), o) == Active(tickets, o) + NewTickets(o, index, n)
  {
    var added := NewTickets(o, index, n);
    FilterAppend(tickets, added, (t: Ticket) => Owns(o, t));
    FilterNewTickets(o, index, n);
    FilterAppend(OwnedTickets(tickets, o), added, (t: Ticket) => IsActive(t));
  }

  lemma ContiguousAppend(tickets: seq<Ticket>, o: Order, n: nat)
    requires Contiguous(tickets, o)
    requires
      var added := NewTickets(o, |OwnedTickets(tickets, o)|, n);
      OwnedTickets(tickets + added, o) == OwnedTickets(tickets, o) + added
    ensures Contiguous(tickets + NewTickets(o, |OwnedTickets(tickets, o)|, n), o)
  {
    var owned := OwnedTickets(tickets, o);
    var added := NewTickets(o, |owned|, n);
    var all := owned + added;
    forall t: Ticket | t in all ensures exists i: nat :: i < |all| && t.key == TicketKey(o, i) {
      if t in owned {
        var i: nat :| i < |owned| && t.key == TicketKey(o, i);
        assert i < |all|;
      } else {
        assert t in added;
        var j :| 0 <= j < n && added[j] == t;
        assert added[j] == NewTicket(o, |owned| + j);
        assert t.key == TicketKey(o, |owned| + j);
      }
    }
    forall i: nat | i < |all| ensures Taken(all, TicketKey(o, i)) {
      if i < |owned| {
        var j :| 0 <= j < |owned| && owned[j].key == TicketKey(o, i);
        assert all[j].key == TicketKey(o, i);
      } else {
        assert added[i - |owned|] == NewTicket(o, i);
        assert all[i].key == TicketKey(o, i);
      }
    }
  }

  lemma NamedAppend(tickets: seq<Ticket>, o: Order, n: nat)
    requires NamedByOrders(tickets, o.key.ns)
    ensures NamedByOrders(tickets + NewTickets(o, |OwnedTickets(tickets, o)|, n), o.key.ns)
  {
    var first := |OwnedTickets(tickets, o)|;
    var added := NewTickets(o, first, n);
    forall t | t in tickets + added && t.key.ns == o.key.ns
      ensures ORDER_LABEL in t.meta.labels
      ensures exists i: nat :: t.key.name == TicketName(t.meta.labels[ORDER_LABEL], i)
    {
      if t !in tickets {
        var j :| 0 <= j < n && added[j] == t;
        assert t.key.name == TicketName(o.key.name, first + j);
      }
    }
  }

  /**
    With a gap the naming scheme fails: below the target a reconcile errors exactly when one of the
    next names is in use, and if that is the very next one, it changes nothing, so it fails in the
    same way for ever.
   */
  lemma GapBlocksScaleUp(tickets: seq<Ticket>, o: Order)
    requires |Active(tickets, o)| < Desired(o)
    ensures
      var n := |OwnedTickets(tickets, o)|;
      && (Reconciled(tickets, o).1 <==>
          forall i: nat :: n <= i < n + Desired(o) - |Active(tickets, o)| ==> !Taken(tickets, TicketKey(o, i)))
      && (Taken(tickets, TicketKey(o, n)) ==> Reconciled(tickets, o) == (tickets, false))
  {
    CreateFromExactly(tickets, o, |OwnedTickets(tickets, o)|, Desired(o) - |Active(tickets, o)|);
  }

  /** Deleting the middle one of three tickets is such a case. */
  lemma GapExample(o: Order)
    requires o.replicas == Some(3)
    ensures
      var tickets := [NewTicket(o, 0), NewTicket(o, 2)];
      Reconciled(tickets, o) == (tickets, false)
  {
    var tickets := [NewTicket(o, 0), NewTicket(o, 2)];
    assert NewTickets(o, 0, 1) == [NewTicket(o, 0)] && NewTickets(o, 2, 1) == [NewTicket(o, 2)];
    assert tickets == [] + NewTickets(o, 0, 1) + NewTickets(o, 2, 1);
    AppendOwned([], o, 0, 1);
    AppendOwned([] + NewTickets(o, 0, 1), o, 2, 1);
    assert |OwnedTickets(tickets, o)| == 2 && |Active(tickets, o)| == 2;
    assert tickets[1].key == TicketKey(o, 2);
    GapBlocksScaleUp(tickets, o);
  }

  // ---------------------------------------------------------------- Failing calls

  lemma {:induction false} FewerLastClaimed(active: seq<Ticket>, few: nat, many: nat)
    requires few <= many
    ensures LastClaimed(active, few) <= LastClaimed(active, many)
  {
    if active != [] && few > 0 {
      var front := active[..|active| - 1];
      FewerLastClaimed(front, few, many);
      FewerLastClaimed(front, few - 1, many - 1);
    }
  }

  lemma FirstVictimsAreVictims(policy: Policy, active: seq<Ticket>, desired: nat, calls: nat)
    ensures FirstVictims(policy, active, desired, calls) <= Victims(policy, active, desired)
  {
    if desired + calls < |active| {
      var d := |active| - calls;
      assert forall t :: t in active[d..] ==> t in active[desired..] by {
        assert active[d..] == active[desired..][d - desired..];
      }
      FewerLastClaimed(active, |active| - d, |active| - desired);
    }
  }

  lemma ManyCallsSuffice(policy: Policy, active: seq<Ticket>, desired: nat, calls: nat)
    requires DistinctKeys(active) && |Victims(policy, active, desired)| <= calls
    ensures FirstVictims(policy, active, desired, calls) == Victims(policy, active, desired)
  {
    if desired + calls < |active| {
      match policy
      case Always =>
        assert DistinctKeys(active[desired..]);
        KeysOfDistinct(active[desired..]);
      case OnClaim =>
        LastClaimedSize(active, |active| - desired);
        LastClaimedSize(active, calls);
        FewerLastClaimed(active, calls, |active| - desired);
        SubsetOfSameSize(LastClaimed(active, calls), LastClaimed(active, |active| - desired));
      case _ =>
    }
  }

  /** Without an error a reconcile has done the whole work, and with one only a part of it. */
  lemma InterruptedOrWhole(tickets: seq<Ticket>, o: Order, calls: nat)
    requires DistinctKeys(Active(tickets, o))
    ensures Interrupted(tickets, o, calls).1 ==> Interrupted(tickets, o, calls) == Reconciled(tickets, o)
    ensures |Active(tickets, o)| < Desired(o)
            ==> tickets <= Interrupted(tickets, o, calls).0 <= Reconciled(tickets, o).0
    ensures |Active(tickets, o)| >= Desired(o) ==> exists keys ::
              keys <= Victims(o.policy, Active(tickets, o), Desired(o))
                && Interrupted(tickets, o, calls).0 == DeleteAll(tickets, keys)
  {
    var active, d := Active(tickets, o), Desired(o);
    if |active| < d {
      CreateFromShorter(tickets, o, |OwnedTickets(tickets, o)|, Least(d - |active|, calls), d - |active|);
      CreateFromExactly(tickets, o, |OwnedTickets(tickets, o)|, Least(d - |active|, calls));
    } else {
      FirstVictimsAreVictims(o.policy, active, d, calls);
      if |Victims(o.policy, active, d)| <= calls {
        ManyCallsSuffice(o.policy, active, d, calls);
      }
    }
  }

  lemma {:induction false} CreateFromShorter(tickets: seq<Ticket>, o: Order, index: nat, few: nat, many: nat)
    requires few <= many
    ensures CreateFrom(tickets, o, index, few).0 <= CreateFrom(tickets, o, index, many).0
    decreases few
  {
    if few > 0 && !Taken(tickets, TicketKey(o, index)) {
      CreateFromShorter(tickets + [NewTicket(o, index)], o, index + 1, few - 1, many - 1);
    } else {
      CreateFromExactly(tickets, o, index, many);
    }
  }

  // ---------------------------------------------------------------- What a reconcile leaves, ticket by ticket

  /**
    The tickets a reconcile adds, error or not: numbered on from the order's ticket count, with the
    order's template as their specification, its labels and the two that mark the order, and nothing
    else yet.
   */
  lemma CreatedTickets(tickets: seq<Ticket>, o: Order, calls: nat, i: nat)
    requires |Active(tickets, o)| < Desired(o)
    requires |tickets| <= i < |Interrupted(tickets, o, calls).0|
    ensures
      var t := Interrupted(tickets, o, calls).0[i];
      && t.key == Key(o.key.ns, o.key.name + "-" + Decimal(|OwnedTickets(tickets, o)| + i - |tickets|))
      && t.spec == o.template
      && t.status == NEW_STATUS && !t.deleting && !t.finalizer
    ensures
      var labels := Interrupted(tickets, o, calls).0[i].meta.labels;
      && "korder.dev/order" in labels && labels["korder.dev/order"] == o.key.name
      && "korder.dev/order-uid" in labels && labels["korder.dev/order-uid"] == o.uid
      && forall l :: l != "korder.dev/order" && l != "korder.dev/order-uid" ==>
           (l in labels <==> l in o.labels) && (l in labels ==> labels[l] == o.labels[l])
  {
    var first, n := |OwnedTickets(tickets, o)|, Least(Desired(o) - |Active(tickets, o)|, calls);
    var made := CreateFromPrefix(tickets, o, first, n);
    assert Interrupted(tickets, o, calls).0[i] == NewTickets(o, first, made)[i - |tickets|];
    assert Interrupted(tickets, o, calls).0[i] == NewTicket(o, first + (i - |tickets|));
    assert |ORDER_LABEL| != |ORDER_UID_LABEL|;
  }

  /** A reconcile adds tickets at the end only, no more than are missing. */
  lemma CreatedCount(tickets: seq<Ticket>, o: Order, calls: nat)
    requires |Active(tickets, o)| < Desired(o)
    ensures tickets <= Interrupted(tickets, o, calls).0
    ensures |Interrupted(tickets, o, calls).0| - |tickets| <= Desired(o) - |Active(tickets, o)|
  {
    var made := CreateFromPrefix(tickets, o, |OwnedTickets(tickets, o)|,
      Least(Desired(o) - |Active(tickets, o)|, calls));
  }

  lemma {:induction false} DeletedOne(tickets: seq<Ticket>, keys: set<Key>, t: Ticket)
    requires DistinctKeys(tickets) && t in tickets
    ensures t.key !in keys ==> t in DeleteAll(tickets, keys)
    ensures t.key in keys && t.finalizer ==> t.(deleting := true) in DeleteAll(tickets, keys)
    ensures t.key in keys && !t.finalizer ==> forall u :: u in DeleteAll(tickets, keys) ==> u.key != t.key
  {
    var n := |tickets| - 1;
    var front, last := tickets[..n], tickets[n];
    assert forall u :: u in tickets <==> u in front || u == last;
    LastKeyIsNew(tickets);
    DeleteKeepsKeys(front, keys);
    if t == last {
      forall u | u in DeleteAll(front, keys) ensures u.key != t.key {
        assert u.key in KeysOf(front);
      }
    } else {
      assert t.key in KeysOf(front);
      DeletedOne(front, keys, t);
    }
  }

  /** Which excess ticket a policy deletes, by its place in the list of active tickets. */
  predicate Excess(policy: Policy, active: seq<Ticket>, desired: nat, i: nat)
    requires i < |active|
  {
    match policy
    case Always => i >= desired
    case OnClaim => active[i].status.phase == Claimed && CountClaimed(active[i + 1..]) + desired < |active|
    case Never => false
    case OtherPolicy => false
  }

  /**
    Above the target, ticket by ticket: an active ticket that the policy deletes is marked if it holds
    its finalizer and gone if not, and every other ticket is still there, as it was.
   */
  lemma ReconcileDeletesExactly(tickets: seq<Ticket>, o: Order, t: Ticket)
    requires DistinctKeys(tickets) && t in tickets && |Active(tickets, o)| >= Desired(o)
    ensures
      var (active, after) := (Active(tickets, o), Reconciled(tickets, o).0);
      if exists i :: 0 <= i < |active| && active[i] == t && Excess(o.policy, active, Desired(o), i) then
        if t.finalizer then t.(deleting := true) in after else forall u :: u in after ==> u.key != t.key
      else t in after
  {
    var active, d := Active(tickets, o), Desired(o);
    var victims := Victims(o.policy, active, d);
    OrderReconciler.ActiveDistinct(tickets, o);
    DeletedOne(tickets, victims, t);
    ActiveIsListed(tickets, o);
    if exists i :: 0 <= i < |active| && active[i] == t && Excess(o.policy, active, d, i) {
      var i :| 0 <= i < |active| && active[i] == t && Excess(o.policy, active, d, i);
      VictimsExactly(o.policy, active, d, i);
    } else {
      forall key | key in victims ensures key != t.key {
        VictimIsActive(o.policy, active, d, key);
        var i :| 0 <= i < |active| && active[i].key == key;
        VictimsExactly(o.policy, active, d, i);
        assert active[i] in active;
        if key == t.key {
          SameKeySameTicket(tickets, active[i], t);
        }
      }
    }
  }

  /** Which tickets count for an order: those of its namespace with its label that are not expired. */
  lemma ActiveExactly(tickets: seq<Ticket>, o: Order, t: Ticket)
    ensures t in Active(tickets, o) <==>
      && t in tickets && t.key.ns == o.key.ns
      && "korder.dev/order" in t.meta.labels && t.meta.labels["korder.dev/order"] == o.key.name
      && t.status.phase != Expired
  {
    FilterKeeps(OwnedTickets(tickets, o), (u: Ticket) => IsActive(u), t);
    FilterKeeps(tickets, (u: Ticket) => Owns(o, u), t);
  }

  lemma ActiveIsListed(tickets: seq<Ticket>, o: Order)
    ensures forall t :: t in Active(tickets, o) ==> t in tickets && Owns(o, t)
  {
    forall t | t in Active(tickets, o) ensures t in tickets && Owns(o, t) {
      ActiveExactly(tickets, o, t);
    }
  }

  lemma VictimIsActive(policy: Policy, active: seq<Ticket>, desired: nat, key: Key)
    requires key in Victims(policy, active, desired)
    ensures exists i :: 0 <= i < |active| && active[i].key == key
  {
    LastClaimedFrom(active, if |active| > desired then |active| - desired else 0);
    var t :| t in active && t.key == key;
    var i :| 0 <= i < |active| && active[i] == t;
    assert active[i].key == key;
  }

  /**
    A reconcile leaves alone whatever is not the order's: tickets of other namespaces, and tickets whose
    label names another order or none.
   */
  lemma OthersUntouched(tickets: seq<Ticket>, o: Order, calls: nat, t: Ticket)
    requires DistinctKeys(tickets) && t in tickets
    requires || t.key.ns != o.key.ns
             || "korder.dev/order" !in t.meta.labels
             || t.meta.labels["korder.dev/order"] != o.key.name
    ensures t in Interrupted(tickets, o, calls).0
  {
    var active := Active(tickets, o);
    if |active| < Desired(o) {
      CreatedCount(tickets, o, calls);
      var i :| 0 <= i < |tickets| && tickets[i] == t;
      assert Interrupted(tickets, o, calls).0[i] == t;
    } else {
      var victims := FirstVictims(o.policy, active, Desired(o), calls);
      FirstVictimsAreVictims(o.policy, active, Desired(o), calls);
      ActiveIsListed(tickets, o);
      forall key | key in victims ensures key != t.key {
        VictimIsActive(o.policy, active, Desired(o), key);
        var i :| 0 <= i < |active| && active[i].key == key;
        assert active[i] in active;
        if key == t.key {
          SameKeySameTicket(tickets, active[i], t);
        }
      }
      DeletedOne(tickets, victims, t);
    }
  }

  // ---------------------------------------------------------------- Scale-down under lagging finalizers

  /** A reconcile with so many calls that go through, or a finalizer that comes off. */
  datatype Step = ReconcileStep(calls: nat) | Finalized(key: Key)

  /** A terminating ticket disappears when its finalizer is removed. */
  function Finalize(tickets: seq<Ticket>, key: Key): seq<Ticket> {
    Filter(tickets, (t: Ticket) => !(t.key == key && t.deleting))
  }

  function Steps(tickets: seq<Ticket>, o: Order, run: seq<Step>): seq<Ticket> {
    if run == [] then tickets
    else
      var before := Steps(tickets, o, run[..|run| - 1]);
      match run[|run| - 1]
      case ReconcileStep(calls) => Interrupted(before, o, calls).0
      case Finalized(key) => Finalize(before, key)
  }

  /** The first tickets are all there and untouched, and the rest come from the original rest. */
  ghost predicate Stable(active: seq<Ticket>, keep: seq<Ticket>, rest: set<Key>) {
    && keep <= active
    && forall t :: t in active[|keep|..] ==> t.key in rest
  }

  lemma {:induction false} DeleteKeepsKeys(tickets: seq<Ticket>, keys: set<Key>)
    ensures forall t :: t in DeleteAll(tickets, keys) ==> t.key in KeysOf(tickets)
  {
    if tickets != [] {
      var n := |tickets| - 1;
      DeleteKeepsKeys(tickets[..n], keys);
      assert tickets[n] in tickets;
      assert forall t :: t in tickets[..n] ==> t in tickets;
    }
  }

  lemma {:induction false} FilterCommutes(tickets: seq<Ticket>, a: Ticket -> bool, b: Ticket -> bool)
    ensures Filter(Filter(tickets, a), b) == Filter(Filter(tickets, b), a)
  {
    if tickets != [] {
      var n := |tickets| - 1;
      FilterCommutes(tickets[..n], a, b);
      var fa, fb, t := Filter(tickets[..n], a), Filter(tickets[..n], b), tickets[n];
      assert (fa + [t])[..|fa|] == fa && (fb + [t])[..|fb|] == fb;
    }
  }

  lemma ActiveAfterFinalize(tickets: seq<Ticket>, o: Order, key: Key)
    ensures Active(Finalize(tickets, key), o) == Finalize(Active(tickets, o), key)
  {
    FilterCommutes(tickets, (t: Ticket) => !(t.key == key && t.deleting), (t: Ticket) => Owns(o, t));
    FilterCommutes(OwnedTickets(tickets, o), (t: Ticket) => !(t.key == key && t.deleting), (t: Ticket) => IsActive(t));
  }

  lemma {:induction false} FinalizeNone(tickets: seq<Ticket>, key: Key)
    requires forall t :: t in tickets ==> !t.deleting
    ensures Finalize(tickets, key) == tickets
  {
    if tickets != [] {
      assert tickets[|tickets| - 1] in tickets;
      assert forall t :: t in tickets[..|tickets| - 1] ==> t in tickets;
      FinalizeNone(tickets[..|tickets| - 1], key);
    }
  }

  /**
    Scale-down with policy Always, fixed replicas and a fixed list order: under any interleaving of
    repeated reconciles, whole or cut short by failing calls, with removals of terminating tickets,
    only tickets of the original suffix are ever marked or removed, and the first `desired` active
    tickets stay exactly as they were.
   */
  lemma {:induction false} ScaleDownIsStable(tickets: seq<Ticket>, o: Order, run: seq<Step>)
    requires o.policy == Always && Desired(o) <= |Active(tickets, o)|
    requires DistinctKeys(Active(tickets, o))
    requires forall t :: t in Active(tickets, o)[..Desired(o)] ==> !t.deleting
    ensures
      var active, d := Active(tickets, o), Desired(o);
      Stable(Active(Steps(tickets, o, run), o), active[..d], KeysOf(active[d..]))
  {
    var active, d := Active(tickets, o), Desired(o);
    var keep, rest := active[..d], KeysOf(active[d..]);
    if run != [] {
      var front := run[..|run| - 1];
      ScaleDownIsStable(tickets, o, front);
      var before := Steps(tickets, o, front);
      var now := Active(before, o);
      var tail := now[d..];
      assert now == keep + tail;
      match run[|run| - 1]
      case ReconcileStep(calls) =>
        var victims := FirstVictims(o.policy, now, d, calls);
        FirstVictimsAreVictims(o.policy, now, d, calls);
        ActiveAfterDelete(before, o, victims);
        DeleteAppend(keep, tail, victims);
        SuffixKeysAreOthers(active, d);
        DeleteNone(keep, victims);
        DeleteKeepsKeys(tail, victims);
      case Finalized(key) =>
        ActiveAfterFinalize(before, o, key);
        FilterAppend(keep, tail, (t: Ticket) => !(t.key == key && t.deleting));
        FinalizeNone(keep, key);
        forall t | t in Finalize(tail, key) ensures t in tail {
          FilterKeeps(tail, (u: Ticket) => !(u.key == key && u.deleting), t);
        }
    }
  }

  /** The tickets outside a set of victims. */
  function Survivors(tickets: seq<Ticket>, victims: set<Key>): seq<Ticket> {
    Filter(tickets, (t: Ticket) => t.key !in victims)
  }

  /** `now` is `start` with some of the victims marked and some of them gone. */
  ghost predicate Shrunk(start: seq<Ticket>, now: seq<Ticket>, victims: set<Key>) {
    if start == [] then now == []
    else
      var n, m := |start| - 1, |now| - 1;
      || (&& now != [] && Shrunk(start[..n], now[..m], victims)
          && (now[m] == start[n] || (start[n].key in victims && now[m] == start[n].(deleting := true))))
      || (start[n].key in victims && Shrunk(start[..n], now, victims))
  }

  lemma {:induction false} ShrunkSelf(start: seq<Ticket>, victims: set<Key>)
    ensures Shrunk(start, start, victims)
  {
    if start != [] {
      ShrunkSelf(start[..|start| - 1], victims);
    }
  }

  lemma {:induction false} ShrunkSurvivors(start: seq<Ticket>, now: seq<Ticket>, victims: set<Key>)
    requires Shrunk(start, now, victims)
    ensures Survivors(now, victims) == Survivors(start, victims)
  {
    if start != [] {
      var n, m := |start| - 1, |now| - 1;
      if start[n].key in victims && Shrunk(start[..n], now, victims) {
        ShrunkSurvivors(start[..n], now, victims);
      } else {
        ShrunkSurvivors(start[..n], now[..m], victims);
      }
    }
  }

  lemma {:induction false} ShrunkByDeletion(start: seq<Ticket>, now: seq<Ticket>, victims: set<Key>, keys: set<Key>)
    requires Shrunk(start, now, victims) && keys <= victims
    ensures Shrunk(start, DeleteAll(now, keys), victims)
  {
    if start != [] {
      var n, m := |start| - 1, |now| - 1;
      if start[n].key in victims && Shrunk(start[..n], now, victims) {
        ShrunkByDeletion(start[..n], now, victims, keys);
      } else {
        ShrunkByDeletion(start[..n], now[..m], victims, keys);
        var front, after := DeleteAll(now[..m], keys), DeleteAll(now, keys);
        if now[m].key !in keys || now[m].finalizer {
          assert after[..|after| - 1] == front;
        }
      }
    }
  }

  lemma {:induction false} ShrunkByFinalizer(start: seq<Ticket>, now: seq<Ticket>, victims: set<Key>, key: Key)
    requires Shrunk(start, now, victims)
    requires forall i :: 0 <= i < |start| && start[i].key !in victims ==> !start[i].deleting
    ensures Shrunk(start, Finalize(now, key), victims)
  {
    if start != [] {
      var n, m := |start| - 1, |now| - 1;
      if start[n].key in victims && Shrunk(start[..n], now, victims) {
        ShrunkByFinalizer(start[..n], now, victims, key);
      } else {
        ShrunkByFinalizer(start[..n], now[..m], victims, key);
        var front, after := Finalize(now[..m], key), Finalize(now, key);
        if !(now[m].key == key && now[m].deleting) {
          assert after[..|after| - 1] == front;
        }
      }
    }
  }

  /**
    With some of the last `n` claimed tickets gone, the last claimed ones that are still excess are
    among the same victims.
   */
  lemma {:induction false} VictimsStay(start: seq<Ticket>, now: seq<Ticket>, victims: set<Key>, n: nat)
    requires DistinctKeys(start) && Shrunk(start, now, victims)
    requires forall i :: 0 <= i < |start| ==> (start[i].key in victims <==> start[i].key in LastClaimed(start, n))
    ensures |start| - n <= |now| <= |start|
    ensures LastClaimed(now, n - (|start| - |now|)) <= victims
  {
    if start != [] {
      var s, m := |start| - 1, |now| - 1;
      var front, t := start[..s], start[s];
      var left := if IsClaimed(t) && n > 0 then n - 1 else n;
      forall i | 0 <= i < s ensures front[i].key in victims <==> front[i].key in LastClaimed(front, left) {
        assert start[i].key != t.key;
      }
      LastClaimedMisses(front, left, t.key);
      if t.key in victims && Shrunk(front, now, victims) {
        VictimsStay(front, now, victims, left);
      } else {
        VictimsStay(front, now[..m], victims, left);
      }
    }
  }

  /**
    OnClaim is as stable as Always: under any interleaving of repeated reconciles, whole or cut short,
    with removals of terminating tickets, only the victims of the first reconcile are ever marked or removed, and all
    other active tickets stay exactly as they were, in their order.
   */
  lemma {:induction false} OnClaimIsStable(tickets: seq<Ticket>, o: Order, run: seq<Step>)
    requires o.policy == OnClaim && Desired(o) <= |Active(tickets, o)|
    requires DistinctKeys(Active(tickets, o))
    requires
      var active := Active(tickets, o);
      forall i :: 0 <= i < |active| && active[i].key !in Victims(OnClaim, active, Desired(o)) ==> !active[i].deleting
    ensures
      var active, after := Active(tickets, o), Active(Steps(tickets, o, run), o);
      var victims := Victims(OnClaim, active, Desired(o));
      && Shrunk(active, after, victims)
      && Survivors(after, victims) == Survivors(active, victims)
      && |after| >= Desired(o)
  {
    var active, d := Active(tickets, o), Desired(o);
    var victims := Victims(OnClaim, active, d);
    if run == [] {
      ShrunkSelf(active, victims);
    } else {
      OnClaimIsStable(tickets, o, run[..|run| - 1]);
      OnClaimStep(active, o, Steps(tickets, o, run[..|run| - 1]), victims, run[|run| - 1]);
    }
    ShrunkOutcome(active, Active(Steps(tickets, o, run), o), victims, d);
  }

  /** The victims of a reconcile of a shrunk list are among the first victims. */
  lemma ShrunkVictims(start: seq<Ticket>, now: seq<Ticket>, victims: set<Key>, d: nat, calls: nat)
    requires DistinctKeys(start) && Shrunk(start, now, victims) && d <= |start|
    requires victims == Victims(OnClaim, start, d)
    ensures |now| >= d && FirstVictims(OnClaim, now, d, calls) <= victims
  {
    VictimsStay(start, now, victims, |start| - d);
    FirstVictimsAreVictims(OnClaim, now, d, calls);
  }

  lemma OnClaimStep(start: seq<Ticket>, o: Order, before: seq<Ticket>, victims: set<Key>, step: Step)
    requires o.policy == OnClaim && DistinctKeys(start) && Desired(o) <= |start|
    requires victims == Victims(OnClaim, start, Desired(o))
    requires forall i :: 0 <= i < |start| && start[i].key !in victims ==> !start[i].deleting
    requires Shrunk(start, Active(before, o), victims)
    ensures
      var after := match step
                   case ReconcileStep(calls) => Interrupted(before, o, calls).0
                   case Finalized(key) => Finalize(before, key);
      Shrunk(start, Active(after, o), victims)
  {
    var now, d := Active(before, o), Desired(o);
    match step
    case ReconcileStep(calls) =>
      var first := FirstVictims(OnClaim, now, d, calls);
      ShrunkVictims(start, now, victims, d, calls);
      ActiveAfterDelete(before, o, first);
      ShrunkByDeletion(start, now, victims, first);
    case Finalized(key) =>
      ActiveAfterFinalize(before, o, key);
      ShrunkByFinalizer(start, now, victims, key);
  }

  lemma ShrunkOutcome(start: seq<Ticket>, after: seq<Ticket>, victims: set<Key>, d: nat)
    requires DistinctKeys(start) && Shrunk(start, after, victims) && d <= |start|
    requires victims == Victims(OnClaim, start, d)
    ensures Survivors(after, victims) == Survivors(start, victims) && |after| >= d
  {
    ShrunkSurvivors(start, after, victims);
    ShrunkVictims(start, after, victims, d, 0);
  }

  lemma SuffixKeysAreOthers(active: seq<Ticket>, d: nat)
    requires DistinctKeys(active) && d <= |active|
    ensures forall t :: t in active[..d] ==> t.key !in KeysOf(active[d..])
  {
    forall t, u | t in active[..d] && u in active[d..] ensures t.key != u.key {
      var i :| 0 <= i < d && active[..d][i] == t;
      var j :| 0 <= j < |active| - d && active[d..][j] == u;
      assert active[i].key != active[d + j].key;
    }
  }

  // ---------------------------------------------------------------- Scale-down, then scale-up

  /** None of the order's tickets is expired. */
  predicate AllActive(tickets: seq<Ticket>, o: Order) {
    Active(tickets, o) == OwnedTickets(tickets, o)
  }

  lemma {:induction false} FilterAll(tickets: seq<Ticket>, keep: Ticket -> bool)
    ensures Filter(tickets, keep) == tickets <==> forall t :: t in tickets ==> keep(t)
  {
    if tickets != [] {
      var n := |tickets| - 1;
      FilterAll(tickets[..n], keep);
      FilterShrinks(tickets[..n], keep, (t: Ticket) => true);
      assert forall t :: t in tickets <==> t in tickets[..n] || t == tickets[n];
      if Filter(tickets, keep) == tickets {
        assert |Filter(tickets, keep)| == n + 1;
        assert keep(tickets[n]);
        assert Filter(tickets, keep)[..n] == Filter(tickets[..n], keep);
      }
    }
  }

  lemma {:induction false} DeletionKeepsPhases(tickets: seq<Ticket>, keys: set<Key>)
    requires forall t :: t in tickets ==> IsActive(t)
    ensures forall t :: t in DeleteAll(tickets, keys) ==> IsActive(t)
  {
    if tickets != [] {
      var n := |tickets| - 1;
      assert tickets[n] in tickets;
      assert forall t :: t in tickets[..n] ==> t in tickets;
      DeletionKeepsPhases(tickets[..n], keys);
    }
  }

  lemma AllActiveAfterDelete(tickets: seq<Ticket>, o: Order, keys: set<Key>)
    requires AllActive(tickets, o)
    ensures AllActive(DeleteAll(tickets, keys), o)
  {
    var owned := OwnedTickets(tickets, o);
    FilterDeleted(tickets, keys, (t: Ticket) => Owns(o, t));
    FilterAll(owned, (t: Ticket) => IsActive(t));
    DeletionKeepsPhases(owned, keys);
    FilterAll(DeleteAll(owned, keys), (t: Ticket) => IsActive(t));
  }

  lemma AllActiveAfterFinalize(tickets: seq<Ticket>, o: Order, key: Key)
    requires AllActive(tickets, o)
    ensures AllActive(Finalize(tickets, key), o)
  {
    ActiveAfterFinalize(tickets, o, key);
    FilterCommutes(tickets, (t: Ticket) => !(t.key == key && t.deleting), (t: Ticket) => Owns(o, t));
  }

  lemma {:induction false} AllActiveThroughout(tickets: seq<Ticket>, o: Order, run: seq<Step>)
    requires o.policy == Always && Desired(o) <= |Active(tickets, o)|
    requires DistinctKeys(Active(tickets, o)) && AllActive(tickets, o)
    requires forall t :: t in Active(tickets, o)[..Desired(o)] ==> !t.deleting
    ensures AllActive(Steps(tickets, o, run), o)
  {
    if run != [] {
      var front := run[..|run| - 1];
      AllActiveThroughout(tickets, o, front);
      ScaleDownIsStable(tickets, o, front);
      var before := Steps(tickets, o, front);
      match run[|run| - 1]
      case ReconcileStep(calls) =>
        AllActiveAfterDelete(before, o, FirstVictims(o.policy, Active(before, o), Desired(o), calls));
      case Finalized(key) => AllActiveAfterFinalize(before, o, key);
    }
  }

  /** These tickets bear the names 0 up to their number. */
  ghost predicate FirstNames(tickets: seq<Ticket>, o: Order) {
    KeysOf(tickets) == set i | 0 <= i < |tickets| :: TicketKey(o, i)
  }

  lemma ContiguousIsFirstNames(tickets: seq<Ticket>, o: Order)
    ensures Contiguous(tickets, o) <==> FirstNames(OwnedTickets(tickets, o), o)
  {
    if Contiguous(tickets, o) {
      ContiguousHasFirstNames(tickets, o);
    }
    if FirstNames(OwnedTickets(tickets, o), o) {
      FirstNamesAreContiguous(tickets, o);
    }
  }

  lemma ContiguousHasFirstNames(tickets: seq<Ticket>, o: Order)
    requires Contiguous(tickets, o)
    ensures FirstNames(OwnedTickets(tickets, o), o)
  {
    var owned := OwnedTickets(tickets, o);
    var names := set i | 0 <= i < |owned| :: TicketKey(o, i);
    forall key | key in KeysOf(owned) ensures key in names {
      var t :| t in owned && t.key == key;
      assert exists i: nat :: i < |owned| && t.key == TicketKey(o, i);
    }
    forall key | key in names ensures key in KeysOf(owned) {
      var i: nat :| i < |owned| && key == TicketKey(o, i);
      var j :| 0 <= j < |owned| && owned[j].key == TicketKey(o, i);
      assert owned[j] in owned;
    }
  }

  lemma FirstNamesAreContiguous(tickets: seq<Ticket>, o: Order)
    requires FirstNames(OwnedTickets(tickets, o), o)
    ensures Contiguous(tickets, o)
  {
    var owned := OwnedTickets(tickets, o);
    var names := set i | 0 <= i < |owned| :: TicketKey(o, i);
    forall t | t in owned ensures exists i: nat :: i < |owned| && t.key == TicketKey(o, i) {
      assert t.key in names;
      var i :| 0 <= i < |owned| && t.key == TicketKey(o, i);
      assert (i as nat) < |owned|;
    }
    forall i: nat | i < |owned| ensures Taken(owned, TicketKey(o, i)) {
      assert TicketKey(o, i) in names;
      var t :| t in owned && t.key == TicketKey(o, i);
      var j :| 0 <= j < |owned| && owned[j] == t;
      assert owned[j].key == TicketKey(o, i);
    }
  }

  /**
    Whether scaling up works again after scaling down: once all victims of policy Always are gone, by
    whatever interleaving, the names are contiguous exactly if the tickets that were first in the list
    bore the first names.
   */
  lemma ScaleDownKeepsNamesIff(tickets: seq<Ticket>, o: Order, run: seq<Step>)
    requires o.policy == Always && Desired(o) <= |Active(tickets, o)|
    requires DistinctKeys(Active(tickets, o)) && AllActive(tickets, o)
    requires forall t :: t in Active(tickets, o)[..Desired(o)] ==> !t.deleting
    requires |Active(Steps(tickets, o, run), o)| == Desired(o)
    ensures Contiguous(Steps(tickets, o, run), o) <==> FirstNames(Active(tickets, o)[..Desired(o)], o)
  {
    ScaleDownIsStable(tickets, o, run);
    AllActiveThroughout(tickets, o, run);
    ContiguousIsFirstNames(Steps(tickets, o, run), o);
  }

  /**
    Listed as 0, 2, 1 and scaled down to two, an order keeps 0 and 2; scaling up to three then fails and
    changes nothing.
   */
  lemma ScaleDownMakesGap(o: Order, bigger: Order)
    requires o.policy == Always && o.replicas == Some(2) && bigger == o.(replicas := Some(3))
    ensures
      var tickets := [NewTicket(o, 0), NewTicket(o, 2), NewTicket(o, 1)];
      var kept := [NewTicket(o, 0), NewTicket(o, 2)];
      && Contiguous(tickets, o)
      && Reconciled(tickets, o) == (kept, true)
      && Reconciled(kept, bigger) == (kept, false)
  {
    var tickets := [NewTicket(o, 0), NewTicket(o, 2), NewTicket(o, 1)];
    OwnsThree(o);
    LastOfThreeGoes(o);
    assert Active(tickets, o)[2..] == [NewTicket(o, 1)];
    assert KeysOf([NewTicket(o, 1)]) == {TicketKey(o, 1)};
    ContiguousIsFirstNames(tickets, o);
    ThreeNames(o);
    GapExample(bigger);
    assert NewTicket(bigger, 0) == NewTicket(o, 0) && NewTicket(bigger, 2) == NewTicket(o, 2);
  }

  lemma LastOfThreeGoes(o: Order)
    ensures DeleteAll([NewTicket(o, 0), NewTicket(o, 2), NewTicket(o, 1)], {TicketKey(o, 1)})
            == [NewTicket(o, 0), NewTicket(o, 2)]
  {
    var kept := [NewTicket(o, 0), NewTicket(o, 2)];
    NamesDiffer(o, 0, 1);
    NamesDiffer(o, 2, 1);
    DeleteNone(kept, {TicketKey(o, 1)});
    assert [NewTicket(o, 0), NewTicket(o, 2), NewTicket(o, 1)][..2] == kept;
  }

  lemma ThreeNames(o: Order)
    ensures FirstNames([NewTicket(o, 0), NewTicket(o, 2), NewTicket(o, 1)], o)
  {
    var tickets := [NewTicket(o, 0), NewTicket(o, 2), NewTicket(o, 1)];
    var names := {TicketKey(o, 0), TicketKey(o, 1), TicketKey(o, 2)};
    assert tickets[0] in tickets && tickets[1] in tickets && tickets[2] in tickets;
    assert KeysOf(tickets) == names;
    assert (set i | 0 <= i < 3 :: TicketKey(o, i)) == names;
  }

  lemma OwnsThree(o: Order)
    ensures
      var tickets := [NewTicket(o, 0), NewTicket(o, 2), NewTicket(o, 1)];
      OwnedTickets(tickets, o) == tickets && Active(tickets, o) == tickets
  {
    var tickets := [NewTicket(o, 0), NewTicket(o, 2), NewTicket(o, 1)];
    forall t | t in tickets ensures Owns(o, t) && IsActive(t) {
    }
    FilterAll(tickets, (t: Ticket) => Owns(o, t));
    FilterAll(tickets, (t: Ticket) => IsActive(t));
  }

  lemma NamesDiffer(o: Order, i: nat, j: nat)
    requires i != j
    ensures TicketKey(o, i) != TicketKey(o, j)
  {
    if TicketName(o.key.name, i) == TicketName(o.key.name, j) {
      TicketNameInjective(o.key.name, i, o.key.name, j);
    }
  }

  // ---------------------------------------------------------------- The reconciler itself

  /** The ticket objects of a namespace, in list order, and how many writes still go through. */
  class Namespace {
    var tickets: seq<Ticket>
    var calls: nat

    constructor (tickets: seq<Ticket>, calls: nat)
      ensures this.tickets == tickets && this.calls == calls
    {
      this.tickets, this.calls := tickets, calls;
    }

    method Create(t: Ticket) returns (ok: bool)
      modifies this
      ensures ok == (old(calls) > 0 && !Taken(old(tickets), t.key))
      ensures tickets == if ok then old(tickets) + [t] else old(tickets)
      ensures calls == if old(calls) > 0 then old(calls) - 1 else 0
    {
      if calls == 0 {
        return false;
      }
      calls := calls - 1;
      ok := !(exists i :: 0 <= i < |tickets| && tickets[i].key == t.key);
      if ok {
        tickets := tickets + [t];
      }
    }

    method Delete(key: Key) returns (ok: bool)
      modifies this
      ensures ok == (old(calls) > 0 && Taken(old(tickets), key))
      ensures tickets == if old(calls) > 0 then DeleteAll(old(tickets), {key}) else old(tickets)
      ensures calls == if old(calls) > 0 then old(calls) - 1 else 0
    {
      if calls == 0 {
        return false;
      }
      calls := calls - 1;
      ok := exists i :: 0 <= i < |tickets| && tickets[i].key == key;
      tickets := DeleteAll(tickets, {key});
    }
  }

  /** The status an order shows, updated in place. */
  class OrderStatus {
    var replicas: nat
    var available: nat
    var unavailable: nat
    var terminal: nat
    var updated: nat
    const conditions: ConditionList

    constructor (conditions: ConditionList)
      ensures this.conditions == conditions
    {
      this.conditions := conditions;
      replicas, available, unavailable, terminal, updated := 0, 0, 0, 0, 0;
    }
  }

  /** After any deletions the keys not deleted yet are still there. */
  lemma {:induction false} StillTaken(tickets: seq<Ticket>, keys: set<Key>, key: Key)
    requires Taken(tickets, key) && key !in keys
    ensures Taken(DeleteAll(tickets, keys), key)
  {
    var n := |tickets| - 1;
    var after, front := DeleteAll(tickets, keys), DeleteAll(tickets[..n], keys);
    if tickets[n].key == key {
      assert after[|after| - 1].key == key;
    } else {
      var i :| 0 <= i < |tickets| && tickets[i].key == key;
      assert tickets[..n][i].key == key;
      StillTaken(tickets[..n], keys, key);
      var j :| 0 <= j < |front| && front[j].key == key;
      assert after[j].key == key;
    }
  }

  class OrderReconciler {
    const api: Namespace

    constructor (api: Namespace)
      ensures this.api == api
    {
      this.api := api;
    }

    method FilterActiveTickets(tickets: seq<Ticket>) returns (active: seq<Ticket>)
      ensures active == ActiveTickets(tickets)
    {
      active := [];
      for i := 0 to |tickets|
        invariant active == ActiveTickets(tickets[..i])
      {
        if tickets[i].status.phase != Expired {
          active := active + [tickets[i]];
        }
        assert tickets[..i + 1][..i] == tickets[..i];
      }
      assert tickets[..|tickets|] == tickets;
    }

    method ReconcileTickets(o: Order) returns (ok: bool)
      requires DistinctKeys(api.tickets)
      modifies api
      ensures (api.tickets, ok) == Interrupted(old(api.tickets), o, old(api.calls))
    {
      var current := OwnedTickets(api.tickets, o);
      var active := FilterActiveTickets(current);
      var desired := 1;
      if o.replicas.Some? {
        desired := o.replicas.value;
      }
      if |active| < desired {
        ok := CreateMissing(o, |current|, desired - |active|);
      } else {
        ActiveTaken(api.tickets, o);
        ActiveDistinct(api.tickets, o);
        ok := true;
        if |active| > desired {
          ok := HandleExcessTickets(o, active, desired);
        } else {
          DeleteNone(api.tickets, {});
        }
      }
    }

    /** Its loop over the missing tickets. */
    method CreateMissing(o: Order, index: nat, needed: nat) returns (ok: bool)
      modifies api
      ensures var reached := CreateFrom(old(api.tickets), o, index, Least(needed, old(api.calls)));
        api.tickets == reached.0 && ok == (reached.1 && needed <= old(api.calls))
    {
      ghost var most := Least(needed, api.calls);
      ghost var whole := CreateFrom(api.tickets, o, index, most);
      var i := 0;
      while i < needed
        invariant 0 <= i <= needed && i <= most && api.calls == old(api.calls) - i
        invariant CreateFrom(api.tickets, o, index + i, most - i) == whole
      {
        var made := api.Create(NewTicket(o, index + i));
        if !made {
          return false;
        }
        i := i + 1;
      }
      return true;
    }

    static lemma FirstVictimsByPolicy(policy: Policy, active: seq<Ticket>, desired: nat, calls: nat)
      requires desired <= |active|
      ensures
        var reached := Least(|active| - desired, calls);
        FirstVictims(policy, active, desired, calls) ==
        match policy
        case Always => KeysOf(active[|active| - reached..])
        case OnClaim => LastClaimed(active, reached)
        case _ => {}
    {
      assert KeysOf(active[|active|..]) == {};
    }

    /** Every victim is there when its turn comes, so a deletion fails only if its call does. */
    method HandleExcessTickets(o: Order, active: seq<Ticket>, desired: nat) returns (ok: bool)
      requires DistinctKeys(active) && forall j :: 0 <= j < |active| ==> Taken(api.tickets, active[j].key)
      modifies api
      ensures api.tickets == DeleteAll(old(api.tickets), FirstVictims(o.policy, active, desired, old(api.calls)))
      ensures ok <==> |Victims(o.policy, active, desired)| <= old(api.calls)
    {
      ok := true;
      var excess := |active| - desired;
      DeleteNone(api.tickets, {});
      if excess <= 0 {
        return;
      }
      FirstVictimsByPolicy(o.policy, active, desired, api.calls);
      match o.policy
      case Always =>
        assert DistinctKeys(active[desired..]);
        KeysOfDistinct(active[desired..]);
        ok := DeleteLast(active, excess);
      case OnClaim =>
        LastClaimedSize(active, excess);
        ok := DeleteClaimed(active, excess);
      case Never =>
      case OtherPolicy =>
    }

    /** One deletion of either loop, on top of those made from `start` on. */
    method DeleteTicket(key: Key, ghost start: seq<Ticket>, ghost gone: set<Key>) returns (ok: bool)
      requires api.tickets == DeleteAll(start, gone) && Taken(start, key) && key !in gone
      modifies api
      ensures ok == (old(api.calls) > 0)
      ensures api.calls == if ok then old(api.calls) - 1 else 0
      ensures api.tickets == DeleteAll(start, if ok then gone + {key} else gone)
    {
      DeleteNext(start, key, gone);
      ok := api.Delete(key);
    }

    /** The loop of policy Always. */
    method DeleteLast(active: seq<Ticket>, excess: nat) returns (ok: bool)
      requires DistinctKeys(active) && excess <= |active|
      requires forall j :: 0 <= j < |active| ==> Taken(api.tickets, active[j].key)
      modifies api
      ensures api.tickets == DeleteAll(old(api.tickets), KeysOf(active[|active| - Least(excess, old(api.calls))..]))
      ensures ok <==> excess <= old(api.calls)
    {
      var n := |active|;
      ok := true;
      ghost var gone: set<Key> := {};
      DeleteNone(api.tickets, {});
      assert KeysOf(active[n..]) == {};
      var i := 0;
      while i < excess
        invariant 0 <= i <= Least(excess, old(api.calls)) && api.calls == old(api.calls) - i
        invariant gone == KeysOf(active[n - i..])
        invariant api.tickets == DeleteAll(old(api.tickets), gone)
      {
        var ticket := active[n - 1 - i];
        SuffixKeys(active, n - 1 - i);
        var deleted := DeleteTicket(ticket.key, old(api.tickets), gone);
        if !deleted {
          return false;
        }
        gone := gone + {ticket.key};
        i := i + 1;
      }
      return true;
    }

    /** The loop of policy OnClaim. */
    method DeleteClaimed(active: seq<Ticket>, excess: nat) returns (ok: bool)
      requires DistinctKeys(active)
      requires forall j :: 0 <= j < |active| ==> Taken(api.tickets, active[j].key)
      modifies api
      ensures api.tickets == DeleteAll(old(api.tickets), LastClaimed(active, Least(excess, old(api.calls))))
      ensures ok <==> Least(excess, CountClaimed(active)) <= old(api.calls)
    {
      var deletedCount := 0;
      var i := |active| - 1;
      ghost var gone: set<Key> := {};
      ghost var most := Least(excess, api.calls);
      DeleteNone(api.tickets, {});
      StartOfScan(active, most);
      while i >= 0 && deletedCount < excess
        invariant -1 <= i < |active| && 0 <= deletedCount <= most && api.calls == old(api.calls) - deletedCount
        invariant Scanned(active, i + 1, deletedCount, most, gone)
        invariant api.tickets == DeleteAll(old(api.tickets), gone)
      {
        var ticket := active[i];
        ScanOne(active, i, deletedCount, most, gone);
        if ticket.status.phase == Claimed {
          var deleted := DeleteTicket(ticket.key, old(api.tickets), gone);
          if !deleted {
            EndOfScan(active, i + 1, deletedCount, most, gone);
            return false;
          }
          gone := gone + {ticket.key};
          deletedCount := deletedCount + 1;
        }
        i := i - 1;
      }
      EndOfScan(active, i + 1, deletedCount, most, gone);
      return true;
    }

    /** The backward scan has passed `active[i..]`, with so many deleted: all the claimed tickets in it. */
    static ghost predicate Scanned(active: seq<Ticket>, i: nat, deleted: nat, most: nat, gone: set<Key>)
      requires i <= |active|
    {
      && deleted <= most
      && (forall j :: 0 <= j < i ==> active[j].key !in gone)
      && gone + LastClaimed(active[..i], most - deleted) == LastClaimed(active, most)
      && deleted == CountClaimed(active[i..])
    }

    static lemma StartOfScan(active: seq<Ticket>, most: nat)
      ensures Scanned(active, |active|, 0, most, {})
    {
      assert active[..|active|] == active && active[|active|..] == [];
    }

    static lemma ScanOne(active: seq<Ticket>, i: nat, deleted: nat, most: nat, gone: set<Key>)
      requires DistinctKeys(active) && i < |active| && Scanned(active, i + 1, deleted, most, gone)
      ensures active[i].key !in gone
      ensures IsClaimed(active[i]) && deleted < most ==> Scanned(active, i, deleted + 1, most, gone + {active[i].key})
      ensures IsClaimed(active[i]) && deleted == most ==> deleted < CountClaimed(active)
      ensures !IsClaimed(active[i]) ==> Scanned(active, i, deleted, most, gone)
    {
      LastClaimedStep(active, i, most - deleted, gone);
      ClaimedFrom(active, i);
      ClaimedWithin(active, i);
    }

    static lemma EndOfScan(active: seq<Ticket>, i: nat, deleted: nat, most: nat, gone: set<Key>)
      requires i <= |active| && Scanned(active, i, deleted, most, gone)
      ensures deleted <= CountClaimed(active)
      ensures i == 0 ==> deleted == CountClaimed(active)
      ensures i == 0 || deleted == most ==> gone == LastClaimed(active, most)
    {
      ClaimedWithin(active, i);
      assert active[0..] == active;
      if i == 0 || deleted == most {
        LastClaimedNone(active, i, most - deleted, gone);
      }
    }

    static lemma ClaimedFrom(active: seq<Ticket>, i: nat)
      requires i < |active|
      ensures CountClaimed(active[i..]) == CountClaimed(active[i + 1..]) + if IsClaimed(active[i]) then 1 else 0
    {
      assert active[i..] == [active[i]] + active[i + 1..];
      FilterAppend([active[i]], active[i + 1..], (t: Ticket) => IsClaimed(t));
      assert [active[i]][..0] == [] && Filter([active[i]][..0], (t: Ticket) => IsClaimed(t)) == [];
    }

    static lemma ClaimedWithin(active: seq<Ticket>, i: nat)
      requires i <= |active|
      ensures CountClaimed(active[i..]) <= CountClaimed(active)
    {
      assert active == active[..i] + active[i..];
      FilterAppend(active[..i], active[i..], (t: Ticket) => IsClaimed(t));
    }

    static lemma LastClaimedNone(active: seq<Ticket>, i: nat, n: nat, gone: set<Key>)
      requires i <= |active| && (i == 0 || n == 0)
      ensures gone + LastClaimed(active[..i], n) == gone
    {
    }

    static lemma LastClaimedStep(active: seq<Ticket>, i: nat, n: nat, gone: set<Key>)
      requires i < |active|
      ensures gone + LastClaimed(active[..i + 1], n) ==
              if IsClaimed(active[i]) && n > 0 then (gone + {active[i].key}) + LastClaimed(active[..i], n - 1)
              else gone + LastClaimed(active[..i], n)
    {
      assert active[..i + 1][..i] == active[..i];
    }

    static lemma SuffixKeys(active: seq<Ticket>, i: nat)
      requires DistinctKeys(active) && i < |active|
      ensures active[i].key !in KeysOf(active[i + 1..])
      ensures KeysOf(active[i..]) == KeysOf(active[i + 1..]) + {active[i].key}
    {
      SuffixKeysAreOthers(active, i + 1);
      assert active[..i + 1][i] == active[i];
      assert active[i..] == [active[i]] + active[i + 1..];
    }

    /** A ticket not deleted yet is still there, and deleting it adds just its key. */
    static lemma DeleteNext(tickets: seq<Ticket>, key: Key, gone: set<Key>)
      requires Taken(tickets, key) && key !in gone
      ensures Taken(DeleteAll(tickets, gone), key)
      ensures DeleteAll(DeleteAll(tickets, gone), {key}) == DeleteAll(tickets, gone + {key})
    {
      StillTaken(tickets, gone, key);
      DeleteTwice(tickets, gone, {key});
    }

    static lemma ActiveTaken(tickets: seq<Ticket>, o: Order)
      ensures forall j :: 0 <= j < |Active(tickets, o)| ==> Taken(tickets, Active(tickets, o)[j].key)
    {
      forall j | 0 <= j < |Active(tickets, o)| ensures Taken(tickets, Active(tickets, o)[j].key) {
        var t := Active(tickets, o)[j];
        assert t in Active(tickets, o);
        FilterKeeps(OwnedTickets(tickets, o), (u: Ticket) => IsActive(u), t);
        FilterKeeps(tickets, (u: Ticket) => Owns(o, u), t);
        var i :| 0 <= i < |tickets| && tickets[i] == t;
        assert tickets[i].key == t.key;
      }
    }

    static lemma ActiveDistinct(tickets: seq<Ticket>, o: Order)
      requires DistinctKeys(tickets)
      ensures DistinctKeys(Active(tickets, o))
    {
      FilterDistinct(tickets, (t: Ticket) => Owns(o, t));
      FilterDistinct(OwnedTickets(tickets, o), (t: Ticket) => IsActive(t));
    }

    static lemma {:induction false} FilterDistinct(tickets: seq<Ticket>, keep: Ticket -> bool)
      requires DistinctKeys(tickets)
      ensures DistinctKeys(Filter(tickets, keep))
    {
      if tickets != [] {
        var n := |tickets| - 1;
        var front, t := Filter(tickets[..n], keep), tickets[n];
        FilterDistinct(tickets[..n], keep);
        forall i | 0 <= i < |front| ensures front[i].key != t.key {
          assert front[i] in front;
          FilterKeeps(tickets[..n], keep, front[i]);
          var j :| 0 <= j < n && tickets[..n][j] == front[i];
          assert tickets[j].key != tickets[n].key;
        }
      }
    }

    /** The counters and the condition of `updateOrderStatus`. */
    method UpdateOrderStatus(o: Order, status: OrderStatus, now: int, reason: string)
      modifies status, status.conditions
      ensures
        var tickets := OwnedTickets(api.tickets, o);
        && status.replicas == |tickets|
        && status.available == status.updated == |ActiveTickets(tickets)|
        && status.terminal == |Filter(tickets, (t: Ticket) => t.status.phase == Expired)|
        && status.unavailable == |Filter(tickets, (t: Ticket) => t.status.phase == Pending)|
      ensures status.conditions.items ==
              Upsert(old(status.conditions.items),
                Update(if reason == "Failed" then "Failure" else "Ready", true, now, reason))
    {
      var tickets := OwnedTickets(api.tickets, o);
      var active := FilterActiveTickets(tickets);
      var unavailable, terminal := 0, 0;
      for i := 0 to |tickets|
        invariant terminal == |Filter(tickets[..i], (t: Ticket) => t.status.phase == Expired)|
        invariant unavailable == |Filter(tickets[..i], (t: Ticket) => t.status.phase == Pending)|
      {
        assert tickets[..i + 1][..i] == tickets[..i];
        match tickets[i].status.phase
        case Expired => terminal := terminal + 1;
        case Pending => unavailable := unavailable + 1;
        case _ =>
      }
      assert tickets[..|tickets|] == tickets;
      status.replicas, status.available := |tickets|, |active|;
      status.unavailable, status.terminal, status.updated := unavailable, terminal, |active|;
      var kind := "Ready";
      if reason == "Failed" {
        kind := "Failure";
      }
      status.conditions.Set(kind, true, now, reason);
    }
  }

  /** The counters an order shows always add up. */
  lemma StatusAddsUp(tickets: seq<Ticket>)
    ensures |ActiveTickets(tickets)| + |Filter(tickets, (t: Ticket) => t.status.phase == Expired)| == |tickets|
    ensures |Filter(tickets, (t: Ticket) => t.status.phase == Pending)| <= |ActiveTickets(tickets)|
  {
    FilterSplits(tickets, (t: Ticket) => IsActive(t), (t: Ticket) => t.status.phase == Expired);
    FilterShrinks(tickets, (t: Ticket) => t.status.phase == Pending, (t: Ticket) => IsActive(t));
  }
}
