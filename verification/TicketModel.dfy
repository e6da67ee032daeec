/**
  Tickets, guardian pods, and the API server that stores them. A write that carries a resource
  version is accepted only when the stored object still has that version, and every accepted write
  gives the object a version that was never used before.
 */
module TicketModel {
  import opened Common
  import opened Conditions
  import opened Resources
  import opened Text

  /** A namespaced name. */
  datatype Key = Key(ns: string, name: string)

  datatype Phase = Unset | Pending | Ready | Claimed | Expired | Unknown

  /** `spec.window` with its duration already parsed: absent or empty, malformed, or a length. */
  datatype Window = NoWindow | BadWindow | Lasts(duration: int)

  /** `spec.lifecycle`: anything but Delete, Delete without a TTL, Delete with a TTL in seconds. */
  datatype Cleanup = Retain | DeleteNow | DeleteAfter(ttl: int)

  /** `corev1.ResourceRequirements`; `None` is Go's nil map. */
  datatype Requirements = Requirements(requests: Option<ResourceList>, limits: Option<ResourceList>)

  datatype Spec = Spec(
    window: Window,
    cleanup: Cleanup,
    nodeName: Option<string>,
    nodeSelector: Option<map<string, string>>,
    resources: Option<Requirements>)

  datatype Status = Status(
    phase: Phase,
    activation: Option<int>,
    expiration: Option<int>,
    claimedTime: Option<int>,
    nodeName: Option<string>,
    guardianPod: Option<string>,
    claimedPod: Option<string>,
    reason: string,
    conditions: seq<Condition>)

  const NEW_STATUS := Status(Unset, None, None, None, None, None, None, "", [])

  datatype Meta = Meta(labels: map<string, string>, annotations: map<string, string>)

  datatype Ticket = Ticket(
    key: Key,
    uid: nat,
    rv: nat,
    meta: Meta,
    finalizer: bool,
    deleting: bool,
    spec: Spec,
    status: Status)

  /** A guardian pod: the ticket it was created for, its node ("" until scheduled), and whether it runs. */
  datatype Pod = Pod(ownerUid: nat, node: string, running: bool)

  datatype Store = Store(
    tickets: map<Key, Ticket>,
    pods: map<Key, Pod>,
    now: int,
    nextRv: nat,
    nextUid: nat)

  // ---------------------------------------------------------------- Names

  const GUARDIAN_PREFIX := "korder-guardian"

  /** Kubernetes names and namespaces hold no slash. */
  predicate ValidKey(k: Key) {
    Free(k.ns, '/') && Free(k.name, '/')
  }

  function GuardianKey(k: Key): Key {
    Key(k.ns, GUARDIAN_PREFIX + "-" + k.name)
  }

  /** The "namespace/name" form kept in `status.guardianPod`. */
  function RefText(k: Key): string {
    k.ns + "/" + k.name
  }

  function ParseRef(ref: string): Option<Key> {
    var parts := Split(ref, '/');
    if |parts| == 2 then Some(Key(parts[0], parts[1])) else None
  }

  /** Every reference the controller writes parses back to the pod it created. */
  lemma GuardianRefParses(k: Key)
    requires ValidKey(k)
    ensures ValidKey(GuardianKey(k))
    ensures ParseRef(RefText(GuardianKey(k))) == Some(GuardianKey(k))
  {
    var g := GuardianKey(k);
    assert Free(GUARDIAN_PREFIX + "-", '/');
    assert Free(g.name, '/');
    var parts := [g.ns, g.name];
    assert Join(parts, '/') == g.ns + ['/'] + Join(parts[1..], '/');
    assert Join(parts, '/') == RefText(g);
    JoinThenSplit(parts, '/');
  }

  lemma GuardianKeyInjective(j: Key, k: Key)
    requires GuardianKey(j) == GuardianKey(k)
    ensures j == k
  {
    var p := GUARDIAN_PREFIX + "-";
    assert (p + j.name)[|p|..] == j.name && (p + k.name)[|p|..] == k.name;
  }

  /** `status.guardianPod` is nil or names the guardian of this very ticket. */
  predicate RefOk(k: Key, status: Status) {
    ValidKey(k) && (status.guardianPod.Some? ==> status.guardianPod.value == RefText(GuardianKey(k)))
  }

  /** A list of stored objects holds no key twice. */
  ghost predicate DistinctKeys(tickets: seq<Ticket>) {
    forall i, j :: 0 <= i < j < |tickets| ==> tickets[i].key != tickets[j].key
  }

  lemma SameKeySameTicket(tickets: seq<Ticket>, t: Ticket, u: Ticket)
    requires DistinctKeys(tickets) && t in tickets && u in tickets && t.key == u.key
    ensures t == u
  {
    var i :| 0 <= i < |tickets| && tickets[i] == t;
    var j :| 0 <= j < |tickets| && tickets[j] == u;
    assert i == j;
  }

  // ---------------------------------------------------------------- API calls

  /** The stored object still has the version this copy was read at. */
  predicate Current(st: Store, t: Ticket) {
    t.key in st.tickets && st.tickets[t.key].rv == t.rv
  }

  function Put(st: Store, t: Ticket): Store {
    st.(tickets := st.tickets[t.key := t.(rv := st.nextRv)], nextRv := st.nextRv + 1)
  }

  /** `Status().Update`: replaces the status alone. */
  function UpdateStatus(st: Store, t: Ticket): Store {
    if Current(st, t) then Put(st, st.tickets[t.key].(status := t.status)) else st
  }

  /** `Update` of an object whose finalizer list was changed; a deleted object without finalizers goes. */
  function UpdateFinalizer(st: Store, t: Ticket, present: bool): Store {
    if !Current(st, t) then st
    else if st.tickets[t.key].deleting && !present then st.(tickets := st.tickets - {t.key})
    else Put(st, st.tickets[t.key].(finalizer := present))
  }

  /** `Delete`: with a finalizer the object is only marked. */
  function DeleteTicket(st: Store, k: Key): Store {
    if k !in st.tickets then st
    else if st.tickets[k].finalizer then
      if st.tickets[k].deleting then st else Put(st, st.tickets[k].(deleting := true))
    else st.(tickets := st.tickets - {k})
  }

  function CreateTicket(st: Store, k: Key, meta: Meta, spec: Spec): Store {
    if k in st.tickets || !ValidKey(k) then st
    else Put(st, Ticket(k, st.nextUid, 0, meta, false, false, spec, NEW_STATUS)).(nextUid := st.nextUid + 1)
  }

  function EditTicket(st: Store, k: Key, meta: Meta, spec: Spec): Store {
    if k !in st.tickets then st else Put(st, st.tickets[k].(meta := meta, spec := spec))
  }

  /**
    A copy a lagging cache may still serve: an older version of the object, which is either out of
    date or equal to the stored object.
   */
  predicate Plausible(st: Store, k: Key, t: Ticket) {
    && t.key == k
    && t.rv < st.nextRv
    && t.uid < st.nextUid
    && RefOk(k, t.status)
    && (Current(st, t) ==> st.tickets[k] == t)
  }

  // ---------------------------------------------------------------- Changes to a local copy

  /** What `updateTicketStatus` does to the object before it writes it. */
  function Marked(t: Ticket, phase: Phase, reason: string, now: int): Ticket {
    var kind := if phase == Expired then "Expiring" else "Ready";
    t.(status := t.status.(
      phase := phase,
      reason := reason,
      conditions := Upsert(t.status.conditions, Update(kind, phase != Pending, now, reason))))
  }

  /** What `bindPodToTicket` does to the ticket before it writes it. */
  function ClaimedBy(t: Ticket, pod: string, now: int): Ticket {
    t.(status := t.status.(phase := Claimed, claimedTime := Some(now), claimedPod := Some(pod)))
  }

  /** The status update that ends `bindPodToTicket`; the call may also fail for reasons of its own. */
  function WriteClaim(st: Store, t: Ticket, pod: string, fails: bool): Store {
    if fails then st else UpdateStatus(st, ClaimedBy(t, pod, st.now))
  }

  predicate TimedOut(t: Ticket, now: int) {
    t.status.expiration.Some? && now > t.status.expiration.value
  }

  /** The business pod may bind: the test made on every candidate ticket. */
  predicate Claimable(t: Ticket) {
    t.status.phase == Ready && t.status.nodeName.Some?
  }
}
