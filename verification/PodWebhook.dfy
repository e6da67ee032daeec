/**
  The pod admission webhooks: choosing the best ticket, binding a pod to it, and validating the
  annotations afterwards.
 */
module PodWebhook {
  import opened Common
  import opened Lists
  import opened Text
  import opened TicketModel
  import opened TicketSafety
  import opened TicketRequests
  import opened TicketMachine
  import opened TicketReconcile
  import opened GuardianOwnership
  import opened TicketOutcomes
  import TicketController

  const REQUEST := "korder.dev/ticket-request"
  const CLAIMED := "korder.dev/ticket-claimed"
  const NODE := "korder.dev/ticket-node"
  const GUARDIAN := "korder.dev/guardian"

  /** A map of labels or annotations read the way Go reads it: a missing key is "". */
  function Get(m: map<string, string>, key: string): string {
    if key in m then m[key] else ""
  }

  // ---------------------------------------------------------------- Choosing a ticket

  /** `checkResourceCompatibility`. */
  predicate ResourcesFit(t: Ticket) {
    t.spec.resources.None? || t.spec.resources.value.requests.Some? || t.spec.resources.value.limits.Some?
  }

  /** `checkNodeSelectorCompatibility`. */
  predicate NodesFit(selector: Option<map<string, string>>, t: Ticket) {
    selector.Some? && t.spec.nodeSelector.Some? ==>
      forall key :: key in selector.value ==>
        key in t.spec.nodeSelector.value && t.spec.nodeSelector.value[key] == selector.value[key]
  }

  function Score(selector: Option<map<string, string>>, t: Ticket): nat {
    (if t.status.nodeName.Some? then 10 else 0)
    + (if ResourcesFit(t) then 20 else 0)
    + (if NodesFit(selector, t) then 15 else 0)
    + 10
  }

  /** The index of the earliest claimable ticket with the highest score. */
  function FirstBest(selector: Option<map<string, string>>, tickets: seq<Ticket>): (best: Option<nat>)
    ensures best.Some? ==> best.value < |tickets| && Claimable(tickets[best.value])
  {
    if tickets == [] then None
    else
      var n := |tickets| - 1;
      var front := FirstBest(selector, tickets[..n]);
      if !Claimable(tickets[n]) then front
      else if front.None? || Score(selector, tickets[n]) > Score(selector, tickets[front.value]) then Some(n)
      else front
  }

  ghost predicate FirstMaximum(selector: Option<map<string, string>>, tickets: seq<Ticket>, b: nat) {
    && b < |tickets|
    && Claimable(tickets[b])
    && forall j :: 0 <= j < |tickets| && Claimable(tickets[j]) ==>
         && Score(selector, tickets[j]) <= Score(selector, tickets[b])
         && (j < b ==> Score(selector, tickets[j]) < Score(selector, tickets[b]))
  }

  /** The choice is empty exactly when nothing is claimable, and otherwise is the first maximum. */
  lemma {:induction false} ChoiceIsFirstMaximum(selector: Option<map<string, string>>, tickets: seq<Ticket>)
    ensures FirstBest(selector, tickets).None? <==> forall j :: 0 <= j < |tickets| ==> !Claimable(tickets[j])
    ensures forall b: nat :: FirstBest(selector, tickets) == Some(b) <==> FirstMaximum(selector, tickets, b)
  {
    if tickets != [] {
      var n := |tickets| - 1;
      ChoiceIsFirstMaximum(selector, tickets[..n]);
      var best := FirstBest(selector, tickets);
      if best.Some? {
        var front := FirstBest(selector, tickets[..n]);
        if front.Some? {
          assert FirstMaximum(selector, tickets[..n], front.value);
          forall j | 0 <= j < n && Claimable(tickets[j])
            ensures Score(selector, tickets[j]) <= Score(selector, tickets[front.value])
            ensures j < front.value ==> Score(selector, tickets[j]) < Score(selector, tickets[front.value])
          {
            assert tickets[..n][j] == tickets[j];
          }
        } else {
          assert forall j :: 0 <= j < n ==> tickets[..n][j] == tickets[j];
        }
        assert FirstMaximum(selector, tickets, best.value);
        forall b: nat | FirstMaximum(selector, tickets, b) ensures b == best.value {
          assert Claimable(tickets[b]) && Claimable(tickets[best.value]);
        }
      } else {
        assert forall j :: 0 <= j < n ==> tickets[..n][j] == tickets[j];
      }
    }
  }

  /** What the score ranks by, among tickets that can be chosen: stated resources first, then node labels. */
  lemma ScoreRanks(selector: Option<map<string, string>>, t: Ticket, u: Ticket)
    requires Claimable(t) && Claimable(u)
    ensures Score(selector, t) > Score(selector, u) <==>
            || (ResourcesFit(t) && !ResourcesFit(u))
            || (ResourcesFit(t) == ResourcesFit(u) && NodesFit(selector, t) && !NodesFit(selector, u))
  {
  }

  /** Every ticket that can be chosen scores between 20 and 55. */
  lemma ScoreRange(selector: Option<map<string, string>>, t: Ticket)
    requires Claimable(t)
    ensures Score(selector, t) in {20, 35, 40, 55}
  {
    var base, resources, nodes := 20, ResourcesFit(t), NodesFit(selector, t);
    assert Score(selector, t) == base + (if resources then 20 else 0) + (if nodes then 15 else 0);
  }

  /** Ready, and on a node as far as the ticket knows. */
  predicate OnOffer(t: Ticket) {
    t.status.phase == Phase.Ready && t.status.nodeName.Some?
  }

  /** The choice is made among tickets on offer. */
  lemma ChoiceIsOnOffer(selector: Option<map<string, string>>, tickets: seq<Ticket>)
    ensures FirstBest(selector, tickets).None? <==> forall j :: 0 <= j < |tickets| ==> !OnOffer(tickets[j])
    ensures FirstBest(selector, tickets).Some? ==>
            FirstBest(selector, tickets).value < |tickets| && OnOffer(tickets[FirstBest(selector, tickets).value])
  {
    ChoiceIsFirstMaximum(selector, tickets);
    forall j | 0 <= j < |tickets| ensures Claimable(tickets[j]) <==> OnOffer(tickets[j]) {
    }
  }

  /**
    The node selector decides between tickets with the same resources: where one on offer bears every
    pair the pod asks for, or has no node selector at all, no ticket whose node selector lacks a pair or
    gives it another value is ever chosen.
   */
  lemma MisfitIsNeverChosen(wanted: map<string, string>, tickets: seq<Ticket>, i: nat, j: nat, key: string)
    requires i < |tickets| && j < |tickets| && OnOffer(tickets[i]) && OnOffer(tickets[j])
    requires tickets[i].spec.resources == tickets[j].spec.resources
    requires tickets[i].spec.nodeSelector.Some? ==>
             wanted.Items <= tickets[i].spec.nodeSelector.value.Items
    requires key in wanted && tickets[j].spec.nodeSelector.Some?
    requires (key, wanted[key]) !in tickets[j].spec.nodeSelector.value.Items
    ensures FirstBest(Some(wanted), tickets) != Some(j)
  {
    if tickets[i].spec.nodeSelector.Some? {
      var given := tickets[i].spec.nodeSelector.value;
      forall k | k in wanted ensures k in given && given[k] == wanted[k] {
        assert (k, wanted[k]) in wanted.Items;
      }
    }
    ChoiceIsFirstMaximum(Some(wanted), tickets);
    ScoreRanks(Some(wanted), tickets[i], tickets[j]);
    assert !FirstMaximum(Some(wanted), tickets, j);
  }

  /** Where the pod or neither ticket has a node selector, the earlier of two tickets with the same resources wins. */
  lemma EarlierWinsWithoutSelectors(selector: Option<map<string, string>>, tickets: seq<Ticket>, i: nat, j: nat)
    requires i < j < |tickets| && OnOffer(tickets[i]) && OnOffer(tickets[j])
    requires tickets[i].spec.resources == tickets[j].spec.resources
    requires selector.None? || tickets[i].spec.nodeSelector.None?
    ensures FirstBest(selector, tickets) != Some(j)
  {
    ChoiceIsFirstMaximum(selector, tickets);
    ScoreRanks(selector, tickets[j], tickets[i]);
    assert !FirstMaximum(selector, tickets, j);
  }

  /** A ticket whose requirements are there but state nothing never wins against one that states some, or has none. */
  lemma EmptyRequirementsLose(selector: Option<map<string, string>>, tickets: seq<Ticket>, i: nat, j: nat)
    requires i < |tickets| && j < |tickets| && OnOffer(tickets[i]) && OnOffer(tickets[j])
    requires tickets[i].spec.resources.None? || tickets[i].spec.resources.value != Requirements(None, None)
    requires tickets[j].spec.resources == Some(Requirements(None, None))
    ensures FirstBest(selector, tickets) != Some(j)
  {
    ChoiceIsFirstMaximum(selector, tickets);
    ScoreRanks(selector, tickets[i], tickets[j]);
    assert !FirstMaximum(selector, tickets, j);
  }

  // ---------------------------------------------------------------- What admission does to a pod

  /** The ticket the defaulter picks for a pod, from the tickets it sees. */
  function Chosen(
    labels: map<string, string>, annotations: map<string, string>, ns: string,
    selector: Option<map<string, string>>, tickets: seq<Ticket>): (t: Option<Ticket>)
    ensures t.Some? ==> Claimable(t.value)
  {
    if Get(labels, GUARDIAN) == "true" || Get(annotations, REQUEST) == "" then None
    else
      match Find(tickets, ns, ParseRequest(Get(annotations, REQUEST)))
      case LookupError => None
      case Listed(found) =>
        var best := FirstBest(selector, found);
        if best.None? then None else Some(found[best.value])
  }

  function BoundAnnotations(annotations: map<string, string>, t: Ticket): map<string, string>
    requires Claimable(t)
  {
    annotations[NODE := t.status.nodeName.value][CLAIMED := t.key.name]
  }

  /** A bound pod is annotated with the ticket and its node, and keeps every other annotation. */
  lemma BoundAnnotationsSay(annotations: map<string, string>, t: Ticket, other: string)
    requires Claimable(t)
    ensures
      var bound := BoundAnnotations(annotations, t);
      && "korder.dev/ticket-node" in bound && Some(bound["korder.dev/ticket-node"]) == t.status.nodeName
      && "korder.dev/ticket-claimed" in bound && bound["korder.dev/ticket-claimed"] == t.key.name
      && (other != "korder.dev/ticket-node" && other != "korder.dev/ticket-claimed" ==>
          (other in bound <==> other in annotations) && Get(bound, other) == Get(annotations, other))
  {
    assert |NODE| != |CLAIMED|;
  }

  /**
    Which ticket a pod gets: one its request asks for and that is on offer. It gets none exactly if it is
    a guardian, has no request, or its request has no answer, or none of the answers is on offer.
   */
  lemma ChosenIsAskedFor(
    labels: map<string, string>, annotations: map<string, string>, ns: string,
    selector: Option<map<string, string>>, tickets: seq<Ticket>)
    requires DistinctKeys(tickets)
    ensures
      var (chosen, text) := (Chosen(labels, annotations, ns, selector, tickets), Get(annotations, REQUEST));
      && (chosen.Some? ==> chosen.value in tickets && Asks(text, ns, chosen.value) && OnOffer(chosen.value))
      && (chosen.None? <==>
          || Get(labels, "korder.dev/guardian") == "true" || text == "" || Unanswerable(text, ns, tickets)
          || forall t :: t in tickets && Asks(text, ns, t) ==> !OnOffer(t))
  {
    var text := Get(annotations, REQUEST);
    FoundIsAskedFor(tickets, ns, text);
    if Find(tickets, ns, ParseRequest(text)).Listed? {
      ChoiceAmongFound(tickets, ns, text, selector, Find(tickets, ns, ParseRequest(text)).tickets);
    }
  }

  lemma ChoiceAmongFound(
    tickets: seq<Ticket>, ns: string, text: string, selector: Option<map<string, string>>, found: seq<Ticket>)
    requires found == Filter(tickets, (t: Ticket) => Asks(text, ns, t))
    ensures FirstBest(selector, found).None? <==> forall t :: t in tickets && Asks(text, ns, t) ==> !OnOffer(t)
    ensures FirstBest(selector, found).Some? ==>
            var t := found[FirstBest(selector, found).value];
            t in tickets && Asks(text, ns, t) && OnOffer(t)
  {
    ChoiceIsOnOffer(selector, found);
    forall t ensures t in found <==> t in tickets && Asks(text, ns, t) {
      FilterKeeps(tickets, (u: Ticket) => Asks(text, ns, u), t);
    }
    SomeIsIndexed(found);
  }

  lemma SomeIsIndexed(found: seq<Ticket>)
    ensures (forall j :: 0 <= j < |found| ==> !OnOffer(found[j])) <==> forall t :: t in found ==> !OnOffer(t)
  {
  }

  /** `validateTicketAnnotations`, for a pod about to be created. */
  predicate Admits(labels: map<string, string>, annotations: map<string, string>, ns: string, tickets: seq<Ticket>) {
    var request, claimed := Get(annotations, REQUEST), Get(annotations, CLAIMED);
    Get(labels, GUARDIAN) == "true" || claimed == "" ||
    (&& request != ""
     && ValidRequest(ParseRequest(request))
     && match Find(tickets, ns, ParseRequest(request))
        case LookupError => false
        case Listed(found) => exists t :: t in found && t.key.name == claimed)
  }

  /** The business pod under admission. */
  class PodObject {
    const ns: string
    const name: string
    const labels: map<string, string>
    const nodeSelector: Option<map<string, string>>
    var nodeName: string
    var annotations: map<string, string>

    constructor (ns: string, name: string, labels: map<string, string>,
                 nodeSelector: Option<map<string, string>>, annotations: map<string, string>)
      ensures this.ns == ns && this.name == name && this.labels == labels
      ensures this.nodeSelector == nodeSelector && this.annotations == annotations && nodeName == ""
    {
      this.ns, this.name, this.labels := ns, name, labels;
      this.nodeSelector, this.annotations, nodeName := nodeSelector, annotations, "";
    }
  }

  /**
    The API server at the moment of the claim: anything may have happened since the ticket was read,
    and the call itself may fail.
   */
  class Server {
    var store: Store
    const fails: bool

    constructor (store: Store, fails: bool)
      ensures this.store == store && this.fails == fails
    {
      this.store, this.fails := store, fails;
    }

    method PutStatus(t: TicketController.TicketObject) returns (ok: bool)
      modifies this
      ensures ok == (!fails && Current(old(store), t.Value()))
      ensures store == if fails then old(store) else UpdateStatus(old(store), t.Value())
    {
      if fails {
        return false;
      }
      ok := t.key in store.tickets && store.tickets[t.key].rv == t.rv;
      store := UpdateStatus(store, t.Value());
    }
  }

  class PodDefaulter {
    const server: Server

    constructor (server: Server)
      ensures this.server == server
    {
      this.server := server;
    }

    method CheckResourceCompatibility(t: Ticket) returns (fits: bool)
      ensures fits == ResourcesFit(t)
    {
      if t.spec.resources.None? {
        return true;
      }
      return t.spec.resources.value.requests.Some? || t.spec.resources.value.limits.Some?;
    }

    /** The pod's pairs are looked up in the ticket's node selector, in any order, up to the first misfit. */
    method CheckNodeSelectorCompatibility(pod: PodObject, t: Ticket) returns (fits: bool)
      ensures fits == NodesFit(pod.nodeSelector, t)
    {
      if pod.nodeSelector.Some? && t.spec.nodeSelector.Some? {
        var wanted, given := pod.nodeSelector.value, t.spec.nodeSelector.value;
        var left := wanted.Keys;
        while left != {}
          invariant left <= wanted.Keys
          invariant forall key :: key in wanted.Keys - left ==> key in given && given[key] == wanted[key]
          decreases |left|
        {
          var key :| key in left;
          left := left - {key};
          if key !in given || given[key] != wanted[key] {
            return false;
          }
        }
      }
      return true;
    }

    method CalculateCompatibilityScore(pod: PodObject, t: Ticket) returns (score: int)
      ensures score == Score(pod.nodeSelector, t)
    {
      score := 0;
      if t.status.nodeName.Some? {
        score := score + 10;
      }
      var resources := CheckResourceCompatibility(t);
      if resources {
        score := score + 20;
      }
      var nodes := CheckNodeSelectorCompatibility(pod, t);
      if nodes {
        score := score + 15;
      }
      score := score + 10;  // checkAffinityCompatibility is constantly true
    }

    method SelectBestTicket(pod: PodObject, tickets: seq<Ticket>) returns (best: Option<nat>)
      ensures best == FirstBest(pod.nodeSelector, tickets)
    {
      best := None;
      var bestScore := -1;
      for i := 0 to |tickets|
        invariant best == FirstBest(pod.nodeSelector, tickets[..i])
        invariant bestScore == if best.None? then -1 else Score(pod.nodeSelector, tickets[best.value])
      {
        assert tickets[..i + 1][..i] == tickets[..i];
        var ticket := tickets[i];
        if ticket.status.phase != Ready || ticket.status.nodeName.None? {
          continue;
        }
        var score := CalculateCompatibilityScore(pod, ticket);
        if score > bestScore {
          bestScore := score;
          best := Some(i);
        }
      }
      assert tickets[..|tickets|] == tickets;
    }

    /**
      `bindPodToTicket`. The pod is changed first: it keeps the node and the claimed annotation even
      when the status write is refused.
     */
    method BindPodToTicket(pod: PodObject, ticket: TicketController.TicketObject) returns (ok: bool)
      requires Claimable(ticket.Value())
      modifies pod, ticket, server
      ensures pod.nodeName == old(ticket.nodeName.value)
      ensures pod.annotations == BoundAnnotations(old(pod.annotations), old(ticket.Value()))
      ensures ok == (!server.fails && Current(old(server.store), old(ticket.Value())))
      ensures server.store == WriteClaim(old(server.store), old(ticket.Value()), pod.ns + "/" + pod.name, server.fails)
    {
      pod.nodeName := ticket.nodeName.value;
      pod.annotations := pod.annotations[NODE := ticket.nodeName.value];
      pod.annotations := pod.annotations[CLAIMED := ticket.key.name];
      ticket.phase := Claimed;
      ticket.claimedTime := Some(server.store.now);
      ticket.claimedPod := Some(pod.ns + "/" + pod.name);
      ok := server.PutStatus(ticket);
    }

    /** `Default`: admission never fails; without a ticket, or on any error, the pod schedules normally. */
    method Default(pod: PodObject, tickets: seq<Ticket>)
      modifies pod, server
      ensures
        var chosen := Chosen(pod.labels, old(pod.annotations), pod.ns, pod.nodeSelector, tickets);
        if chosen.None? then
          pod.annotations == old(pod.annotations) && pod.nodeName == old(pod.nodeName)
            && server.store == old(server.store)
        else
          && pod.annotations == BoundAnnotations(old(pod.annotations), chosen.value)
          && pod.nodeName == chosen.value.status.nodeName.value
          && server.store == WriteClaim(old(server.store), chosen.value, pod.ns + "/" + pod.name, server.fails)
          && Get(pod.annotations, "korder.dev/ticket-node") == pod.nodeName
          && Get(pod.annotations, "korder.dev/ticket-claimed") == chosen.value.key.name
    {
      if Get(pod.labels, GUARDIAN) == "true" {
        return;
      }
      var request := Get(pod.annotations, REQUEST);
      if request == "" {
        return;
      }
      var found := FindTicketsByRequest(pod, tickets, request);
      if found.LookupError? {
        return;
      }
      var best := SelectBestTicket(pod, found.tickets);
      if best.Some? {
        var ticket := new TicketController.TicketObject(found.tickets[best.value]);
        var ok := BindPodToTicket(pod, ticket);
      }
    }

    /**
      `FindTicketsByRequest`: prefix by prefix. In a list of stored tickets, where no key occurs twice,
      it finds exactly the tickets the text asks for, or reports that there is nothing to find.
     */
    method FindTicketsByRequest(pod: PodObject, tickets: seq<Ticket>, text: string) returns (r: Lookup)
      ensures DistinctKeys(tickets) ==> (r.LookupError? <==> Unanswerable(text, pod.ns, tickets))
      ensures DistinctKeys(tickets) && r.Listed? ==> r.tickets == Filter(tickets, (t: Ticket) => Asks(text, pod.ns, t))
      ensures r == Find(tickets, pod.ns, ParseRequest(text))
    {
      if DistinctKeys(tickets) {
        FoundIsAskedFor(tickets, pod.ns, text);
      }
      var ticketName := CutPrefix(text, "name:");
      if ticketName.Some? {
        var name := TrimSpace(ticketName.value);
        if name == "" {
          return LookupError;
        }
        r := GetSpecificTicket(tickets, pod.ns, name);
        return;
      }
      var selectorStr := CutPrefix(text, "selector:");
      if selectorStr.Some? {
        var selector := TrimSpace(selectorStr.value);
        if selector == "" {
          return LookupError;
        }
        r := FindTicketsBySelector(tickets, pod.ns, selector);
        return;
      }
      var groupName := CutPrefix(text, "group:");
      if groupName.Some? {
        var group := TrimSpace(groupName.value);
        if group == "" {
          return LookupError;
        }
        var found := FindTicketsByGroup(tickets, pod.ns, group);
        return Listed(found);
      }
      r := GetSpecificTicket(tickets, pod.ns, text);
    }
  }

  // ---------------------------------------------------------------- Claim, then validation

  lemma SpecificFinds(tickets: seq<Ticket>, i: nat)
    requires DistinctKeys(tickets) && i < |tickets|
    ensures Specific(tickets, tickets[i].key) == if Claimable(tickets[i]) then Listed([tickets[i]]) else LookupError
  {
    StoredIsListed(tickets, tickets[i].key);
    SameKeySameTicket(tickets, Stored(tickets, tickets[i].key).value, tickets[i]);
  }

  /** What a request finds is in the cluster, in the pod's namespace, and matches. */
  lemma FoundMatches(tickets: seq<Ticket>, ns: string, request: Request, t: Ticket)
    requires Find(tickets, ns, request).Listed? && t in Find(tickets, ns, request).tickets
    ensures t in tickets && t.key.ns == ns
    ensures request.ByGroup? ==> InGroup(t, request.group)
    ensures request.BySelector? ==> HasLabels(t, LabelsOf(Split(request.selector, ',')))
    ensures request.ByName? || request.Direct? ==> t.key == Key(ns, request.name)
  {
    match request
    case ByName(name) => StoredIsListed(tickets, Key(ns, name));
    case Direct(name) => StoredIsListed(tickets, Key(ns, name));
    case BySelector(selector) =>
      var labels := LabelsOf(Split(selector, ','));
      FilterKeeps(tickets, (u: Ticket) => u.key.ns == ns && HasLabels(u, labels), t);
    case ByGroup(group) =>
      FilterKeeps(tickets, (u: Ticket) => u.key.ns == ns && InGroup(u, group), t);
    case Empty =>
  }

  /**
    When a recorded claim survives validation. The pod was given ticket `t`, stored at index `i`, and
    the store now holds it as claimed by this pod, with the same name, labels and annotations. The
    validator then admits the pod exactly for a group request or a well-formed selector: a request
    by name is refused because the ticket is no longer Ready, and a sloppy selector because the
    checker is stricter than the finder.
   */
  lemma ClaimAdmittedIff(
    labels: map<string, string>, annotations: map<string, string>, ns: string,
    selector: Option<map<string, string>>, tickets: seq<Ticket>, i: nat, t': Ticket)
    requires DistinctKeys(tickets) && i < |tickets| && tickets[i].key.name != ""
    requires Chosen(labels, annotations, ns, selector, tickets) == Some(tickets[i])
    requires t'.key == tickets[i].key && t'.meta == tickets[i].meta && t'.status.phase == Phase.Claimed
    ensures
      var request := ParseRequest(Get(annotations, REQUEST));
      Admits(labels, BoundAnnotations(annotations, tickets[i]), ns, tickets[i := t']) <==>
        request.ByGroup? || (request.BySelector? && WellFormed(request.selector))
  {
    var t := tickets[i];
    var request := ParseRequest(Get(annotations, REQUEST));
    var bound := BoundAnnotations(annotations, t);
    var after := tickets[i := t'];
    assert Get(bound, REQUEST) == Get(annotations, REQUEST) && Get(bound, CLAIMED) == t.key.name;
    FoundMatches(tickets, ns, request, t);
    match request
    case ByName(name) =>
      assert DistinctKeys(after);
      SpecificFinds(after, i);
    case Direct(name) =>
      assert DistinctKeys(after);
      SpecificFinds(after, i);
    case BySelector(text) =>
      var map0 := LabelsOf(Split(text, ','));
      FilterKeeps(after, (u: Ticket) => u.key.ns == ns && HasLabels(u, map0), t');
      assert after[i] == t';
      assert t' in Find(after, ns, request).tickets;
    case ByGroup(group) =>
      FilterKeeps(after, (u: Ticket) => u.key.ns == ns && InGroup(u, group), t');
      assert after[i] == t';
      assert t' in Find(after, ns, request).tickets;
    case Empty =>
  }

  /** Guardians and pods without a claim are let in; a claim without a request is not. */
  lemma AdmittedWithoutAsking(
    labels: map<string, string>, annotations: map<string, string>, ns: string, tickets: seq<Ticket>)
    ensures Get(labels, "korder.dev/guardian") == "true" ==> Admits(labels, annotations, ns, tickets)
    ensures Get(annotations, "korder.dev/ticket-claimed") == "" ==> Admits(labels, annotations, ns, tickets)
    ensures && Get(labels, "korder.dev/guardian") != "true"
            && Get(annotations, "korder.dev/ticket-claimed") != ""
            && Get(annotations, "korder.dev/ticket-request") == ""
            ==> !Admits(labels, annotations, ns, tickets)
  {
  }

  /** The text says something behind its prefix, and a selector is made of full pairs. */
  predicate SoundText(text: string) {
    if "name:" <= text then Operand(text, "name:") != ""
    else if "selector:" <= text then
      Operand(text, "selector:") != "" && FullPairs(Split(Operand(text, "selector:"), ','))
    else if "group:" <= text then Operand(text, "group:") != ""
    else true
  }

  lemma SoundIsValid(text: string)
    ensures SoundText(text) <==> ValidRequest(ParseRequest(text))
  {
    if "selector:" <= text {
      CheckerAcceptsIff(Operand(text, "selector:"));
    }
  }

  /** A claim is let in exactly if the request is sound and asks for a ticket of the claimed name. */
  lemma ClaimIsLetInIff(
    labels: map<string, string>, annotations: map<string, string>, ns: string, tickets: seq<Ticket>)
    requires DistinctKeys(tickets)
    requires Get(labels, "korder.dev/guardian") != "true" && Get(annotations, "korder.dev/ticket-claimed") != ""
    ensures
      var text := Get(annotations, "korder.dev/ticket-request");
      var claimed := Get(annotations, "korder.dev/ticket-claimed");
      Admits(labels, annotations, ns, tickets) <==>
        && text != "" && SoundText(text)
        && exists t :: t in tickets && Asks(text, ns, t) && t.key.name == claimed
  {
    var (text, claimed) := (Get(annotations, REQUEST), Get(annotations, CLAIMED));
    SoundIsValid(text);
    FoundIsAskedFor(tickets, ns, text);
    if text != "" && SoundText(text) {
      ClaimAmongFound(tickets, ns, text, claimed);
    }
  }

  lemma ClaimAmongFound(tickets: seq<Ticket>, ns: string, text: string, claimed: string)
    requires DistinctKeys(tickets) && SoundText(text)
    ensures
      var found := Find(tickets, ns, ParseRequest(text));
      (found.Listed? && exists t :: t in found.tickets && t.key.name == claimed) <==>
      exists t :: t in tickets && Asks(text, ns, t) && t.key.name == claimed
  {
    var found := Find(tickets, ns, ParseRequest(text));
    FoundIsAskedFor(tickets, ns, text);
    if found.Listed? {
      forall t ensures t in found.tickets <==> t in tickets && Asks(text, ns, t) {
        FilterKeeps(tickets, (u: Ticket) => Asks(text, ns, u), t);
      }
    } else {
      SoundButUnanswerable(tickets, ns, text);
    }
  }

  lemma SoundButUnanswerable(tickets: seq<Ticket>, ns: string, text: string)
    requires SoundText(text) && Unanswerable(text, ns, tickets)
    ensures forall t :: t in tickets ==> !Asks(text, ns, t)
  {
  }

  /** What an accepted claim leaves in the store: the pod, the time, the phase, and nothing else changed. */
  lemma ClaimOutcome(st: Store, t: Ticket, who: string)
    requires StoreOk(st) && BindOk(st, t) && Current(st, t)
    ensures
      var st' := WriteClaim(st, t, who, false);
      && st' == st.(tickets := st'.tickets, nextRv := st'.nextRv)
      && t.key in st'.tickets && st'.tickets.Keys == st.tickets.Keys
      && st'.tickets[t.key].status ==
         st.tickets[t.key].status.(phase := Claimed, claimedTime := Some(st.now), claimedPod := Some(who))
      && st'.tickets[t.key] == st.tickets[t.key].(status := st'.tickets[t.key].status, rv := st'.tickets[t.key].rv)
  {
  }

  /**
    A pod that claims a ticket goes where its guardian was: after an undisturbed reconcile of a Ready
    ticket whose guardian runs on a node, any pod for which that stored ticket is chosen is sent to that
    node and annotated with it.
   */
  lemma PodGoesToGuardiansNode(
    w: World, k: Key, sched: seq<Slot>,
    labels: map<string, string>, annotations: map<string, string>, ns: string,
    selector: Option<map<string, string>>, tickets: seq<Ticket>)
    requires Inv(w) && Live(w.store, k) && ErrorFree(sched)
    requires w.store.tickets[k].status.phase == Phase.Ready
    requires GuardianKey(k) in w.store.pods && w.store.pods[GuardianKey(k)].running
    requires w.store.pods[GuardianKey(k)].node != ""
    requires k in Drive(w, k, Fetch, sched).0.store.tickets
    requires Chosen(labels, annotations, ns, selector, tickets) == Some(Drive(w, k, Fetch, sched).0.store.tickets[k])
    ensures
      var (node, chosen) := (w.store.pods[GuardianKey(k)].node,
        Chosen(labels, annotations, ns, selector, tickets).value);
      && chosen.status.nodeName == Some(node)
      && Get(BoundAnnotations(annotations, chosen), "korder.dev/ticket-node") == node
  {
    ReadyTicketShowsGuardiansNode(w, k, sched);
    BoundAnnotationsSay(annotations, Chosen(labels, annotations, ns, selector, tickets).value, "");
  }

  /**
    A pod's claim is recorded exactly when the ticket was still current at the write and the call did
    not fail; the annotation is set either way.
   */
  lemma RecordedIffAccepted(st: Store, t: Ticket, who: string, fails: bool)
    requires StoreOk(st) && BindOk(st, t)
    requires t.key in st.tickets ==> st.tickets[t.key].status.claimedPod != Some(who)
    ensures
      var st' := WriteClaim(st, t, who, fails);
      (t.key in st'.tickets && st'.tickets[t.key].status.claimedPod == Some(who)) <==> !fails && Current(st, t)
  {
  }

  /**
    Hence two pods that picked the same ticket both end up annotated with it and sent to its node,
    while the ticket records at most one of them: the first whose call went through.
   */
  lemma TwoPodsOneTicket(st: Store, t: Ticket, first: string, second: string, fails1: bool, fails2: bool,
                         a1: map<string, string>, a2: map<string, string>)
    requires StoreOk(st) && BindOk(st, t) && Current(st, t)
    ensures
      var st1 := WriteClaim(st, t, first, fails1);
      var st2 := WriteClaim(st1, t, second, fails2);
      && t.key in st2.tickets
      && st2.tickets[t.key].status.claimedPod ==
         (if !fails1 then Some(first) else if !fails2 then Some(second) else None)
      && Get(BoundAnnotations(a1, t), CLAIMED) == t.key.name == Get(BoundAnnotations(a2, t), CLAIMED)
  {
    assert TicketOk(st, t.key);
    assert st.tickets[t.key] == t;
  }
}
