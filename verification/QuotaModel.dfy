/** Quotas, their scopes, and the objects in the cluster that quotas count. */
module QuotaModel {
  import opened Common
  import opened Lists
  import opened Resources
  import opened TicketModel

  // ---------------------------------------------------------------- Label selectors

  datatype Operator = In | NotIn | Exists | DoesNotExist | OtherOperator

  datatype Requirement = Requirement(key: string, operator: Operator, values: set<string>)

  /** `metav1.LabelSelector`. */
  datatype LabelSelector = LabelSelector(matchLabels: map<string, string>, expressions: seq<Requirement>)

  /** `LabelSelectorAsSelector` returns no error. */
  predicate WellFormed(s: LabelSelector) {
    forall i :: 0 <= i < |s.expressions| ==> ValuesFit(s.expressions[i])
  }

  predicate ValuesFit(r: Requirement) {
    match r.operator
    case In => r.values != {}
    case NotIn => r.values != {}
    case Exists => r.values == {}
    case DoesNotExist => r.values == {}
    case OtherOperator => false
  }

  predicate Satisfied(r: Requirement, labels: map<string, string>) {
    match r.operator
    case In => r.key in labels && labels[r.key] in r.values
    case NotIn => r.key in labels ==> labels[r.key] !in r.values
    case Exists => r.key in labels
    case DoesNotExist => r.key !in labels
    case OtherOperator => false
  }

  predicate Matches(s: LabelSelector, labels: map<string, string>) {
    && (forall k :: k in s.matchLabels ==> k in labels && labels[k] == s.matchLabels[k])
    && (forall i :: 0 <= i < |s.expressions| ==> Satisfied(s.expressions[i], labels))
  }

  // ---------------------------------------------------------------- Quotas

  datatype Scope =
    | Cluster
    | NamespaceList(names: seq<string>)
    | NamespaceSelector(namespaces: Option<LabelSelector>)
    | ObjectSelector(objects: Option<LabelSelector>)

  /** A time window with its multiplier already parsed; `None` when it is not a number. */
  datatype TimeWindow = TimeWindow(name: string, multiplier: Option<real>)

  datatype Quota = Quota(name: string, scope: Scope, hard: ResourceList, windows: seq<TimeWindow>)

  /** `doesQuotaApply` of both webhooks: selectors are not evaluated there and apply nowhere. */
  predicate Covers(s: Scope, ns: string) {
    match s
    case Cluster => true
    case NamespaceList(names) => ns in names
    case _ => false
  }

  // ---------------------------------------------------------------- What quotas count

  /** An order, daemon order or cron order as far as counting goes. */
  datatype Item = Item(ns: string, labels: map<string, string>)

  datatype Namespace = Namespace(name: string, labels: map<string, string>)

  datatype Objects = Objects(
    namespaces: seq<Namespace>,
    orders: seq<Item>,
    daemonOrders: seq<Item>,
    cronOrders: seq<Item>,
    tickets: seq<Ticket>)

  function ItemNs(i: Item): string { i.ns }

  function TicketNs(t: Ticket): string { t.key.ns }

  function ItemLabels(i: Item): map<string, string> { i.labels }

  function TicketLabels(t: Ticket): map<string, string> { t.meta.labels }

  /** `List` with `InNamespace`. */
  function InNamespace<T>(all: seq<T>, ns: T -> string, name: string): seq<T> {
    Filter(all, (x: T) => ns(x) == name)
  }

  /** `List` with `MatchingLabelsSelector`. */
  function WithLabels<T>(all: seq<T>, labels: T -> map<string, string>, s: LabelSelector): seq<T> {
    Filter(all, (x: T) => Matches(s, labels(x)))
  }

  /** One `List` per namespace, appended; a name listed twice contributes twice. */
  function InNamespaces<T>(all: seq<T>, ns: T -> string, names: seq<string>): seq<T> {
    if names == [] then []
    else InNamespaces(all, ns, names[..|names| - 1]) + InNamespace(all, ns, names[|names| - 1])
  }

  lemma InNamespaceStep<T>(all: seq<T>, ns: T -> string, name: string)
    requires all != []
    ensures var n := |all| - 1;
      InNamespace(all, ns, name) ==
      if ns(all[n]) == name then InNamespace(all[..n], ns, name) + [all[n]] else InNamespace(all[..n], ns, name)
  {
  }

  lemma WithLabelsStep<T>(all: seq<T>, labels: T -> map<string, string>, s: LabelSelector)
    requires all != []
    ensures var n := |all| - 1;
      WithLabels(all, labels, s) ==
      if Matches(s, labels(all[n])) then WithLabels(all[..n], labels, s) + [all[n]] else WithLabels(all[..n], labels, s)
  {
  }

  ghost predicate NoDuplicates(names: seq<string>) {
    forall i, j :: 0 <= i < j < |names| ==> names[i] != names[j]
  }

  lemma {:induction false} CountWithoutDuplicates(names: seq<string>, name: string)
    requires NoDuplicates(names)
    ensures multiset(names)[name] == if name in names then 1 else 0
  {
    if names != [] {
      var front, last := names[..|names| - 1], names[|names| - 1];
      assert names == front + [last];
      CountWithoutDuplicates(front, name);
    }
  }

  /** The quota lists namespaces at most once. */
  ghost predicate ScopeWithoutDuplicates(s: Scope) {
    s.NamespaceList? ==> NoDuplicates(s.names)
  }

  // ---------------------------------------------------------------- One more object

  function Insert<T>(s: seq<T>, at: nat, x: T): seq<T>
    requires at <= |s|
  {
    s[..at] + [x] + s[at..]
  }

  lemma InsertedElements<T>(s: seq<T>, at: nat, x: T, y: T)
    requires at <= |s|
    ensures y in Insert(s, at, x) <==> y == x || y in s
  {
    assert s == s[..at] + s[at..];
  }

  lemma FilterOne<T>(t: T, keep: T -> bool)
    ensures Filter([t], keep) == if keep(t) then [t] else []
  {
    assert [t][..0] == [];
    assert Filter([t][..0], keep) == [];
  }

  /** Filtering with one more element: it comes along where it belongs, if it passes. */
  lemma FilterInserted<T>(s: seq<T>, at: nat, x: T, keep: T -> bool)
    requires at <= |s|
    ensures Filter(s, keep) == Filter(s[..at], keep) + Filter(s[at..], keep)
    ensures Filter(Insert(s, at, x), keep) ==
            Filter(s[..at], keep) + (if keep(x) then [x] else []) + Filter(s[at..], keep)
  {
    assert s == s[..at] + s[at..];
    FilterAppend(s[..at], s[at..], keep);
    FilterAppend(s[..at] + [x], s[at..], keep);
    FilterAppend(s[..at], [x], keep);
    FilterOne(x, keep);
  }

  lemma InNamespaceInserted<T>(s: seq<T>, at: nat, x: T, ns: T -> string, name: string)
    requires at <= |s|
    ensures InNamespace(s, ns, name) == InNamespace(s[..at], ns, name) + InNamespace(s[at..], ns, name)
    ensures InNamespace(Insert(s, at, x), ns, name) ==
            InNamespace(s[..at], ns, name) + (if ns(x) == name then [x] else []) + InNamespace(s[at..], ns, name)
  {
    FilterInserted(s, at, x, (x: T) => ns(x) == name);
  }

  lemma WithLabelsInserted<T>(l: seq<T>, at: nat, x: T, labels: T -> map<string, string>, s: LabelSelector)
    requires at <= |l|
    ensures WithLabels(l, labels, s) == WithLabels(l[..at], labels, s) + WithLabels(l[at..], labels, s)
    ensures WithLabels(Insert(l, at, x), labels, s) ==
            WithLabels(l[..at], labels, s)
            + (if Matches(s, labels(x)) then [x] else [])
            + WithLabels(l[at..], labels, s)
  {
    FilterInserted(l, at, x, (x: T) => Matches(s, labels(x)));
  }

  // ---------------------------------------------------------------- Counting one by one

  /** How many objects are in namespaces that the scope covers, each once. */
  function Number<T>(all: seq<T>, ns: T -> string, s: Scope): nat {
    if all == [] then 0
    else Number(all[..|all| - 1], ns, s) + if Covers(s, ns(all[|all| - 1])) then 1 else 0
  }

  /** How often a scope counts the objects of a namespace. */
  function Multiplicity(s: Scope, name: string): nat {
    match s
    case Cluster => 1
    case NamespaceList(names) => multiset(names)[name]
    case _ => 0
  }

  /** How many objects the scope counts, repeated namespaces and all. */
  function Tally<T>(all: seq<T>, ns: T -> string, s: Scope): nat {
    if all == [] then 0
    else Tally(all[..|all| - 1], ns, s) + Multiplicity(s, ns(all[|all| - 1]))
  }

  lemma {:induction false} NumberAppend<T>(a: seq<T>, b: seq<T>, ns: T -> string, s: Scope)
    ensures Number(a + b, ns, s) == Number(a, ns, s) + Number(b, ns, s)
    decreases |b|
  {
    if b == [] {
      assert a + b == a;
    } else {
      NumberAppend(a, b[..|b| - 1], ns, s);
      assert (a + b)[..|a + b| - 1] == a + b[..|b| - 1];
    }
  }

  lemma NumberOfOne<T>(x: T, ns: T -> string, s: Scope)
    ensures Number([x], ns, s) == if Covers(s, ns(x)) then 1 else 0
  {
    assert Number([x][..0], ns, s) == 0;
  }

  lemma {:induction false} TallyOfCluster<T>(all: seq<T>, ns: T -> string)
    ensures Tally(all, ns, Cluster) == |all|
  {
    if all != [] {
      TallyOfCluster(all[..|all| - 1], ns);
    }
  }

  lemma {:induction false} TallyOfNothing<T>(all: seq<T>, ns: T -> string)
    ensures Tally(all, ns, NamespaceList([])) == 0
  {
    if all != [] {
      TallyOfNothing(all[..|all| - 1], ns);
    }
  }

  /** One more name in the list counts the objects of that namespace once more. */
  lemma {:induction false} TallySnoc<T>(all: seq<T>, ns: T -> string, names: seq<string>, name: string)
    ensures Tally(all, ns, NamespaceList(names + [name])) ==
            Tally(all, ns, NamespaceList(names)) + |InNamespace(all, ns, name)|
  {
    if all != [] {
      TallySnoc(all[..|all| - 1], ns, names, name);
      InNamespaceStep(all, ns, name);
      assert multiset(names + [name])[ns(all[|all| - 1])]
             == multiset(names)[ns(all[|all| - 1])] + if ns(all[|all| - 1]) == name then 1 else 0;
    }
  }

  /** Listing namespace by namespace finds exactly what is counted one by one. */
  lemma {:induction false} ListedIsTally<T>(all: seq<T>, ns: T -> string, names: seq<string>)
    ensures |InNamespaces(all, ns, names)| == Tally(all, ns, NamespaceList(names))
  {
    if names == [] {
      TallyOfNothing(all, ns);
    } else {
      var front, last := names[..|names| - 1], names[|names| - 1];
      assert names == front + [last];
      ListedIsTally(all, ns, front);
      TallySnoc(all, ns, front, last);
    }
  }

  lemma MultiplicityIsCover(s: Scope, name: string)
    ensures Multiplicity(s, name) > 0 <==> Covers(s, name)
    ensures ScopeWithoutDuplicates(s) ==> Multiplicity(s, name) <= 1
  {
    if s.NamespaceList? && NoDuplicates(s.names) {
      CountWithoutDuplicates(s.names, name);
    }
  }

  /** Each object in scope is counted at least once, and exactly once if no namespace is listed twice. */
  lemma {:induction false} TallyIsNumber<T>(all: seq<T>, ns: T -> string, s: Scope)
    ensures Tally(all, ns, s) >= Number(all, ns, s)
    ensures ScopeWithoutDuplicates(s) ==> Tally(all, ns, s) == Number(all, ns, s)
  {
    if all != [] {
      TallyIsNumber(all[..|all| - 1], ns, s);
      MultiplicityIsCover(s, ns(all[|all| - 1]));
    }
  }

  /** What one expression of a selector means for a set of labels. */
  ghost predicate Meets(r: Requirement, labels: map<string, string>) {
    match r.operator
    case In => exists v :: v in r.values && (r.key, v) in labels.Items
    case NotIn => forall v :: v in r.values ==> (r.key, v) !in labels.Items
    case Exists => exists v :: (r.key, v) in labels.Items
    case DoesNotExist => forall v :: (r.key, v) !in labels.Items
    case OtherOperator => false
  }

  lemma ExpressionMeaning(r: Requirement, labels: map<string, string>)
    ensures Satisfied(r, labels) <==> Meets(r, labels)
  {
    if r.key in labels {
      assert (r.key, labels[r.key]) in labels.Items;
    }
  }

  /** A selector selects the labels that include all its pairs and meet all its expressions. */
  lemma SelectorMeaning(s: LabelSelector, labels: map<string, string>)
    ensures Matches(s, labels) <==>
      s.matchLabels.Items <= labels.Items && forall i :: 0 <= i < |s.expressions| ==> Meets(s.expressions[i], labels)
  {
    forall i | 0 <= i < |s.expressions|
      ensures Satisfied(s.expressions[i], labels) <==> Meets(s.expressions[i], labels)
    {
      ExpressionMeaning(s.expressions[i], labels);
    }
    PairsIncluded(s.matchLabels, labels);
  }

  lemma PairsIncluded(a: map<string, string>, b: map<string, string>)
    ensures (forall k :: k in a ==> k in b && b[k] == a[k]) <==> a.Items <= b.Items
  {
    if a.Items <= b.Items {
      forall k | k in a ensures k in b && b[k] == a[k] {
        assert (k, a[k]) in a.Items;
      }
    }
  }
}
