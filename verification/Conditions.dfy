/**
  Status conditions, kept the same way by the ticket, order and quota controllers: one entry per
  type, and an entry is rewritten only when its status flips.
 */
module Conditions {
  import opened Common

  datatype Condition = Condition(kind: string, isTrue: bool, lastTransition: int, reason: string)

  /** One status write as far as conditions are concerned. */
  datatype Update = Update(kind: string, isTrue: bool, now: int, reason: string)

  function Fresh(u: Update): Condition {
    Condition(u.kind, u.isTrue, u.now, u.reason)
  }

  /** What the "find existing condition or create new one" block makes of the list. */
  function Upsert(cs: seq<Condition>, u: Update): seq<Condition> {
    if cs == [] then [Fresh(u)]
    else if cs[0].kind == u.kind then
      if cs[0].isTrue != u.isTrue then [Fresh(u)] + cs[1..] else cs
    else [cs[0]] + Upsert(cs[1..], u)
  }

  /** The conditions after a run of status writes. */
  function After(updates: seq<Update>): seq<Condition> {
    if updates == [] then [] else Upsert(After(updates[..|updates| - 1]), updates[|updates| - 1])
  }

  ghost predicate Distinct(cs: seq<Condition>) {
    forall i, j :: 0 <= i < j < |cs| ==> cs[i].kind != cs[j].kind
  }

  /** The entry of a type, if there is one. */
  function Lookup(cs: seq<Condition>, kind: string): Option<Condition> {
    if cs == [] then None
    else if cs[0].kind == kind then Some(cs[0])
    else Lookup(cs[1..], kind)
  }

  /** The condition of this kind is there and has this truth value. */
  predicate Says(cs: seq<Condition>, kind: string, isTrue: bool) {
    Lookup(cs, kind).Some? && Lookup(cs, kind).value.isTrue == isTrue
  }

  /**
    An independent account of one entry: what the updates of its type alone say. Its status is the
    status of the last such update; its time and reason are those of the first update of the
    latest unbroken stretch with that status.
   */
  function Told(updates: seq<Update>, kind: string): Option<Condition> {
    if updates == [] then None
    else
      var last := updates[|updates| - 1];
      var before := Told(updates[..|updates| - 1], kind);
      if last.kind != kind then before
      else if before.Some? && before.value.isTrue == last.isTrue then before
      else Some(Fresh(last))
  }

  lemma {:induction false} UpsertKinds(cs: seq<Condition>, u: Update, kind: string)
    ensures (exists c :: c in Upsert(cs, u) && c.kind == kind)
        <==> kind == u.kind || (exists c :: c in cs && c.kind == kind)
  {
    var r := Upsert(cs, u);
    if cs == [] {
      assert Fresh(u) in r;
    } else if cs[0].kind == u.kind {
      assert r[0] in r && r[0].kind == u.kind && r[1..] == cs[1..];
      assert forall c :: c in cs <==> c == cs[0] || c in cs[1..];
      assert forall c :: c in r <==> c == r[0] || c in r[1..];
    } else {
      UpsertKinds(cs[1..], u, kind);
      assert r[0] == cs[0] && r[1..] == Upsert(cs[1..], u);
      assert forall c :: c in cs <==> c == cs[0] || c in cs[1..];
      assert forall c :: c in r <==> c == r[0] || c in r[1..];
    }
  }

  lemma {:induction false} UpsertKeepsDistinct(cs: seq<Condition>, u: Update)
    requires Distinct(cs)
    ensures Distinct(Upsert(cs, u))
  {
    if cs != [] && cs[0].kind != u.kind {
      assert Distinct(cs[1..]);
      UpsertKeepsDistinct(cs[1..], u);
      UpsertKinds(cs[1..], u, cs[0].kind);
      var tail := Upsert(cs[1..], u);
      forall c | c in cs[1..] ensures c.kind != cs[0].kind {
        var i :| 0 <= i < |cs[1..]| && cs[1..][i] == c;
        assert cs[i + 1].kind != cs[0].kind;
      }
      assert forall i :: 0 <= i < |tail| ==> tail[i] in tail;
    }
  }

  lemma {:induction false} LookupAfterUpsert(cs: seq<Condition>, u: Update, kind: string)
    ensures Lookup(Upsert(cs, u), kind) ==
            if kind != u.kind then Lookup(cs, kind)
            else if Lookup(cs, kind).Some? && Lookup(cs, kind).value.isTrue == u.isTrue then Lookup(cs, kind)
            else Some(Fresh(u))
  {
    if cs != [] && cs[0].kind != u.kind {
      LookupAfterUpsert(cs[1..], u, kind);
      assert Upsert(cs, u)[1..] == Upsert(cs[1..], u);
    } else if cs != [] {
      assert Upsert(cs, u)[1..] == cs[1..];
    }
  }

  /**
    From an empty list and over any run of updates: condition types stay distinct, and each entry
    is exactly the one its own updates tell, so its time moves only when its status flips.
   */
  lemma {:induction false} RunMeaning(updates: seq<Update>)
    ensures Distinct(After(updates))
    ensures forall kind :: Lookup(After(updates), kind) == Told(updates, kind)
  {
    if updates != [] {
      var before, last := updates[..|updates| - 1], updates[|updates| - 1];
      RunMeaning(before);
      UpsertKeepsDistinct(After(before), last);
      forall kind ensures Lookup(After(updates), kind) == Told(updates, kind) {
        LookupAfterUpsert(After(before), last, kind);
      }
    }
  }

  /** Between two points of a run an entry's time changes only if some update flipped its status. */
  lemma {:induction false} TimeMovesOnlyOnFlip(updates: seq<Update>, more: seq<Update>, kind: string)
    requires Lookup(After(updates), kind).Some?
    requires forall u :: u in more && u.kind == kind ==> u.isTrue == Lookup(After(updates), kind).value.isTrue
    ensures Lookup(After(updates + more), kind) == Lookup(After(updates), kind)
  {
    if more == [] {
      assert updates + more == updates;
    } else {
      var run, last := more[..|more| - 1], more[|more| - 1];
      assert last in more;
      assert forall u :: u in run ==> u in more;
      TimeMovesOnlyOnFlip(updates, run, kind);
      assert (updates + more)[..|updates + more| - 1] == updates + run;
      LookupAfterUpsert(After(updates + run), last, kind);
    }
  }

  /** The condition slice of a status, updated in place. */
  class ConditionList {
    var items: seq<Condition>

    constructor (items: seq<Condition>)
      ensures this.items == items
    {
      this.items := items;
    }

    /** The search loop and the append-or-overwrite that every status writer of korder repeats. */
    method Set(kind: string, isTrue: bool, now: int, reason: string)
      modifies this
      ensures items == Upsert(old(items), Update(kind, isTrue, now, reason))
    {
      var u := Update(kind, isTrue, now, reason);
      var found := -1;
      var i := 0;
      while i < |items|
        invariant 0 <= i <= |items| && items == old(items)
        invariant found == -1
        invariant forall k :: 0 <= k < i ==> items[k].kind != kind
      {
        if items[i].kind == kind {
          found := i;
          break;
        }
        i := i + 1;
      }
      UpsertAt(items, u, i);
      if found == -1 {
        items := items + [Fresh(u)];
      } else if items[found].isTrue != isTrue {
        items := items[found := Fresh(u)];
      }
    }
  }

  lemma {:induction false} UpsertAt(cs: seq<Condition>, u: Update, i: nat)
    requires i <= |cs|
    requires forall k :: 0 <= k < i ==> cs[k].kind != u.kind
    requires i < |cs| ==> cs[i].kind == u.kind
    ensures Upsert(cs, u) ==
            if i == |cs| then cs + [Fresh(u)]
            else if cs[i].isTrue != u.isTrue then cs[i := Fresh(u)]
            else cs
  {
    if i > 0 {
      var tail := cs[1..];
      assert forall k :: 0 <= k < i - 1 ==> tail[k] == cs[k + 1];
      UpsertAt(tail, u, i - 1);
      assert cs[0].kind != u.kind && cs == [cs[0]] + tail;
      AtTail(cs[0], tail, i - 1, Fresh(u));
    } else if cs != [] {
      assert cs == [cs[0]] + cs[1..];
    }
  }

  lemma AtTail(head: Condition, tail: seq<Condition>, i: nat, c: Condition)
    requires i <= |tail|
    ensures [head] + (tail + [c]) == ([head] + tail) + [c]
    ensures i < |tail| ==> [head] + tail[i := c] == ([head] + tail)[i + 1 := c]
  {
  }
}
