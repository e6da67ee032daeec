/** Kubernetes quantities and resource lists, and the arithmetic both quota checks share. */
module Resources {
  import opened Common

  /** `corev1.ResourceList`: exact decimal quantities by resource name. */
  type ResourceList = map<string, real>

  /** A missing resource counts as zero. */
  function Read(list: ResourceList, name: string): real {
    if name in list then list[name] else 0.0
  }

  const TWO_64: int := 0x1_0000_0000_0000_0000

  /** What a 64-bit multiplication keeps of its exact result. */
  function Wrap64(x: int): int {
    (x + MAX_INT64 + 1) % TWO_64 - (MAX_INT64 + 1)
  }

  /** `Quantity.Value()`: whole units, rounded away from zero. */
  function Value(q: real): int {
    if q >= 0.0 then -(-q).Floor else q.Floor
  }

  lemma ValueRoundsUp(q: real)
    requires q >= 0.0
    ensures q <= Value(q) as real < q + 1.0
    ensures Value(q) as real == q <==> q.Floor as real == q
  {
    var up := (-q).Floor;
    assert up as real <= -q < up as real + 1.0;
    assert Value(q) == -up;
    if q.Floor as real == q {
      assert up == -q.Floor;
    }
  }

  // ---------------------------------------------------------------- Going through a list

  // A loop over a Go map takes the names in no fixed order; `list - left` is the part already seen.

  lemma NothingSeen(list: ResourceList)
    ensures list - list.Keys == map[]
  {
  }

  lemma OneMoreSeen(list: ResourceList, left: set<string>, name: string)
    requires left <= list.Keys && name in left
    ensures name !in list - left
    ensures list - (left - {name}) == (list - left)[name := list[name]]
  {
  }

  lemma AllSeen(list: ResourceList)
    ensures list - {} == list
  {
  }

  // ---------------------------------------------------------------- Reserved resources

  const RESERVED := "reserved."

  /** A request list under the names quotas use: each name with "reserved." in front. */
  function Reserved(list: ResourceList): ResourceList {
    assert forall n: string :: (RESERVED + n)[|RESERVED|..] == n;
    map k | k in (set n | n in list :: RESERVED + n) :: list[k[|RESERVED|..]]
  }

  lemma ReservedName(n: string)
    ensures (RESERVED + n)[|RESERVED|..] == n
  {
  }

  lemma ReservedEntries(list: ResourceList)
    ensures forall n :: n in list ==> RESERVED + n in Reserved(list) && Reserved(list)[RESERVED + n] == list[n]
    ensures forall k :: k in Reserved(list) ==> exists n :: n in list && k == RESERVED + n
  {
    forall n: string ensures (RESERVED + n)[|RESERVED|..] == n {
      ReservedName(n);
    }
  }

  /** Reading a reserved name back gives the request it came from. */
  lemma ReadReserved(list: ResourceList, n: string)
    ensures Read(Reserved(list), RESERVED + n) == Read(list, n)
  {
    ReservedEntries(list);
    if RESERVED + n in Reserved(list) {
      var m :| m in list && RESERVED + n == RESERVED + m;
      ReservedName(n);
      ReservedName(m);
    }
  }

  /** A name that does not start with "reserved." is never taken by one that does. */
  lemma NotReserved(list: ResourceList, k: string)
    requires |k| < |RESERVED| || k[..|RESERVED|] != RESERVED
    ensures k !in Reserved(list)
  {
    ReservedEntries(list);
    forall n: string ensures RESERVED + n != k {
      assert (RESERVED + n)[..|RESERVED|] == RESERVED;
    }
  }

  /** One more request, one more reserved name: the step of both loops that fill such a list. */
  lemma ReservedGrows(list: ResourceList, n: string, q: real)
    requires n !in list
    ensures Reserved(list[n := q]) == Reserved(list)[RESERVED + n := q]
  {
    ReservedEntries(list);
    ReservedEntries(list[n := q]);
    var more, r := Reserved(list[n := q]), Reserved(list)[RESERVED + n := q];
    forall k | k in more ensures k in r && r[k] == more[k] {
      var m :| m in list[n := q] && k == RESERVED + m;
      ReservedName(m);
      ReservedName(n);
    }
    forall k | k in r ensures k in more {
      if k in Reserved(list) {
        var m :| m in list && k == RESERVED + m;
        assert m in list[n := q];
      }
    }
  }

  lemma NothingReserved(counts: ResourceList)
    ensures Reserved(map[]) + counts == counts
  {
  }

  /** The same step below the counts that stand beside the reserved names. */
  lemma RequestsGrow(list: ResourceList, n: string, q: real, counts: ResourceList)
    requires n !in list && RESERVED + n !in counts
    ensures Reserved(list[n := q]) + counts == (Reserved(list) + counts)[RESERVED + n := q]
  {
    ReservedGrows(list, n, q);
  }

  /** Counts are kept under names that are not reserved. */
  ghost predicate Unreserved(counts: ResourceList) {
    forall n: string :: RESERVED + n !in counts
  }

  lemma UnreservedName(n: string, k: string)
    requires k != "" && k[0] != 'r'
    ensures RESERVED + n != k
  {
    assert (RESERVED + n)[0] == 'r';
  }

  // ---------------------------------------------------------------- Projection and verdict

  /** The usage there would be with the requests on top. */
  function Projected(usage: ResourceList, requests: ResourceList): ResourceList {
    map n | n in usage.Keys + requests.Keys :: Read(usage, n) + Read(requests, n)
  }

  /** Only resources that appear on both sides are compared. */
  predicate Exceeded(usage: ResourceList, limits: ResourceList) {
    exists n :: n in limits && n in usage && usage[n] > limits[n]
  }

  lemma NothingProjected(usage: ResourceList)
    ensures Projected(usage, map[]) == usage
  {
  }

  lemma ProjectedGrows(usage: ResourceList, requests: ResourceList, n: string, q: real)
    requires n !in requests
    ensures var p := Projected(usage, requests);
      Projected(usage, requests[n := q]) == p[n := if n in p then p[n] + q else q]
  {
    var p, r := Projected(usage, requests[n := q]), Projected(usage, requests);
    assert forall k :: k in p && k != n ==> p[k] == r[k];
  }

  /** The copy-then-add loop of both quota checks. */
  method Project(usage: ResourceList, requests: ResourceList) returns (projected: ResourceList)
    ensures projected == Projected(usage, requests)
  {
    projected := usage;
    var left := requests.Keys;
    NothingSeen(requests);
    NothingProjected(usage);
    while left != {}
      invariant left <= requests.Keys
      invariant projected == Projected(usage, requests - left)
      decreases |left|
    {
      var name :| name in left;
      OneMoreSeen(requests, left, name);
      ProjectedGrows(usage, requests - left, name, requests[name]);
      left := left - {name};
      if name in projected {
        projected := projected[name := projected[name] + requests[name]];
      } else {
        projected := projected[name := requests[name]];
      }
    }
    AllSeen(requests);
  }

  /** `isQuotaExceeded`, in both places it is written. */
  method IsQuotaExceeded(usage: ResourceList, limits: ResourceList) returns (exceeded: bool)
    ensures exceeded <==> Exceeded(usage, limits)
  {
    var left := limits.Keys;
    while left != {}
      invariant left <= limits.Keys
      invariant forall n :: n in limits.Keys - left ==> n in usage ==> usage[n] <= limits[n]
      decreases |left|
    {
      var name :| name in left;
      left := left - {name};
      if name in usage && usage[name] > limits[name] {
        return true;
      }
    }
    return false;
  }

  /** One list of limits is nowhere below another. */
  ghost predicate AtLeast(high: ResourceList, low: ResourceList) {
    high.Keys == low.Keys && forall n :: n in low ==> high[n] >= low[n]
  }

  /** Higher limits never turn an acceptable usage into an exceeded one. */
  lemma VerdictIsMonotone(usage: ResourceList, low: ResourceList, high: ResourceList)
    requires AtLeast(high, low) && Exceeded(usage, high)
    ensures Exceeded(usage, low)
  {
    var n :| n in high && n in usage && usage[n] > high[n];
    assert usage[n] > low[n];
  }

  // ---------------------------------------------------------------- So many times over

  /** A quantity counted so many times over. */
  function Repeated(times: nat, q: real): (r: real)
    ensures q >= 0.0 ==> r >= 0.0
  {
    if times == 0 then 0.0 else Repeated(times - 1, q) + q
  }

  lemma {:induction false} RepeatedZero(times: nat)
    ensures Repeated(times, 0.0) == 0.0
  {
    if times > 0 {
      RepeatedZero(times - 1);
    }
  }

  lemma {:induction false} RepeatedOnes(times: nat)
    ensures Repeated(times, 1.0) == times as real
  {
    if times > 0 {
      RepeatedOnes(times - 1);
    }
  }

  lemma {:induction false} RepeatedGrows(few: nat, many: nat, q: real)
    requires few <= many && q >= 0.0
    ensures Repeated(few, q) <= Repeated(many, q)
    decreases many
  {
    if few < many {
      RepeatedGrows(few, many - 1, q);
    }
  }

  lemma {:induction false} RepeatedIsProduct(times: nat, q: real)
    ensures Repeated(times, q) == times as real * q
  {
    if times > 0 {
      RepeatedIsProduct(times - 1, q);
      OneMoreTime(times - 1, q);
    }
  }

  lemma OneMoreTime(times: nat, q: real)
    ensures (times + 1) as real * q == times as real * q + q
  {
  }
}
