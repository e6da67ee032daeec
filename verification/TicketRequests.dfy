/**
  The `korder.dev/ticket-request` language: which requests are well formed, which tickets they
  find, and where the checker and the finder of a selector agree.
 */
module TicketRequests {
  import opened Common
  import opened Lists
  import opened Text
  import opened TicketModel

  datatype Request =
    | ByName(name: string)
    | BySelector(selector: string)
    | ByGroup(group: string)
    | Direct(name: string)   // no known prefix: a ticket name
    | Empty                  // a prefix with nothing behind it

  const GROUP_ANNOTATION := "korder.dev/ticket-group"

  function CutPrefix(s: string, prefix: string): Option<string> {
    if prefix <= s then Some(s[|prefix|..]) else None
  }

  function ParseRequest(text: string): Request {
    if CutPrefix(text, "name:").Some? then
      var v := TrimSpace(CutPrefix(text, "name:").value);
      if v == "" then Empty else ByName(v)
    else if CutPrefix(text, "selector:").Some? then
      var v := TrimSpace(CutPrefix(text, "selector:").value);
      if v == "" then Empty else BySelector(v)
    else if CutPrefix(text, "group:").Some? then
      var v := TrimSpace(CutPrefix(text, "group:").value);
      if v == "" then Empty else ByGroup(v)
    else Direct(text)
  }

  // ---------------------------------------------------------------- Selectors

  /** One comma-separated piece as the finder reads it: a pair, or nothing if it has not exactly one '='. */
  function PairOf(piece: string): Option<(string, string)> {
    var kv := Split(TrimSpace(piece), '=');
    if |kv| == 2 then Some((TrimSpace(kv[0]), TrimSpace(kv[1]))) else None
  }

  /** The label map the finder builds; pieces that are no pair are dropped, later keys win. */
  function LabelsOf(pieces: seq<string>): map<string, string> {
    if pieces == [] then map[]
    else
      var labels := LabelsOf(pieces[..|pieces| - 1]);
      match PairOf(pieces[|pieces| - 1])
      case None => labels
      case Some((k, v)) => labels[k := v]
  }

  /** What the checker asks of one piece. */
  predicate GoodPiece(piece: string) {
    var kv := Split(TrimSpace(piece), '=');
    |kv| == 2 && TrimSpace(kv[0]) != "" && TrimSpace(kv[1]) != ""
  }

  /** `validateSelectorFormat`, true for no error. */
  predicate WellFormed(selector: string) {
    var pieces := Split(selector, ',');
    forall i :: 0 <= i < |pieces| ==> GoodPiece(pieces[i])
  }

  /** What a selector means: a non-empty list of pairs, later keys winning. */
  function MapOf(pairs: seq<(string, string)>): map<string, string> {
    if pairs == [] then map[]
    else MapOf(pairs[..|pairs| - 1])[pairs[|pairs| - 1].0 := pairs[|pairs| - 1].1]
  }

  /** A side of a pair that can be written down: not empty, no separator, no space around it. */
  predicate Word(s: string) {
    s != "" && Trimmed(s) && Free(s, ',') && Free(s, '=')
  }

  predicate Words(pairs: seq<(string, string)>) {
    forall i :: 0 <= i < |pairs| ==> Word(pairs[i].0) && Word(pairs[i].1)
  }

  function PairText(pair: (string, string)): string {
    pair.0 + "=" + pair.1
  }

  function PairTexts(pairs: seq<(string, string)>): seq<string> {
    seq(|pairs|, i requires 0 <= i < |pairs| => PairText(pairs[i]))
  }

  function SelectorText(pairs: seq<(string, string)>): string
    requires pairs != []
  {
    Join(PairTexts(pairs), ',')
  }

  lemma PairRoundTrip(pair: (string, string))
    requires Word(pair.0) && Word(pair.1)
    ensures PairOf(PairText(pair)) == Some(pair)
    ensures Free(PairText(pair), ',')
    ensures GoodPiece(PairText(pair))
  {
    var text := PairText(pair);
    assert !IsSpace(pair.0[0]) && !IsSpace(pair.1[|pair.1| - 1]);
    assert text[0] == pair.0[0] && text[|text| - 1] == pair.1[|pair.1| - 1];
    assert TrimSpace(text) == text;
    var kv := [pair.0, pair.1];
    assert Join(kv, '=') == pair.0 + ['='] + Join(kv[1..], '=');
    assert Join(kv, '=') == text;
    JoinThenSplit(kv, '=');
  }

  lemma {:induction false} LabelsOfTexts(pieces: seq<string>, pairs: seq<(string, string)>)
    requires |pieces| == |pairs|
    requires forall i :: 0 <= i < |pieces| ==> PairOf(pieces[i]) == Some(pairs[i])
    ensures LabelsOf(pieces) == MapOf(pairs)
  {
    if pieces != [] {
      LabelsOfTexts(pieces[..|pieces| - 1], pairs[..|pairs| - 1]);
    }
  }

  /** Round trip: any list of pairs, written out, is accepted and read back as the map it denotes. */
  lemma SelectorRoundTrip(pairs: seq<(string, string)>)
    requires pairs != [] && Words(pairs)
    ensures WellFormed(SelectorText(pairs))
    ensures LabelsOf(Split(SelectorText(pairs), ',')) == MapOf(pairs)
  {
    var pieces := PairTexts(pairs);
    forall i | 0 <= i < |pieces|
      ensures Free(pieces[i], ',') && PairOf(pieces[i]) == Some(pairs[i]) && GoodPiece(pieces[i])
    {
      PairRoundTrip(pairs[i]);
    }
    JoinThenSplit(pieces, ',');
    LabelsOfTexts(pieces, pairs);
  }

  /** The pairs of a well-formed selector, one for each piece. */
  function PairsOf(pieces: seq<string>): (pairs: seq<(string, string)>)
    requires forall i :: 0 <= i < |pieces| ==> PairOf(pieces[i]).Some?
    ensures |pairs| == |pieces|
    ensures forall i :: 0 <= i < |pieces| ==> PairOf(pieces[i]) == Some(pairs[i])
  {
    seq(|pieces|, i requires 0 <= i < |pieces| => PairOf(pieces[i]).value)
  }

  /** A piece that splits in two is its two sides around the '='. */
  lemma TwoSides(text: string, a: string, b: string)
    requires Split(text, '=') == [a, b]
    ensures text == a + ['='] + b && Free(a, '=') && Free(b, '=')
  {
    SplitThenJoin(text, '=');
    assert [a, b][1..] == [b];
    assert Join([a, b], '=') == a + ['='] + Join([b], '=');
    assert [a, b][0] == a && [a, b][1] == b;
  }

  lemma FreeParts(a: string, b: string, sep: char, c: char)
    requires Free(a + [sep] + b, c)
    ensures Free(a, c) && Free(b, c)
  {
    var s := a + [sep] + b;
    forall i | 0 <= i < |a| ensures a[i] != c {
      assert s[i] == a[i];
    }
    forall i | 0 <= i < |b| ensures b[i] != c {
      assert s[|a| + 1 + i] == b[i];
    }
  }

  lemma TrimmedSide(side: string)
    requires Free(side, ',') && Free(side, '=') && TrimSpace(side) != ""
    ensures Word(TrimSpace(side))
  {
    TrimKeepsFree(side, ',');
    TrimKeepsFree(side, '=');
    TrimIsTrimmed(side);
  }

  /** A pair with nothing on one side of its '='. */
  predicate EmptySide(piece: string) {
    PairOf(piece).Some? && (PairOf(piece).value.0 == "" || PairOf(piece).value.1 == "")
  }

  lemma GoodPieceIsPair(piece: string)
    ensures GoodPiece(piece) <==> PairOf(piece).Some? && !EmptySide(piece)
  {
  }

  lemma WellFormedPiece(piece: string)
    requires Free(piece, ',') && GoodPiece(piece)
    ensures Word(PairOf(piece).value.0) && Word(PairOf(piece).value.1)
  {
    var text := TrimSpace(piece);
    var kv := Split(text, '=');
    TrimKeepsFree(piece, ',');
    assert kv == [kv[0], kv[1]];
    TwoSides(text, kv[0], kv[1]);
    FreeParts(kv[0], kv[1], '=', ',');
    TrimmedSide(kv[0]);
    TrimmedSide(kv[1]);
  }

  lemma {:induction false} SomeLabels(pieces: seq<string>)
    ensures |LabelsOf(pieces)| == 0 <==> forall i :: 0 <= i < |pieces| ==> PairOf(pieces[i]).None?
  {
    if pieces != [] {
      var n := |pieces| - 1;
      SomeLabels(pieces[..n]);
      assert forall i :: 0 <= i < n ==> pieces[..n][i] == pieces[i];
      if PairOf(pieces[n]).Some? {
        assert PairOf(pieces[n]).value.0 in LabelsOf(pieces);
      } else {
        assert LabelsOf(pieces) == LabelsOf(pieces[..n]);
        assert forall i :: 0 <= i < n ==> (PairOf(pieces[..n][i]).None? <==> PairOf(pieces[i]).None?);
      }
    }
  }

  /**
    Checker and finder agree on what the checker accepts: no piece is dropped, the label map is the
    meaning of a non-empty list of pairs with one pair for each piece, so the finder never calls the
    selector invalid.
   */
  lemma AcceptedSelectorIsItsPairs(selector: string)
    requires WellFormed(selector)
    ensures
      var pieces := Split(selector, ',');
      && (forall i :: 0 <= i < |pieces| ==> PairOf(pieces[i]).Some?)
      && Words(PairsOf(pieces))
      && LabelsOf(pieces) == MapOf(PairsOf(pieces))
      && |LabelsOf(pieces)| > 0
  {
    var pieces := Split(selector, ',');
    SplitThenJoin(selector, ',');
    AcceptedPieces(pieces);
  }

  lemma AcceptedPieces(pieces: seq<string>)
    requires pieces != [] && forall i :: 0 <= i < |pieces| ==> Free(pieces[i], ',') && GoodPiece(pieces[i])
    ensures forall i :: 0 <= i < |pieces| ==> PairOf(pieces[i]).Some?
    ensures Words(PairsOf(pieces)) && LabelsOf(pieces) == MapOf(PairsOf(pieces)) && |LabelsOf(pieces)| > 0
  {
    forall i | 0 <= i < |pieces| ensures PairOf(pieces[i]).Some? {
      GoodPieceIsPair(pieces[i]);
    }
    PairsAreWords(pieces);
    LabelsOfTexts(pieces, PairsOf(pieces));
    SomeLabels(pieces);
    assert PairOf(pieces[0]).Some?;
  }

  lemma PairsAreWords(pieces: seq<string>)
    requires forall i :: 0 <= i < |pieces| ==> PairOf(pieces[i]).Some?
    requires forall i :: 0 <= i < |pieces| ==> Free(pieces[i], ',') && GoodPiece(pieces[i])
    ensures Words(PairsOf(pieces))
  {
    var pairs := PairsOf(pieces);
    forall i | 0 <= i < |pairs| ensures Word(pairs[i].0) && Word(pairs[i].1) {
      assert PairOf(pieces[i]) == Some(pairs[i]);
      WellFormedPiece(pieces[i]);
    }
  }

  /** A piece is read as a pair exactly if it holds one '='. */
  predicate OneEquals(piece: string) {
    Occurrences(piece, '=') == 1
  }

  lemma PairIffOneEquals(piece: string)
    ensures PairOf(piece).Some? <==> OneEquals(piece)
  {
    TrimCounts(piece, '=');
    SplitCounts(TrimSpace(piece), '=');
  }

  function Kept(pieces: seq<string>): seq<string> {
    Filter(pieces, (p: string) => OneEquals(p))
  }

  lemma {:induction false} LabelsOfKept(pieces: seq<string>)
    ensures forall p :: p in Kept(pieces) ==> PairOf(p).Some?
    ensures LabelsOf(Kept(pieces)) == LabelsOf(pieces)
  {
    if pieces != [] {
      var n := |pieces| - 1;
      LabelsOfKept(pieces[..n]);
      PairIffOneEquals(pieces[n]);
      var front := Kept(pieces[..n]);
      assert (front + [pieces[n]])[..|front|] == front;
    }
  }

  /** One '=' with something on both sides of it. */
  predicate FullPair(piece: string) {
    OneEquals(piece) && !EmptySide(piece)
  }

  predicate FullPairs(pieces: seq<string>) {
    forall i :: 0 <= i < |pieces| ==> FullPair(pieces[i])
  }

  lemma GoodPieceExactly(piece: string)
    ensures GoodPiece(piece) <==> FullPair(piece)
  {
    GoodPieceIsPair(piece);
    PairIffOneEquals(piece);
  }

  /**
    Every selector, accepted or not: the finder keeps exactly the pieces with one '=' and reads them as
    pairs, an empty side included, and it reports an error exactly when it keeps none.
   */
  lemma FinderReadsPairs(selector: string)
    ensures
      var pieces := Split(selector, ',');
      && (forall i :: 0 <= i < |Kept(pieces)| ==> PairOf(Kept(pieces)[i]).Some?)
      && LabelsOf(pieces) == MapOf(PairsOf(Kept(pieces)))
      && (|LabelsOf(pieces)| == 0 <==> forall i :: 0 <= i < |pieces| ==> !OneEquals(pieces[i]))
  {
    var pieces := Split(selector, ',');
    LabelsOfKept(pieces);
    LabelsOfTexts(Kept(pieces), PairsOf(Kept(pieces)));
    SomeLabels(pieces);
    forall i | 0 <= i < |pieces| ensures PairOf(pieces[i]).Some? <==> OneEquals(pieces[i]) {
      PairIffOneEquals(pieces[i]);
    }
  }

  /** The checker accepts exactly when the finder would drop no piece and read no pair with an empty side. */
  lemma CheckerAcceptsIff(selector: string)
    ensures WellFormed(selector) <==> FullPairs(Split(selector, ','))
  {
    var pieces := Split(selector, ',');
    forall i | 0 <= i < |pieces| ensures GoodPiece(pieces[i]) <==> FullPair(pieces[i]) {
      GoodPieceExactly(pieces[i]);
    }
  }

  /** For one, "app=" is searched for as an empty label value, and then refused by the checker. */
  lemma EmptyValueIsSearched(key: string)
    requires Word(key)
    ensures LabelsOf(Split(key + "=", ',')) == map[key := ""]
    ensures !WellFormed(key + "=")
  {
    var text := key + "=";
    assert Free(text, ',');
    SplitOfFree(text, ',');
    assert key[0] == text[0] && !IsSpace(key[0]) && !IsSpace('=');
    assert text[|text| - 1] == '=';
    assert TrimSpace(text) == text;
    assert Free(key, '=') && key + ['='] + [] == text;
    SplitOfPrefix(key, [], '=');
    assert Split(text, '=') == [key, ""];
    assert TrimSpace(key) == key && TrimSpace("") == "";
    assert PairOf(text) == Some((key, ""));
    assert [text][..0] == [] && LabelsOf([text][..0]) == map[];
    assert LabelsOf([text]) == map[key := ""];
  }

  /**
    And "app=web,junk" finds what "app=web" finds, and is then refused by the checker.
   */
  lemma FinderDropsWhatCheckerRefuses(pairs: seq<(string, string)>, junk: string)
    requires pairs != [] && Words(pairs)
    requires Free(junk, ',') && PairOf(junk).None?
    ensures
      var selector := Join(PairTexts(pairs) + [junk], ',');
      && LabelsOf(Split(selector, ',')) == MapOf(pairs)
      && |MapOf(pairs)| > 0
      && !WellFormed(selector)
  {
    var pieces := PairTexts(pairs);
    forall i | 0 <= i < |pieces| ensures Free(pieces[i], ',') && PairOf(pieces[i]) == Some(pairs[i]) {
      PairRoundTrip(pairs[i]);
    }
    JoinThenSplit(pieces + [junk], ',');
    LabelsOfTexts(pieces, pairs);
    assert (pieces + [junk])[..|pieces|] == pieces;
    assert (pieces + [junk])[|pieces|] == junk;
    assert pairs[|pairs| - 1].0 in MapOf(pairs);
  }

  // ---------------------------------------------------------------- Finding tickets

  datatype Lookup = Listed(tickets: seq<Ticket>) | LookupError

  predicate HasLabels(t: Ticket, labels: map<string, string>) {
    forall k :: k in labels ==> k in t.meta.labels && t.meta.labels[k] == labels[k]
  }

  predicate InGroup(t: Ticket, group: string) {
    GROUP_ANNOTATION in t.meta.annotations && t.meta.annotations[GROUP_ANNOTATION] == group
  }

  /** `List` with a namespace and label selector. */
  function WithLabels(tickets: seq<Ticket>, ns: string, labels: map<string, string>): seq<Ticket> {
    Filter(tickets, (t: Ticket) => t.key.ns == ns && HasLabels(t, labels))
  }

  function WithGroup(tickets: seq<Ticket>, ns: string, group: string): seq<Ticket> {
    Filter(tickets, (t: Ticket) => t.key.ns == ns && InGroup(t, group))
  }

  /** `Get` by name. */
  function Stored(tickets: seq<Ticket>, key: Key): Option<Ticket> {
    if tickets == [] then None
    else if tickets[0].key == key then Some(tickets[0])
    else Stored(tickets[1..], key)
  }

  /** `getSpecificTicket`: the ticket must exist and be claimable. */
  function Specific(tickets: seq<Ticket>, key: Key): Lookup {
    var t := Stored(tickets, key);
    if t.Some? && Claimable(t.value) then Listed([t.value]) else LookupError
  }

  /** `FindTicketsByRequest` over the tickets of the cluster. */
  function Find(tickets: seq<Ticket>, ns: string, request: Request): Lookup {
    match request
    case ByName(name) => Specific(tickets, Key(ns, name))
    case BySelector(selector) =>
      var labels := LabelsOf(Split(selector, ','));
      if |labels| == 0 then LookupError else Listed(WithLabels(tickets, ns, labels))
    case ByGroup(group) => Listed(WithGroup(tickets, ns, group))
    case Direct(name) => Specific(tickets, Key(ns, name))
    case Empty => LookupError
  }

  /** `ValidateTicketRequest`. */
  predicate ValidRequest(request: Request) {
    match request
    case ByName(_) => true
    case BySelector(selector) => WellFormed(selector)
    case ByGroup(_) => true
    case Direct(_) => true
    case Empty => false
  }

  // ---------------------------------------------------------------- What a request text asks for

  /** What follows a prefix, without the white space around it. */
  function Operand(text: string, prefix: string): string
    requires prefix <= text
  {
    TrimSpace(text[|prefix|..])
  }

  /** The ticket is one that this text asks for, in this namespace. */
  predicate Asks(text: string, ns: string, t: Ticket) {
    if "name:" <= text then t.key == Key(ns, Operand(text, "name:")) && Claimable(t)
    else if "selector:" <= text then t.key.ns == ns && HasLabels(t, LabelsOf(Split(Operand(text, "selector:"), ',')))
    else if "group:" <= text then t.key.ns == ns && InGroup(t, Operand(text, "group:"))
    else t.key == Key(ns, text) && Claimable(t)
  }

  /** Nothing behind the prefix, no pair in the selector, or no claimable ticket of the name. */
  ghost predicate Unanswerable(text: string, ns: string, tickets: seq<Ticket>) {
    if "name:" <= text then
      Operand(text, "name:") == "" || forall t :: t in tickets ==> !Asks(text, ns, t)
    else if "selector:" <= text then
      var pieces := Split(Operand(text, "selector:"), ',');
      forall i :: 0 <= i < |pieces| ==> !OneEquals(pieces[i])
    else if "group:" <= text then Operand(text, "group:") == ""
    else forall t :: t in tickets ==> !Asks(text, ns, t)
  }

  lemma {:induction false} StoredIsListed(tickets: seq<Ticket>, key: Key)
    ensures Stored(tickets, key).Some?
            ==> Stored(tickets, key).value in tickets && Stored(tickets, key).value.key == key
    ensures Stored(tickets, key).None? ==> forall t :: t in tickets ==> t.key != key
  {
    if tickets != [] {
      StoredIsListed(tickets[1..], key);
      assert forall t :: t in tickets <==> t == tickets[0] || t in tickets[1..];
    }
  }

  lemma {:induction false} FilterSingle(tickets: seq<Ticket>, keep: Ticket -> bool, t: Ticket)
    requires DistinctKeys(tickets) && t in tickets
    requires forall u :: u in tickets ==> (keep(u) <==> u == t)
    ensures Filter(tickets, keep) == [t]
  {
    var n := |tickets| - 1;
    var front, last := tickets[..n], tickets[n];
    assert forall u :: u in tickets <==> u in front || u == last;
    if last == t {
      forall u | u in front ensures u != t {
        var i :| 0 <= i < n && front[i] == u;
        assert tickets[i].key != tickets[n].key;
      }
      FilterNothing(front, keep);
    } else {
      FilterSingle(front, keep, t);
    }
  }

  /** A lookup by name finds the claimable ticket of that name, if it is there. */
  lemma SpecificIsFilter(tickets: seq<Ticket>, key: Key, keep: Ticket -> bool)
    requires DistinctKeys(tickets)
    requires forall t :: keep(t) <==> t.key == key && Claimable(t)
    ensures Specific(tickets, key).LookupError? <==> forall t :: t in tickets ==> !keep(t)
    ensures Specific(tickets, key).Listed? ==> Specific(tickets, key).tickets == Filter(tickets, keep)
  {
    StoredIsListed(tickets, key);
    var t := Stored(tickets, key);
    if t.Some? {
      forall u | u in tickets && u.key == key ensures u == t.value {
        SameKeySameTicket(tickets, u, t.value);
      }
      if Claimable(t.value) {
        FilterSingle(tickets, keep, t.value);
      }
    }
  }

  /** Each form of request finds exactly the tickets it asks for, in list order, or reports an error. */
  lemma FoundIsAskedFor(tickets: seq<Ticket>, ns: string, text: string)
    requires DistinctKeys(tickets)
    ensures Find(tickets, ns, ParseRequest(text)).LookupError? <==> Unanswerable(text, ns, tickets)
    ensures Find(tickets, ns, ParseRequest(text)).Listed? ==>
            Find(tickets, ns, ParseRequest(text)).tickets == Filter(tickets, (t: Ticket) => Asks(text, ns, t))
  {
    var keep := (t: Ticket) => Asks(text, ns, t);
    if "name:" <= text {
      SpecificIsFilter(tickets, Key(ns, Operand(text, "name:")), keep);
    } else if "selector:" <= text {
      var selector := Operand(text, "selector:");
      var labels := LabelsOf(Split(selector, ','));
      FinderReadsPairs(selector);
      FilterAgrees(tickets, (t: Ticket) => t.key.ns == ns && HasLabels(t, labels), keep);
    } else if "group:" <= text {
      var group := Operand(text, "group:");
      FilterAgrees(tickets, (t: Ticket) => t.key.ns == ns && InGroup(t, group), keep);
    } else {
      SpecificIsFilter(tickets, Key(ns, text), keep);
    }
  }

  /** The ticket bears every pair of the list, the last one where a key is repeated. */
  predicate Carries(t: Ticket, pairs: seq<(string, string)>) {
    forall i :: 0 <= i < |pairs| && (forall j :: i < j < |pairs| ==> pairs[j].0 != pairs[i].0) ==>
      pairs[i].0 in t.meta.labels && t.meta.labels[pairs[i].0] == pairs[i].1
  }

  lemma {:induction false} MapOfLast(pairs: seq<(string, string)>, key: string)
    ensures key in MapOf(pairs) <==> exists i :: 0 <= i < |pairs| && pairs[i].0 == key
    ensures key in MapOf(pairs) ==>
              exists i :: 0 <= i < |pairs| && pairs[i] == (key, MapOf(pairs)[key])
                          && forall j :: i < j < |pairs| ==> pairs[j].0 != key
  {
    if pairs != [] {
      var n := |pairs| - 1;
      MapOfLast(pairs[..n], key);
      if pairs[n].0 == key {
        assert pairs[n] == (key, MapOf(pairs)[key]);
      } else if key in MapOf(pairs) {
        var i :| 0 <= i < n && pairs[..n][i] == (key, MapOf(pairs[..n])[key])
                 && forall j :: i < j < n ==> pairs[..n][j].0 != key;
        assert pairs[i] == (key, MapOf(pairs)[key]);
        assert forall j :: i < j < n ==> pairs[j] == pairs[..n][j];
      }
      if exists i :: 0 <= i < |pairs| && pairs[i].0 == key && i < n {
        var i :| 0 <= i < |pairs| && pairs[i].0 == key && i < n;
        assert pairs[..n][i].0 == key;
      }
    }
  }

  lemma {:induction false} LastWins(pairs: seq<(string, string)>, i: nat)
    requires i < |pairs| && forall j :: i < j < |pairs| ==> pairs[j].0 != pairs[i].0
    ensures pairs[i].0 in MapOf(pairs) && MapOf(pairs)[pairs[i].0] == pairs[i].1
  {
    var n := |pairs| - 1;
    if i < n {
      assert pairs[n].0 != pairs[i].0;
      assert pairs[..n][i] == pairs[i];
      assert forall j :: i < j < n ==> pairs[..n][j] == pairs[j];
      LastWins(pairs[..n], i);
    }
  }

  /** A written selector finds exactly the tickets of the namespace that bear its pairs. */
  lemma WrittenSelectorFindsCarriers(tickets: seq<Ticket>, ns: string, pairs: seq<(string, string)>, t: Ticket)
    requires pairs != [] && Words(pairs)
    ensures Find(tickets, ns, BySelector(SelectorText(pairs))).Listed?
    ensures t in Find(tickets, ns, BySelector(SelectorText(pairs))).tickets
        <==> t in tickets && t.key.ns == ns && Carries(t, pairs)
  {
    SelectorRoundTrip(pairs);
    var labels := MapOf(pairs);
    assert pairs[|pairs| - 1].0 in labels;
    FilterKeeps(tickets, (u: Ticket) => u.key.ns == ns && HasLabels(u, labels), t);
    CarriesIsHasLabels(t, pairs);
  }

  lemma CarriesIsHasLabels(t: Ticket, pairs: seq<(string, string)>)
    ensures HasLabels(t, MapOf(pairs)) <==> Carries(t, pairs)
  {
    var labels := MapOf(pairs);
    if HasLabels(t, labels) {
      forall i | 0 <= i < |pairs| && (forall j :: i < j < |pairs| ==> pairs[j].0 != pairs[i].0)
        ensures pairs[i].0 in t.meta.labels && t.meta.labels[pairs[i].0] == pairs[i].1
      {
        LastWins(pairs, i);
      }
    }
    if Carries(t, pairs) {
      forall key | key in labels ensures key in t.meta.labels && t.meta.labels[key] == labels[key] {
        MapOfLast(pairs, key);
        var i :| 0 <= i < |pairs| && pairs[i] == (key, labels[key])
                 && forall j :: i < j < |pairs| ==> pairs[j].0 != key;
        assert pairs[i].0 == key;
      }
    }
  }

  /** A group request finds exactly the tickets of the namespace annotated with the group. */
  lemma GroupFindsAnnotated(tickets: seq<Ticket>, ns: string, group: string, t: Ticket)
    ensures Find(tickets, ns, ByGroup(group)).Listed?
    ensures t in Find(tickets, ns, ByGroup(group)).tickets
        <==> && t in tickets && t.key.ns == ns
             && "korder.dev/ticket-group" in t.meta.annotations
             && t.meta.annotations["korder.dev/ticket-group"] == group
  {
    FilterKeeps(tickets, (u: Ticket) => u.key.ns == ns && InGroup(u, group), t);
  }

  /** `getSpecificTicket`. */
  method GetSpecificTicket(tickets: seq<Ticket>, ns: string, name: string) returns (r: Lookup)
    ensures r == Specific(tickets, Key(ns, name))
  {
    var ticket := Stored(tickets, Key(ns, name));
    if ticket.None? {
      return LookupError;
    }
    if ticket.value.status.phase == Ready && ticket.value.status.nodeName.Some? {
      return Listed([ticket.value]);
    }
    return LookupError;
  }

  /** `findTicketsBySelector`: the pairs are collected into a map one by one. */
  method FindTicketsBySelector(tickets: seq<Ticket>, ns: string, selector: string) returns (r: Lookup)
    ensures r == Find(tickets, ns, BySelector(selector))
  {
    var labels: map<string, string> := map[];
    var pieces := Split(selector, ',');
    for i := 0 to |pieces|
      invariant labels == LabelsOf(pieces[..i])
    {
      var kv := Split(TrimSpace(pieces[i]), '=');
      if |kv| == 2 {
        labels := labels[TrimSpace(kv[0]) := TrimSpace(kv[1])];
      }
      assert pieces[..i + 1][..i] == pieces[..i];
    }
    assert pieces[..|pieces|] == pieces;
    if |labels| == 0 {
      return LookupError;
    }
    r := Listed(WithLabels(tickets, ns, labels));
  }

  /** `findTicketsByGroup`: the whole namespace is listed and filtered by annotation. */
  method FindTicketsByGroup(tickets: seq<Ticket>, ns: string, group: string) returns (r: seq<Ticket>)
    ensures r == WithGroup(tickets, ns, group)
  {
    r := [];
    for i := 0 to |tickets|
      invariant r == WithGroup(tickets[..i], ns, group)
    {
      var t := tickets[i];
      if t.key.ns == ns {
        if GROUP_ANNOTATION in t.meta.annotations && t.meta.annotations[GROUP_ANNOTATION] == group {
          r := r + [t];
        }
      }
      assert tickets[..i + 1][..i] == tickets[..i];
    }
    assert tickets[..|tickets|] == tickets;
  }
}
