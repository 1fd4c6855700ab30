/** Matching toll charges to reservations (`get_matched_reservations` and
    the same loop inside `dashboard` in app.py).

    Toll amounts are integer cents rather than Python floats, and the
    reservation and toll lists are the rows the database queries return, in
    the order they return them. */
module TollMatcher {
  import opened Wrappers
  import opened Text
  import opened Clock
  import opened ReservationEmail
  import opened Sequences

  /** A toll row: a charge for one plate at one entry time. */
  datatype Toll = Toll(
    plate: string,
    entryTime: int,
    exitTime: int,
    location: string,
    amountCents: int,
    state: string)

  /** One row of the reconciliation: a reservation, the tolls charged to it
      and their total. */
  datatype MatchedReservation = MatchedReservation(
    reservation: Reservation,
    tolls: seq<Toll>,
    total: int)

  /** The plates agree once lower-cased, and the entry time lies in the
      reservation's window, both ends included. */
  predicate TollMatches(r: Reservation, t: Toll) {
    Lower(t.plate) == Lower(r.plate) && r.startDate <= t.entryTime <= r.endDate
  }

  /** The comprehension's condition for `r`. */
  function Matcher(r: Reservation): Toll -> bool {
    t => TollMatches(r, t)
  }

  /** The list comprehension over the tolls: those that match `r`, in toll
      order. */
  function MatchesFor(r: Reservation, tolls: seq<Toll>): (m: seq<Toll>)
    ensures |m| <= |tolls|
    ensures forall i :: 0 <= i < |m| ==> TollMatches(r, m[i])
  {
    Filter(tolls, Matcher(r))
  }

  /** `sum(t.amount for t in tolls)`. */
  function Total(tolls: seq<Toll>): int {
    if tolls == [] then 0 else tolls[0].amountCents + Total(tolls[1..])
  }

  /** The record the loop appends for `r`. */
  function MatchRecord(r: Reservation, tolls: seq<Toll>): MatchedReservation {
    var m := MatchesFor(r, tolls);
    MatchedReservation(r, m, Total(m))
  }

  /** `get_matched_reservations`: one record per reservation, in reservation
      order, each holding exactly the tolls that match it and their total. */
  method GetMatchedReservations(reservations: seq<Reservation>, tolls: seq<Toll>)
    returns (matched: seq<MatchedReservation>)
    ensures |matched| == |reservations|
    ensures forall i :: 0 <= i < |reservations| ==>
      matched[i].reservation == reservations[i]
      && matched[i].tolls == MatchesFor(reservations[i], tolls)
      && matched[i].total == Total(matched[i].tolls)
  {
    matched := [];
    for i := 0 to |reservations|
      invariant |matched| == i
      invariant forall k :: 0 <= k < i ==> matched[k] == MatchRecord(reservations[k], tolls)
    {
      var reservation := reservations[i];
      var matches := MatchesFor(reservation, tolls);
      matched := matched + [MatchedReservation(reservation, matches, Total(matches))];
    }
  }

  // ---------------------------------------------------------------------
  // What the match list is
  // ---------------------------------------------------------------------

  /** A toll is in a reservation's match list exactly when it is one of the
      tolls and it matches the reservation. */
  lemma MatchesMembership(r: Reservation, tolls: seq<Toll>, t: Toll)
    ensures t in MatchesFor(r, tolls) <==> t in tolls && TollMatches(r, t)
  {
    FilterMembership(tolls, Matcher(r), t);
  }

  /** The match list keeps every matching toll as often as the toll list has
      it, and no other. */
  lemma MatchesMultiplicity(r: Reservation, tolls: seq<Toll>, t: Toll)
    ensures multiset(MatchesFor(r, tolls))[t] == if TollMatches(r, t) then multiset(tolls)[t] else 0
  {
    FilterMultiplicity(tolls, Matcher(r), t);
  }

  /** Filtering two runs of tolls gives the matches of the first run
      followed by those of the second: the match list keeps toll order. */
  lemma MatchesAppend(r: Reservation, a: seq<Toll>, b: seq<Toll>)
    ensures MatchesFor(r, a + b) == MatchesFor(r, a) + MatchesFor(r, b)
  {
    FilterAppend(a, b, Matcher(r));
  }

  /** The window is inclusive: a toll on the reservation's plate entering at
      the first or the last instant of the window matches. */
  lemma WindowIsInclusive(r: Reservation, t: Toll)
    requires Lower(t.plate) == Lower(r.plate)
    requires t.entryTime == r.startDate || t.entryTime == r.endDate
    requires r.startDate <= r.endDate
    ensures t in MatchesFor(r, [t])
  {
    assert TollMatches(r, t);
  }

  /** Plates are compared without regard to ASCII case: changing the case of
      the reservation's plate changes no match list. */
  lemma MatchesIgnorePlateCase(r: Reservation, plate: string, tolls: seq<Toll>)
    requires Lower(plate) == Lower(r.plate)
    ensures MatchesFor(r.(plate := plate), tolls) == MatchesFor(r, tolls)
  {
    FilterAgree(tolls, Matcher(r.(plate := plate)), Matcher(r));
  }

  // ---------------------------------------------------------------------
  // What the total is
  // ---------------------------------------------------------------------

  /** The total of two runs is the sum of their totals. */
  lemma {:induction false} TotalAppend(a: seq<Toll>, b: seq<Toll>)
    ensures Total(a + b) == Total(a) + Total(b)
  {
    if a == [] {
      assert a + b == b;
    } else {
      TotalAppend(a[1..], b);
      assert (a + b)[1..] == a[1..] + b;
    }
  }

  /** Taking one toll out of a run takes its amount off the total. */
  lemma TotalRemoveAt(b: seq<Toll>, k: nat)
    requires k < |b|
    ensures Total(b) == b[k].amountCents + Total(b[..k] + b[k + 1..])
  {
    var before, after := b[..k], b[k + 1..];
    assert b == before + ([b[k]] + after);
    assert ([b[k]] + after)[1..] == after;
    TotalAppend(before, [b[k]] + after);
    TotalAppend(before, after);
  }

  /** Taking the same toll out of two permutations of each other leaves two
      permutations of each other. */
  lemma PermutationWithout(a: seq<Toll>, b: seq<Toll>, k: nat)
    requires multiset(a) == multiset(b)
    requires a != [] && k < |b| && b[k] == a[0]
    ensures multiset(a[1..]) == multiset(b[..k] + b[k + 1..])
  {
    assert b == (b[..k] + [b[k]]) + b[k + 1..];
    assert multiset(b[..k] + b[k + 1..]) == multiset(b) - multiset{b[k]};
    assert a == [a[0]] + a[1..];
  }

  /** Some position of `b` holds `x`. */
  lemma SomeIndexHolds(b: seq<Toll>, x: Toll) returns (k: nat)
    requires x in multiset(b)
    ensures k < |b| && b[k] == x
  {
    k :| 0 <= k < |b| && b[k] == x;
  }

  /** The total does not depend on the order of the tolls. */
  lemma {:induction false} TotalPermutation(a: seq<Toll>, b: seq<Toll>)
    requires multiset(a) == multiset(b)
    ensures Total(a) == Total(b)
    decreases |a|
  {
    if a != [] {
      var k := SomeIndexHolds(b, a[0]);
      PermutationWithout(a, b, k);
      TotalPermutation(a[1..], b[..k] + b[k + 1..]);
      TotalRemoveAt(b, k);
    }
  }

  /** A reservation that no toll matches has total 0. */
  lemma NoMatchMeansZero(r: Reservation, tolls: seq<Toll>)
    requires forall i :: 0 <= i < |tolls| ==> !TollMatches(r, tolls[i])
    ensures MatchRecord(r, tolls).tolls == []
    ensures MatchRecord(r, tolls).total == 0
  {
    FilterNone(tolls, Matcher(r));
  }

  /** Reordering the toll list changes neither which tolls a reservation
      gets (counting repeats) nor its total. */
  lemma TollOrderIrrelevant(r: Reservation, a: seq<Toll>, b: seq<Toll>)
    requires multiset(a) == multiset(b)
    ensures multiset(MatchesFor(r, a)) == multiset(MatchesFor(r, b))
    ensures MatchRecord(r, a).total == MatchRecord(r, b).total
  {
    forall t ensures multiset(MatchesFor(r, a))[t] == multiset(MatchesFor(r, b))[t] {
      MatchesMultiplicity(r, a, t);
      MatchesMultiplicity(r, b, t);
    }
    TotalPermutation(MatchesFor(r, a), MatchesFor(r, b));
  }

  // ---------------------------------------------------------------------
  // dashboard
  // ---------------------------------------------------------------------

  /** The dashboard's optional date filter. An absent or empty query value
      applies no filter; one that does not parse applies none either and is
      reported as invalid. */
  datatype DateFilter = NoFilter | Invalid | Bound(at: int)

  function ReadFilter(arg: Option<string>, parseTime: string -> Option<int>): (f: DateFilter)
    ensures f.Bound? <==> arg.Some? && arg.value != [] && parseTime(arg.value).Some?
    ensures f.Invalid? <==> arg.Some? && arg.value != [] && parseTime(arg.value).None?
    ensures f.Bound? ==> f.at == parseTime(arg.value).value
  {
    if arg.None? || arg.value == [] then NoFilter
    else match parseTime(arg.value)
      case None => Invalid
      case Some(d) => Bound(d)
  }

  /** The reservations the dashboard shows: with a start filter, those
      starting at or after it; with an end filter, those ending before the
      day after it. */
  predicate InWindow(r: Reservation, start: DateFilter, end: DateFilter) {
    (start.Bound? ==> r.startDate >= start.at)
    && (end.Bound? ==> r.endDate < end.at + MicrosPerDay)
  }

  /** The dashboard's filter condition. */
  function Window(start: DateFilter, end: DateFilter): Reservation -> bool {
    r => InWindow(r, start, end)
  }

  function Shown(reservations: seq<Reservation>, start: DateFilter, end: DateFilter): (s: seq<Reservation>)
    ensures |s| <= |reservations|
  {
    Filter(reservations, Window(start, end))
  }

  /** The dashboard shows every reservation row in the window as many times
      as the query returns it, and no other row. */
  lemma ShownMultiplicity(reservations: seq<Reservation>, start: DateFilter, end: DateFilter, r: Reservation)
    ensures multiset(Shown(reservations, start, end))[r] ==
      if InWindow(r, start, end) then multiset(reservations)[r] else 0
  {
    FilterMultiplicity(reservations, Window(start, end), r);
  }

  /** A reservation is shown exactly when it is one of the rows and lies in
      the window. */
  lemma ShownMembership(reservations: seq<Reservation>, start: DateFilter, end: DateFilter, r: Reservation)
    ensures r in Shown(reservations, start, end) <==> r in reservations && InWindow(r, start, end)
  {
    FilterMembership(reservations, Window(start, end), r);
  }

  /** Filtering keeps the order of the reservation rows. */
  lemma ShownAppend(a: seq<Reservation>, b: seq<Reservation>, start: DateFilter, end: DateFilter)
    ensures Shown(a + b, start, end) == Shown(a, start, end) + Shown(b, start, end)
  {
    FilterAppend(a, b, Window(start, end));
  }

  /** `dashboard`: filters the reservations by the optional `start` and `end`
      query values and matches tolls to those it shows, with the same loop as
      `get_matched_reservations`. Reports which filters were invalid. */
  method Dashboard(
    reservations: seq<Reservation>, tolls: seq<Toll>,
    startArg: Option<string>, endArg: Option<string>,
    parseTime: string -> Option<int>)
    returns (shown: seq<Reservation>, matched: seq<MatchedReservation>,
             invalidStart: bool, invalidEnd: bool)
    ensures invalidStart <==> ReadFilter(startArg, parseTime).Invalid?
    ensures invalidEnd <==> ReadFilter(endArg, parseTime).Invalid?
    ensures shown == Shown(reservations, ReadFilter(startArg, parseTime), ReadFilter(endArg, parseTime))
    ensures |matched| == |shown|
    ensures forall i :: 0 <= i < |shown| ==> matched[i] == MatchRecord(shown[i], tolls)
  {
    var start := ReadFilter(startArg, parseTime);
    var end := ReadFilter(endArg, parseTime);
    invalidStart, invalidEnd := start.Invalid?, end.Invalid?;
    shown := Shown(reservations, start, end);
    matched := GetMatchedReservations(shown, tolls);
  }
}
