/**
 * The station panel: turning the predictions endpoint's JSON:API envelope into the list of
 * upcoming arrivals, grouping it by line and direction, and the minutes display.
 */
module StationModal {
  import opened Wrappers
  import opened Text
  import opened JsonApi
  import Lists
  import Grouping

  /**
   * A prediction's `arrival_time`: missing or empty, a date text that does not parse (an
   * invalid `Date`), or an instant in milliseconds since the epoch.
   */
  datatype ArrivalTime = NoArrival | InvalidDate | At(ms: int)

  datatype PredictionAttributes = PredictionAttributes(arrivalTime: ArrivalTime, directionId: int, status: Option<string>)

  /**
   * A prediction of `data.data`: the id of its route relationship, the id of its trip
   * relationship when that relationship has data, and its attributes.
   */
  datatype Prediction = Prediction(routeId: string, tripId: Option<string>, attributes: PredictionAttributes)

  /** The decoded body of the predictions endpoint; `included` may be missing. */
  datatype PredictionsEnvelope = PredictionsEnvelope(data: seq<Prediction>, included: Option<seq<Resource>>)

  /** `minutesAway`: `null` without an arrival time, NaN for an invalid date, else a whole number. */
  datatype MinutesAway = Null | NaN | Whole(n: int)

  /** One arrival as the panel shows it. */
  datatype PredictionDisplay = PredictionDisplay(
    routeName: string,
    routeColor: string,
    headsign: string,
    direction: string,
    arrivalTime: ArrivalTime,
    minutesAway: MinutesAway,
    status: Option<string>)

  // ---------------------------------------------------------------------------------
  // Minutes away

  /**
   * `Math.round(d / 60000)` for a whole number of milliseconds `d`: the nearest whole
   * minute, halves rounded up (towards +infinity), as section 21.3.2.28 of ECMA-262 (2023
   * edition) specifies.
   */
  function RoundedMinutes(d: int): (m: int)
    ensures 60000 * m - 30000 <= d < 60000 * m + 30000
  {
    (d + 30000) / 60000
  }

  function MinutesAwayOf(arrival: ArrivalTime, now: int): MinutesAway
  {
    match arrival
    case NoArrival => Null
    case InvalidDate => NaN
    case At(ms) => Whole(RoundedMinutes(ms - now))
  }

  /** The filter: a whole, non-negative number of minutes (NaN >= 0 is false). */
  predicate Kept(d: PredictionDisplay)
  {
    d.minutesAway.Whole? && d.minutesAway.n >= 0
  }

  /**
   * An arrival is kept exactly when it is at most 30 seconds in the past: an arrival
   * exactly 30 000 ms ago rounds to -0, which passes `>= 0`, and shows as 0.
   */
  lemma KeptIffRecent(ms: int, now: int)
    ensures MinutesAwayOf(At(ms), now).n >= 0 <==> ms - now >= -30000
    ensures ms - now == -30000 ==> MinutesAwayOf(At(ms), now) == Whole(0)
    ensures ms - now == -30001 ==> MinutesAwayOf(At(ms), now) == Whole(-1)
    ensures ms - now == 45000 ==> MinutesAwayOf(At(ms), now) == Whole(1)
  {
  }

  // ---------------------------------------------------------------------------------
  // Route classification

  /**
   * The line label of a prediction's route: the first of "Red", "Orange", "Blue" that the
   * long name contains; for a long name containing "Green", the route id when it contains a
   * "-" and "Green" otherwise; any other long name unchanged. An unknown route, or one
   * with an empty long name, gives "".
   */
  function PredictionLabel(routeId: string, route: Option<RouteAttributes>): string
  {
    var name := if route.Some? then route.value.longName else "";
    if Contains(name, "Red") then "Red"
    else if Contains(name, "Orange") then "Orange"
    else if Contains(name, "Blue") then "Blue"
    else if Contains(name, "Green") then (if Contains(routeId, "-") then routeId else "Green")
    else name
  }

  /**
   * Unlike the vehicle classifier there is no id fallback: an unknown route is labelled "".
   * A label other than the four colours and the generic "Green" is either a route id with a
   * "-" whose long name mentions Green, or a long name mentioning no colour.
   */
  lemma PredictionLabelSpec(routeId: string, route: Option<RouteAttributes>)
    ensures route.None? ==> PredictionLabel(routeId, route) == ""
    ensures var l := PredictionLabel(routeId, route);
            var name := if route.Some? then route.value.longName else "";
            var red, orange, blue := Contains(name, "Red"), Contains(name, "Orange"), Contains(name, "Blue");
            var green := Contains(name, "Green");
            && (|| l in {"Red", "Orange", "Blue", "Green"}
                || (l == routeId && Contains(routeId, "-") && green)
                || (l == name && !red && !orange && !blue && !green))
            && (red ==> l == "Red")
            && (orange && !red ==> l == "Orange")
            && (blue && !red && !orange ==> l == "Blue")
            && (green && !red && !orange && !blue && Contains(routeId, "-") ==> l == routeId)
            && (green && !red && !orange && !blue && !Contains(routeId, "-") ==> l == "Green")
            && (!red && !orange && !blue && !green ==> l == name)
  {
    if route.None? {
      LacksFirstChar("", "Red");
      LacksFirstChar("", "Orange");
      LacksFirstChar("", "Blue");
      LacksFirstChar("", "Green");
    }
  }

  // ---------------------------------------------------------------------------------
  // The record and the pipeline

  /** The record for one prediction. */
  function Display(p: Prediction, routes: map<string, RouteAttributes>, trips: map<string, string>, now: int): PredictionDisplay
  {
    var route := if p.routeId in routes then Some(routes[p.routeId]) else None;
    var trip := match p.tripId case Some(t) => (if t in trips then Some(trips[t]) else None) case None => None;
    PredictionDisplay(
      routeName := PredictionLabel(p.routeId, route),
      routeColor := if route.Some? && route.value.color != "" then "#" + route.value.color else "#666",
      headsign := if trip.Some? && trip.value != "" then trip.value else "Unknown",
      direction := DirectionName(p.attributes.directionId),
      arrivalTime := p.attributes.arrivalTime,
      minutesAway := MinutesAwayOf(p.attributes.arrivalTime, now),
      status := p.attributes.status)
  }

  /** `data.data.map(...)` */
  function Displays(ps: seq<Prediction>, routes: map<string, RouteAttributes>, trips: map<string, string>, now: int)
    : (r: seq<PredictionDisplay>)
    ensures |r| == |ps|
    ensures forall i :: 0 <= i < |ps| ==> r[i] == Display(ps[i], routes, trips, now)
  {
    seq(|ps|, i requires 0 <= i < |ps| => Display(ps[i], routes, trips, now))
  }

  /** The field defaults of a record. */
  lemma DisplaySpec(p: Prediction, routes: map<string, RouteAttributes>, trips: map<string, string>, now: int)
    ensures var d := Display(p, routes, trips, now);
            && (p.routeId !in routes || routes[p.routeId].color == "" ==> d.routeColor == "#666")
            && (p.routeId in routes && routes[p.routeId].color != "" ==> d.routeColor == "#" + routes[p.routeId].color)
            && (p.tripId.None? ==> d.headsign == "Unknown")
            && (p.tripId.Some? && p.tripId.value !in trips ==> d.headsign == "Unknown")
            && (p.tripId.Some? && p.tripId.value in trips && trips[p.tripId.value] == "" ==> d.headsign == "Unknown")
            && (p.tripId.Some? && p.tripId.value in trips && trips[p.tripId.value] != "" ==>
                  d.headsign == trips[p.tripId.value])
            && d.routeName == PredictionLabel(p.routeId, if p.routeId in routes then Some(routes[p.routeId]) else None)
            && (d.direction == "Outbound" <==> p.attributes.directionId == 0)
            && d.arrivalTime == p.attributes.arrivalTime
            && (d.minutesAway.Null? <==> p.attributes.arrivalTime.NoArrival?)
            && (d.minutesAway.NaN? <==> p.attributes.arrivalTime.InvalidDate?)
            && (p.attributes.arrivalTime.At? ==>
                  && d.minutesAway.Whole?
                  && 60000 * d.minutesAway.n - 30000 <= p.attributes.arrivalTime.ms - now
                  && p.attributes.arrivalTime.ms - now < 60000 * d.minutesAway.n + 30000)
            && d.status == p.attributes.status
  {
  }

  /** The sort key of the comparator `(a.minutesAway || 0) - (b.minutesAway || 0)`. */
  function SortKey(d: PredictionDisplay): int
  {
    if d.minutesAway.Whole? then d.minutesAway.n else 0
  }

  predicate Sorted(s: seq<PredictionDisplay>)
  {
    forall i, j :: 0 <= i < j < |s| ==> SortKey(s[i]) <= SortKey(s[j])
  }

  /** The records of `s` with sort key `k`, in order: equal-key records a stable sort must not reorder. */
  function WithMinutes(s: seq<PredictionDisplay>, k: int): seq<PredictionDisplay>
  {
    if s == [] then []
    else (if SortKey(s[0]) == k then [s[0]] else []) + WithMinutes(s[1..], k)
  }

  /** `x` placed before the first record whose key is not smaller. */
  function Insert(x: PredictionDisplay, s: seq<PredictionDisplay>): seq<PredictionDisplay>
  {
    if s == [] then [x]
    else if SortKey(x) <= SortKey(s[0]) then [x] + s
    else [s[0]] + Insert(x, s[1..])
  }

  /** A stable sort by minutes away, as `Array.prototype.sort` must be (section 23.1.3.30 of ECMA-262, 2023 edition). */
  function SortByMinutes(s: seq<PredictionDisplay>): seq<PredictionDisplay>
  {
    if s == [] then [] else Insert(s[0], SortByMinutes(s[1..]))
  }

  lemma {:induction false} InsertMembers(x: PredictionDisplay, s: seq<PredictionDisplay>)
    ensures multiset(Insert(x, s)) == multiset(s) + multiset{x}
    decreases |s|
  {
    if s != [] && SortKey(x) > SortKey(s[0]) {
      InsertMembers(x, s[1..]);
      assert s == [s[0]] + s[1..];
    }
  }

  /** A record no later than every record of a sorted list can go in front of it. */
  lemma ConsSorted(h: PredictionDisplay, t: seq<PredictionDisplay>)
    requires Sorted(t) && forall j :: 0 <= j < |t| ==> SortKey(h) <= SortKey(t[j])
    ensures Sorted([h] + t)
  {
    var r := [h] + t;
    forall i, j | 0 <= i < j < |r| ensures SortKey(r[i]) <= SortKey(r[j]) {
      assert r[j] == t[j - 1];
      if i > 0 {
        assert r[i] == t[i - 1];
      }
    }
  }

  /** A bound below `x` and below every record of `s` stays below every record after inserting. */
  lemma {:induction false} InsertBound(x: PredictionDisplay, s: seq<PredictionDisplay>, b: int)
    requires b <= SortKey(x) && forall j :: 0 <= j < |s| ==> b <= SortKey(s[j])
    ensures forall j :: 0 <= j < |Insert(x, s)| ==> b <= SortKey(Insert(x, s)[j])
    decreases |s|
  {
    if s != [] && SortKey(x) > SortKey(s[0]) {
      InsertBound(x, s[1..], b);
      var t := Insert(x, s[1..]);
      forall j | 0 <= j < |[s[0]] + t| ensures b <= SortKey(([s[0]] + t)[j]) {
        if j > 0 {
          assert ([s[0]] + t)[j] == t[j - 1];
        }
      }
    } else if s != [] {
      forall j | 0 <= j < |[x] + s| ensures b <= SortKey(([x] + s)[j]) {
        if j > 0 {
          assert ([x] + s)[j] == s[j - 1];
        }
      }
    }
  }

  lemma {:induction false} InsertSorted(x: PredictionDisplay, s: seq<PredictionDisplay>)
    requires Sorted(s)
    ensures Sorted(Insert(x, s))
    decreases |s|
  {
    if s == [] {
    } else if SortKey(x) <= SortKey(s[0]) {
      ConsSorted(x, s);
    } else {
      SortedTail(s);
      InsertSorted(x, s[1..]);
      InsertBound(x, s[1..], SortKey(s[0]));
      ConsSorted(s[0], Insert(x, s[1..]));
    }
  }

  lemma {:induction false} InsertRuns(x: PredictionDisplay, s: seq<PredictionDisplay>, k: int)
    ensures WithMinutes(Insert(x, s), k) == (if SortKey(x) == k then [x] else []) + WithMinutes(s, k)
    decreases |s|
  {
    if s == [] {
    } else if SortKey(x) <= SortKey(s[0]) {
      assert ([x] + s)[1..] == s;
    } else {
      InsertRuns(x, s[1..], k);
      var t := Insert(x, s[1..]);
      assert Insert(x, s) == [s[0]] + t;
      assert ([s[0]] + t)[1..] == t;
      var front := if SortKey(s[0]) == k then [s[0]] else [];
      assert WithMinutes([s[0]] + t, k) == front + WithMinutes(t, k);
      assert WithMinutes(s, k) == front + WithMinutes(s[1..], k);
      if SortKey(s[0]) == k {
        assert SortKey(x) != k;
      }
    }
  }

  lemma {:induction false} SortedTail(s: seq<PredictionDisplay>)
    requires Sorted(s) && s != []
    ensures Sorted(s[1..])
  {
  }

  /**
   * The sort orders the records by minutes away, is a permutation of its input, and keeps
   * records with equal minutes in input order.
   */
  lemma {:induction false} SortByMinutesSpec(s: seq<PredictionDisplay>)
    ensures Sorted(SortByMinutes(s))
    ensures multiset(SortByMinutes(s)) == multiset(s)
    ensures forall k :: WithMinutes(SortByMinutes(s), k) == WithMinutes(s, k)
  {
    if s != [] {
      SortByMinutesSpec(s[1..]);
      var t := SortByMinutes(s[1..]);
      InsertSorted(s[0], t);
      InsertMembers(s[0], t);
      forall k ensures WithMinutes(SortByMinutes(s), k) == WithMinutes(s, k) {
        InsertRuns(s[0], t, k);
      }
      assert s == [s[0]] + s[1..];
    }
  }

  lemma {:induction false} WithMinutesMembers(s: seq<PredictionDisplay>, k: int)
    ensures forall x :: x in WithMinutes(s, k) ==> x in s && SortKey(x) == k
  {
    if s != [] {
      WithMinutesMembers(s[1..], k);
    }
  }

  lemma HeadRun(s: seq<PredictionDisplay>)
    requires s != []
    ensures WithMinutes(s, SortKey(s[0])) == [s[0]] + WithMinutes(s[1..], SortKey(s[0]))
  {
  }

  /** A sorted list with a record of key `k` starts with a key no greater than `k`. */
  lemma HeadKeyBelow(a: seq<PredictionDisplay>, k: int)
    requires Sorted(a) && WithMinutes(a, k) != []
    ensures a != [] && SortKey(a[0]) <= k
  {
    WithMinutesMembers(a, k);
    var y := WithMinutes(a, k)[0];
    assert y in WithMinutes(a, k);
    var i :| 0 <= i < |a| && a[i] == y;
    assert SortKey(a[0]) <= SortKey(a[i]);
  }

  /** Two sorted lists with the same equal-key runs start with the same record. */
  lemma SameHead(a: seq<PredictionDisplay>, b: seq<PredictionDisplay>)
    requires Sorted(a) && Sorted(b) && a != []
    requires forall k :: WithMinutes(a, k) == WithMinutes(b, k)
    ensures b != [] && a[0] == b[0]
  {
    var ka := SortKey(a[0]);
    HeadRun(a);
    assert WithMinutes(b, ka) == WithMinutes(a, ka);
    HeadKeyBelow(b, ka);
    var kb := SortKey(b[0]);
    HeadRun(b);
    assert WithMinutes(a, kb) == WithMinutes(b, kb);
    HeadKeyBelow(a, kb);
    assert WithMinutes(a, ka)[0] == a[0] && WithMinutes(b, kb)[0] == b[0];
  }

  /** Lists with the same runs and the same head have tails with the same runs. */
  lemma SameTailRuns(a: seq<PredictionDisplay>, b: seq<PredictionDisplay>)
    requires a != [] && b != [] && a[0] == b[0]
    requires forall k :: WithMinutes(a, k) == WithMinutes(b, k)
    ensures forall k :: WithMinutes(a[1..], k) == WithMinutes(b[1..], k)
  {
    forall k ensures WithMinutes(a[1..], k) == WithMinutes(b[1..], k) {
      var front := if SortKey(a[0]) == k then [a[0]] else [];
      assert WithMinutes(a, k) == front + WithMinutes(a[1..], k);
      assert WithMinutes(b, k) == front + WithMinutes(b[1..], k);
      assert WithMinutes(a[1..], k) == WithMinutes(a, k)[|front|..];
    }
  }

  /**
   * A sorted list is determined by its equal-key runs: any stable sort of the records gives
   * exactly `SortByMinutes`.
   */
  lemma {:induction false} StableSortIsUnique(a: seq<PredictionDisplay>, b: seq<PredictionDisplay>)
    requires Sorted(a) && Sorted(b)
    requires forall k :: WithMinutes(a, k) == WithMinutes(b, k)
    ensures a == b
    decreases |a| + |b|
  {
    if a != [] {
      SameHead(a, b);
      SameTailRuns(a, b);
      SortedTail(a);
      SortedTail(b);
      StableSortIsUnique(a[1..], b[1..]);
      assert a == [a[0]] + a[1..] && b == [b[0]] + b[1..];
    } else if b != [] {
      SameHead(b, a);
    }
  }

  function TripsOf(env: PredictionsEnvelope): map<string, string>
  {
    Table(env.included.GetOr([]), PickTrip)
  }

  function RoutesOf(env: PredictionsEnvelope): map<string, RouteAttributes>
  {
    Table(env.included.GetOr([]), PickRoute)
  }

  /** `data.data.map(...).filter(...).sort(...)` for one decoded response at time `now`. */
  function Process(env: PredictionsEnvelope, now: int): seq<PredictionDisplay>
  {
    SortByMinutes(Lists.Filter(Displays(env.data, RoutesOf(env), TripsOf(env), now), Kept))
  }

  /**
   * Every emitted arrival has a whole, non-negative number of minutes; the list is ordered
   * by minutes with ties in response order, and it holds exactly the kept records.
   */
  lemma ProcessSpec(env: PredictionsEnvelope, now: int)
    ensures var r := Process(env, now);
            var kept := Lists.Filter(Displays(env.data, RoutesOf(env), TripsOf(env), now), Kept);
            && (forall i :: 0 <= i < |r| ==> Kept(r[i]))
            && Sorted(r)
            && multiset(r) == multiset(kept)
            && (forall k :: WithMinutes(r, k) == WithMinutes(kept, k))
  {
    var kept := Lists.Filter(Displays(env.data, RoutesOf(env), TripsOf(env), now), Kept);
    SortByMinutesSpec(kept);
    var r := Process(env, now);
    forall i | 0 <= i < |r| ensures Kept(r[i]) {
      assert r[i] in multiset(kept);
    }
  }

  /** The route and trip tables, filled by one pass over `included` as the source's `forEach` does. */
  method IndexIncluded(included: seq<Resource>)
    returns (routes: map<string, RouteAttributes>, trips: map<string, string>)
    ensures routes == Table(included, PickRoute)
    ensures trips == Table(included, PickTrip)
  {
    routes, trips := map[], map[];
    var i := 0;
    while i < |included|
      invariant 0 <= i <= |included|
      invariant routes == Table(included[..i], PickRoute)
      invariant trips == Table(included[..i], PickTrip)
    {
      var item := included[i];
      if item.RouteResource? {
        routes := routes[item.id := item.attributes];
      } else if item.TripResource? {
        trips := trips[item.id := item.headsign];
      }
      assert included[..i + 1][..i] == included[..i];
      i := i + 1;
    }
    assert included[..|included|] == included;
  }

  // ---------------------------------------------------------------------------------
  // Grouping by line and direction

  /** The key `${routeName}-${direction}`. */
  function GroupKey(d: PredictionDisplay): string
  {
    d.routeName + "-" + d.direction
  }

  /** Reads the direction and the route name back out of a group key. */
  function SplitGroupKey(key: string): (string, string)
  {
    if |key| >= 9 && key[|key| - 9..] == "-Outbound" then (key[..|key| - 9], "Outbound")
    else if |key| >= 8 then (key[..|key| - 8], "Inbound")
    else (key, "Inbound")
  }

  /** The group key determines route name and direction, so distinct pairs get distinct groups. */
  lemma GroupKeyRoundTrip(routeName: string, direction: string)
    requires direction == "Outbound" || direction == "Inbound"
    ensures SplitGroupKey(routeName + "-" + direction) == (routeName, direction)
  {
    var key := routeName + "-" + direction;
    if direction == "Outbound" {
      assert key[|key| - 9..] == "-Outbound";
      assert key[..|key| - 9] == routeName;
    } else {
      assert key[|key| - 8] == '-';
      if |key| >= 9 {
        assert key[|key| - 9..][1] == '-';
      }
      assert key[..|key| - 8] == routeName;
    }
  }

  lemma GroupKeyInjective(a: PredictionDisplay, b: PredictionDisplay)
    requires a.direction in {"Outbound", "Inbound"} && b.direction in {"Outbound", "Inbound"}
    requires GroupKey(a) == GroupKey(b)
    ensures a.routeName == b.routeName && a.direction == b.direction
  {
    GroupKeyRoundTrip(a.routeName, a.direction);
    GroupKeyRoundTrip(b.routeName, b.direction);
  }

  /**
   * The panel's groups: one per (line, direction) pair in first-seen order, each holding the
   * arrivals of that pair in list order, none empty; together the groups hold exactly the
   * list's arrivals.
   */
  lemma GroupsSpec(preds: seq<PredictionDisplay>)
    requires forall i :: 0 <= i < |preds| ==> preds[i].direction in {"Outbound", "Inbound"}
    ensures var gs := Grouping.Grouped(preds, GroupKey);
            && Lists.Distinct(Grouping.Keys(gs))
            && Grouping.Keys(gs) == Grouping.FirstSeen(preds, GroupKey)
            && (forall i :: 0 <= i < |preds| ==> GroupKey(preds[i]) in Grouping.Keys(gs))
            && multiset(Grouping.Flatten(gs)) == multiset(preds)
            && (forall g :: g in gs ==>
                  && g.members != [] && g.members == Grouping.WithKey(preds, GroupKey, g.key)
                  && forall x :: x in g.members ==>
                       x.routeName == g.members[0].routeName && x.direction == g.members[0].direction)
  {
    Grouping.GroupedSpec(preds, GroupKey);
    Grouping.FirstSeenSpec(preds, GroupKey);
    Grouping.GroupedPermutation(preds, GroupKey);
    forall g | g in Grouping.Grouped(preds, GroupKey) {
      SameKeySamePair(preds, g.key);
    }
  }

  /** Arrivals sharing a group key share line label and direction. */
  lemma SameKeySamePair(preds: seq<PredictionDisplay>, k: string)
    requires forall i :: 0 <= i < |preds| ==> preds[i].direction in {"Outbound", "Inbound"}
    ensures forall x, y :: x in Grouping.WithKey(preds, GroupKey, k) && y in Grouping.WithKey(preds, GroupKey, k) ==>
              x.routeName == y.routeName && x.direction == y.direction
  {
    Grouping.WithKeyMembers(preds, GroupKey, k);
    forall x, y | x in Grouping.WithKey(preds, GroupKey, k) && y in Grouping.WithKey(preds, GroupKey, k)
      ensures x.routeName == y.routeName && x.direction == y.direction
    {
      GroupKeyInjective(x, y);
    }
  }

  // ---------------------------------------------------------------------------------
  // Minutes display

  /** The styling tiers of the minutes figure, most urgent first. */
  datatype Tier = Boarding | Imminent | Soon | Near | Later

  function TierOf(minutes: int): Tier
  {
    if minutes == 0 then Boarding
    else if minutes <= 1 then Imminent
    else if minutes <= 5 then Soon
    else if minutes <= 10 then Near
    else Later
  }

  function Urgency(t: Tier): nat
  {
    match t
    case Boarding => 4
    case Imminent => 3
    case Soon => 2
    case Near => 1
    case Later => 0
  }

  /** Later arrivals never look more urgent than earlier ones. */
  lemma TierMonotone(a: int, b: int)
    requires 0 <= a <= b
    ensures Urgency(TierOf(a)) >= Urgency(TierOf(b))
  {
  }

  /**
   * For a kept arrival the tiers are the bands 0, 1, 2..5, 6..10 and 11 on; only 0 is
   * shown as boarding.
   */
  lemma TierBands(minutes: int)
    requires minutes >= 0
    ensures TierOf(minutes) == Boarding <==> minutes == 0
    ensures TierOf(minutes) == Imminent <==> minutes == 1
    ensures TierOf(minutes) == Soon <==> 2 <= minutes <= 5
    ensures TierOf(minutes) == Near <==> 6 <= minutes <= 10
    ensures TierOf(minutes) == Later <==> minutes > 10
  {
  }

  /** The big figure: "BRD" at 0 minutes, the number otherwise. */
  function MinutesFigure(minutes: nat): (r: string)
    ensures r == "BRD" <==> minutes == 0
    ensures minutes > 0 ==> r == NatToString(minutes) && DigitsValue(r) == minutes
  {
    if minutes == 0 then "BRD" else NatToStringRoundTrip(minutes); NatToString(minutes)
  }

  // ---------------------------------------------------------------------------------
  // Component state

  /** The panel's state for one station: its arrivals, whether the first load is pending, and the error text. */
  class StationPanel {
    const stationId: string
    var predictions: seq<PredictionDisplay>
    var loading: bool
    var error: Option<string>

    /** Every stored arrival is upcoming, and they are ordered by minutes away. */
    ghost predicate Valid()
      reads this
    {
      (forall i :: 0 <= i < |predictions| ==> Kept(predictions[i])) && Sorted(predictions)
    }

    constructor (stationId: string)
      ensures Valid()
      ensures this.stationId == stationId && predictions == [] && loading && error == None
    {
      this.stationId := stationId;
      predictions, loading, error := [], true, None;
    }

    /**
     * One poll for this station, given its outcome and the current time. A failed request,
     * a response that is not ok, or a body that does not decode leaves the arrivals as they
     * were and sets the error; either way loading ends.
     */
    method FetchPredictions(reply: Reply<PredictionsEnvelope>, now: int)
      requires Valid()
      modifies this
      ensures Valid()
      ensures !loading
      ensures reply.Response? && reply.ok && reply.json.Some? ==>
                predictions == Process(reply.json.value, now) && error == None
      ensures !(reply.Response? && reply.ok && reply.json.Some?) ==>
                predictions == old(predictions) && error == Some("Failed to load arrival predictions")
    {
      if reply.NetworkError? || !reply.ok || reply.json.None? {
        error := Some("Failed to load arrival predictions");
        loading := false;
        return;
      }
      var env := reply.json.value;
      var routes, trips := IndexIncluded(env.included.GetOr([]));
      var displays := Displays(env.data, routes, trips, now);
      predictions := SortByMinutes(Lists.Filter(displays, Kept));
      ProcessSpec(env, now);
      loading := false;
      error := None;
    }

    /** `groupedPredictions`: the arrivals bucketed by line and direction. */
    method GroupedPredictions() returns (groups: seq<Grouping.Group<PredictionDisplay>>)
      ensures groups == Grouping.Grouped(predictions, GroupKey)
    {
      groups := Grouping.GroupBy(predictions, GroupKey);
    }
  }
}
