/**
 * The live vehicle map: turning the vehicles endpoint's JSON:API envelope into the list
 * of train markers, and the text formatting of the marker tooltip.
 */
module TransitMap {
  import opened Wrappers
  import opened Text
  import opened JsonApi
  import opened Coords
  import Lists

  /** A direction flag: 0 outbound, 1 inbound. */
  type DirectionId = d: int | 0 <= d <= 1

  datatype Carriage = Carriage(carriageLabel: string, occupancyStatus: Option<string>)

  datatype VehicleAttributes = VehicleAttributes(
    currentStatus: Option<string>,
    directionId: DirectionId,
    vehicleLabel: string,
    speed: Option<real>,
    updatedAt: string,
    carriages: Option<seq<Carriage>>,
    occupancyStatus: Option<string>)

  /**
   * A vehicle of `data.data`: its id, the id of its route relationship, the id of its stop
   * relationship when that relationship and its data are present, and its attributes.
   */
  datatype Vehicle = Vehicle(id: string, routeId: string, stopId: Option<string>, attributes: VehicleAttributes)

  /** The decoded body of the vehicles endpoint; `included` may be missing. */
  datatype VehiclesEnvelope = VehiclesEnvelope(data: seq<Vehicle>, included: Option<seq<Resource>>)

  /** One marker of the map. `x` and `y` are the station's registered point, in tenths. */
  datatype TrainPosition = TrainPosition(
    id: string,
    x: int,
    y: int,
    route: string,
    color: string,
    vehicleLabel: string,
    direction: DirectionId,
    carriages: nat,
    occupancyStatus: Option<string>,
    currentStatus: string,
    speed: Option<real>,
    updatedAt: string)

  // ---------------------------------------------------------------------------------
  // Route classification

  /** ROUTE_COLORS */
  const RouteColors: map<string, string> := map[
    "Red" := "#DA291C",
    "Orange" := "#ED8B00",
    "Blue" := "#003DA5",
    "Green" := "#00843D",
    "Green-B" := "#00843D",
    "Green-C" := "#00843D",
    "Green-D" := "#00843D",
    "Green-E" := "#00843D"]

  /** The line labels the classifier can produce other than by passing a name through. */
  const CanonicalLabels: set<string> := {"Red", "Orange", "Blue", "Green", "Green-B", "Green-C", "Green-D", "Green-E"}

  /** The lettered Green Line branches, recognised by exact route id. */
  const GreenBranches: set<string> := {"Green-B", "Green-C", "Green-D", "Green-E"}

  /** The route's long name, or the route id when the route is unknown or its name is empty. */
  function RouteName(routeId: string, route: Option<RouteAttributes>): string
  {
    if route.Some? && route.value.longName != "" then route.value.longName else routeId
  }

  /**
   * The line label of a vehicle's route: the first of "Red", "Orange", "Blue" that the
   * route name contains; for a name containing "Green", the route id when it is exactly a
   * lettered branch and "Green" otherwise; any other name unchanged.
   */
  function VehicleLabel(routeId: string, route: Option<RouteAttributes>): string
  {
    var name := RouteName(routeId, route);
    if Contains(name, "Red") then "Red"
    else if Contains(name, "Orange") then "Orange"
    else if Contains(name, "Blue") then "Blue"
    else if Contains(name, "Green") then (if routeId in GreenBranches then routeId else "Green")
    else name
  }

  /** `ROUTE_COLORS[line] || "#666"` */
  function RouteColor(line: string): string
  {
    if line in RouteColors then RouteColors[line] else "#666"
  }

  // ---------------------------------------------------------------------------------
  // Placement

  /**
   * The station a vehicle is drawn at: the parent station of its stop when the included
   * stop names a non-empty one, else the stop itself. A missing or empty stop id places
   * the vehicle nowhere.
   */
  function ResolvedStationId(stopId: Option<string>, stops: map<string, Option<string>>): Option<string>
  {
    match stopId
    case None => None
    case Some(sid) =>
      if sid == "" then None
      else if sid in stops && stops[sid].Some? && stops[sid].value != "" then Some(stops[sid].value)
      else Some(sid)
  }

  /** The marker for vehicle `v` drawn at point `c`. */
  function Marker(v: Vehicle, c: Coord, routes: map<string, RouteAttributes>): TrainPosition
  {
    var route := if v.routeId in routes then Some(routes[v.routeId]) else None;
    var line := VehicleLabel(v.routeId, route);
    var a := v.attributes;
    TrainPosition(
      id := v.id,
      x := c.x,
      y := c.y,
      route := line,
      color := RouteColor(line),
      vehicleLabel := a.vehicleLabel,
      direction := a.directionId,
      carriages := if a.carriages.Some? then |a.carriages.value| else 0,
      occupancyStatus := a.occupancyStatus,
      currentStatus := if a.currentStatus.Some? && a.currentStatus.value != "" then a.currentStatus.value else "UNKNOWN",
      speed := a.speed,
      updatedAt := a.updatedAt)
  }

  /** The marker of one vehicle, or `None` when its station has no registered point. */
  function Place(v: Vehicle, routes: map<string, RouteAttributes>, stops: map<string, Option<string>>,
                 coords: map<string, Coord>): Option<TrainPosition>
  {
    match ResolvedStationId(v.stopId, stops)
    case None => None
    case Some(sid) => if sid in coords then Some(Marker(v, coords[sid], routes)) else None
  }

  /** `data.data.map(...).filter(pos => pos !== null)` */
  function Positions(vs: seq<Vehicle>, routes: map<string, RouteAttributes>, stops: map<string, Option<string>>,
                     coords: map<string, Coord>): seq<TrainPosition>
  {
    if vs == [] then []
    else
      var rest := Positions(vs[1..], routes, stops, coords);
      match Place(vs[0], routes, stops, coords)
      case Some(p) => [p] + rest
      case None => rest
  }

  function IncludedOf(env: VehiclesEnvelope): seq<Resource>
  {
    env.included.GetOr([])
  }

  /** The whole transform of one decoded vehicles response. */
  function Normalise(env: VehiclesEnvelope, coords: map<string, Coord>): seq<TrainPosition>
  {
    Positions(env.data, Table(IncludedOf(env), PickRoute), Table(IncludedOf(env), PickStop), coords)
  }

  /** The route and stop tables, filled by one pass over `included` as the source's `forEach` does. */
  method IndexIncluded(included: seq<Resource>)
    returns (routes: map<string, RouteAttributes>, stops: map<string, Option<string>>)
    ensures routes == Table(included, PickRoute)
    ensures stops == Table(included, PickStop)
  {
    routes, stops := map[], map[];
    var i := 0;
    while i < |included|
      invariant 0 <= i <= |included|
      invariant routes == Table(included[..i], PickRoute)
      invariant stops == Table(included[..i], PickStop)
    {
      var item := included[i];
      if item.RouteResource? {
        routes := routes[item.id := item.attributes];
      } else if item.StopResource? {
        stops := stops[item.id := item.parentStation];
      }
      assert included[..i + 1][..i] == included[..i];
      i := i + 1;
    }
    assert included[..|included|] == included;
  }

  // ---------------------------------------------------------------------------------
  // Properties of the transform

  /**
   * The label is one of the canonical line labels, or the route name passed through
   * unchanged when it mentions none of the four line colours; a lettered Green branch label
   * only ever comes from a route id that is exactly that branch.
   */
  lemma VehicleLabelSpec(routeId: string, route: Option<RouteAttributes>)
    ensures var name := RouteName(routeId, route);
            var l := VehicleLabel(routeId, route);
            var red, orange, blue := Contains(name, "Red"), Contains(name, "Orange"), Contains(name, "Blue");
            var green := Contains(name, "Green");
            && (l in CanonicalLabels || (l == name && !red && !orange && !blue && !green))
            && (red ==> l == "Red")
            && (orange && !red ==> l == "Orange")
            && (blue && !red && !orange ==> l == "Blue")
            && (l in GreenBranches && green ==> l == routeId)
            && (green && !red && !orange && !blue ==> (l in GreenBranches <==> routeId in GreenBranches))
            && (green && !red && !orange && !blue && routeId in GreenBranches ==> l == routeId)
            && (green && !red && !orange && !blue && routeId !in GreenBranches ==> l == "Green")
            && (!red && !orange && !blue && !green ==> l == name)
  {
  }

  /** Which of the four colour words each canonical label mentions. */
  lemma CanonicalLabelWords()
    ensures Contains("Red", "Red")
    ensures !Contains("Orange", "Red") && Contains("Orange", "Orange")
    ensures !Contains("Blue", "Red") && !Contains("Blue", "Orange") && Contains("Blue", "Blue")
    ensures forall g :: g in GreenBranches + {"Green"} ==>
              !Contains(g, "Red") && !Contains(g, "Orange") && !Contains(g, "Blue") && Contains(g, "Green")
  {
    PlainColourWords("Red", "Orange", "Blue");
    forall g | g in GreenBranches + {"Green"}
      ensures !Contains(g, "Red") && !Contains(g, "Orange") && !Contains(g, "Blue") && Contains(g, "Green")
    {
      GreenShape(g, "Green");
      GreenWords(g, "Red", "Orange", "Blue", "Green");
    }
  }

  lemma PlainColourWords(r: string, o: string, b: string)
    requires r == "Red" && o == "Orange" && b == "Blue"
    ensures Contains(r, r) && Contains(o, o) && Contains(b, b)
    ensures !Contains(o, r) && !Contains(b, r) && !Contains(b, o)
  {
    ContainsPrefix(r, r);
    ContainsPrefix(o, o);
    ContainsPrefix(b, b);
    LacksChar(o, r);
    LacksChar(b, r);
    LacksChar(b, o);
  }

  /**
   * A name that starts with "Green" and has no 'R' or 'O' after it (and no 'B' where "Blue"
   * could still start) mentions Green and none of the other three colours.
   */
  lemma GreenWords(g: string, r: string, o: string, b: string, green: string)
    requires r == "Red" && o == "Orange" && b == "Blue" && green == "Green"
    requires |g| >= 5 && g[..5] == green
    requires forall i :: 5 <= i < |g| ==> g[i] != 'R' && g[i] != 'O' && (i < |g| - 3 ==> g[i] != 'B')
    ensures !Contains(g, r) && !Contains(g, o) && !Contains(g, b) && Contains(g, green)
  {
    ContainsPrefix(g, green);
    forall i | 0 <= i < |g| ensures g[i] != 'R' && g[i] != 'O' && (i < |g| - 3 ==> g[i] != 'B') {
      if i < 5 {
        assert g[i] == green[i];
      }
    }
    LacksChar(g, r);
    LacksChar(g, o);
    LacksFirstChar(g, b);
  }

  /** The Green labels are "Green" and "Green-" followed by a branch letter. */
  lemma GreenShape(g: string, green: string)
    requires g in GreenBranches + {"Green"} && green == "Green"
    ensures |g| >= 5 && g[..5] == green
    ensures forall i :: 5 <= i < |g| ==> g[i] != 'R' && g[i] != 'O' && (i < |g| - 3 ==> g[i] != 'B')
  {
    if g != "Green" {
      assert |g| == 7 && g[5] == '-' && g[6] in "BCDE";
    }
  }

  /**
   * Classifying is idempotent: a label, classified again as the route id of an unknown
   * route, is itself.
   */
  lemma VehicleLabelIdempotent(routeId: string, route: Option<RouteAttributes>)
    ensures var l := VehicleLabel(routeId, route); VehicleLabel(l, None) == l
  {
    var l := VehicleLabel(routeId, route);
    assert RouteName(l, None) == l;
    if l in CanonicalLabels {
      CanonicalLabelWords();
      assert l in GreenBranches + {"Green"} || l == "Red" || l == "Orange" || l == "Blue";
    }
  }

  /**
   * A label gets a line colour exactly when it is canonical, and every Green label, lettered
   * or not, gets the Green Line's.
   */
  lemma RouteColorSpec(line: string)
    ensures RouteColor(line) != "#666" <==> line in CanonicalLabels
    ensures line in GreenBranches + {"Green"} ==> RouteColor(line) == "#00843D"
  {
  }

  /**
   * A placed vehicle's marker carries the vehicle's id, the registered point of its resolved
   * station and its copied attributes; a vehicle is placed exactly when its stop resolves
   * to a station with a registered point.
   */
  lemma PlaceSpec(v: Vehicle, routes: map<string, RouteAttributes>, stops: map<string, Option<string>>,
                  coords: map<string, Coord>)
    ensures var sid := ResolvedStationId(v.stopId, stops);
            Place(v, routes, stops, coords).Some? <==> sid.Some? && sid.value in coords
    ensures match Place(v, routes, stops, coords)
            case None => true
            case Some(p) =>
              var sid := ResolvedStationId(v.stopId, stops).value;
              && p.id == v.id && p.x == coords[sid].x && p.y == coords[sid].y
              && p.route == VehicleLabel(v.routeId, if v.routeId in routes then Some(routes[v.routeId]) else None)
              && p.color == RouteColor(p.route)
              && p.vehicleLabel == v.attributes.vehicleLabel && p.direction == v.attributes.directionId
              && p.occupancyStatus == v.attributes.occupancyStatus && p.speed == v.attributes.speed
              && p.updatedAt == v.attributes.updatedAt
              && (v.attributes.carriages.None? ==> p.carriages == 0)
              && (v.attributes.carriages.Some? ==> p.carriages == |v.attributes.carriages.value|)
              && (v.attributes.currentStatus.None? ==> p.currentStatus == "UNKNOWN")
              && (v.attributes.currentStatus == Some("") ==> p.currentStatus == "UNKNOWN")
              && (v.attributes.currentStatus.Some? && v.attributes.currentStatus.value != "" ==>
                    p.currentStatus == v.attributes.currentStatus.value)
  {
  }

  /**
   * The stop resolves to its included parent station when it names one, to itself when it
   * does not, and to nothing when the vehicle has no stop.
   */
  lemma ResolvedStationSpec(stopId: Option<string>, stops: map<string, Option<string>>)
    ensures stopId.None? || stopId.value == "" ==> ResolvedStationId(stopId, stops).None?
    ensures (stopId.Some? && stopId.value != "" && stopId.value in stops && stops[stopId.value].Some?
             && stops[stopId.value].value != "") ==> ResolvedStationId(stopId, stops) == stops[stopId.value]
    ensures stopId.Some? && stopId.value != "" && (stopId.value !in stops || stops[stopId.value].None? || stops[stopId.value].value == "")
            ==> ResolvedStationId(stopId, stops) == stopId
  {
  }

  /** The transform is a filter-map: it distributes over concatenation, so it keeps vehicle order. */
  lemma {:induction false} PositionsAppend(a: seq<Vehicle>, b: seq<Vehicle>, routes: map<string, RouteAttributes>,
                                             stops: map<string, Option<string>>, coords: map<string, Coord>)
    ensures Positions(a + b, routes, stops, coords) == Positions(a, routes, stops, coords) + Positions(b, routes, stops, coords)
  {
    if a == [] {
      assert a + b == b;
    } else {
      assert (a + b)[0] == a[0];
      assert (a + b)[1..] == a[1..] + b;
      PositionsAppend(a[1..], b, routes, stops, coords);
    }
  }

  function VehicleIds(vs: seq<Vehicle>): (ids: seq<string>)
    ensures |ids| == |vs| && forall i :: 0 <= i < |vs| ==> ids[i] == vs[i].id
  {
    seq(|vs|, i requires 0 <= i < |vs| => vs[i].id)
  }

  function MarkerIds(ps: seq<TrainPosition>): (ids: seq<string>)
    ensures |ids| == |ps| && forall i :: 0 <= i < |ps| ==> ids[i] == ps[i].id
  {
    seq(|ps|, i requires 0 <= i < |ps| => ps[i].id)
  }

  /**
   * The markers come out in vehicle order: their ids are the ids of the vehicles with a
   * mark, read off `data.data` with the others deleted.
   */
  lemma {:induction false} PositionsKeepOrder(vs: seq<Vehicle>, routes: map<string, RouteAttributes>,
                                              stops: map<string, Option<string>>, coords: map<string, Coord>)
    ensures Lists.IsSubsequence(MarkerIds(Positions(vs, routes, stops, coords)), VehicleIds(vs))
  {
    if vs != [] {
      var ids := MarkerIds(Positions(vs, routes, stops, coords));
      var rest := MarkerIds(Positions(vs[1..], routes, stops, coords));
      PositionsKeepOrder(vs[1..], routes, stops, coords);
      PositionsHead(vs, routes, stops, coords);
      assert VehicleIds(vs) == [vs[0].id] + VehicleIds(vs[1..]);
      if ids == rest {
        Lists.DropFrontKeepsSubsequence(rest, VehicleIds(vs[1..]), vs[0].id);
      } else {
        assert ([vs[0].id] + rest)[1..] == rest;
        assert ([vs[0].id] + VehicleIds(vs[1..]))[1..] == VehicleIds(vs[1..]);
      }
    }
  }

  /** The first vehicle contributes its own id or nothing to the marker ids. */
  lemma PositionsHead(vs: seq<Vehicle>, routes: map<string, RouteAttributes>,
                      stops: map<string, Option<string>>, coords: map<string, Coord>)
    requires vs != []
    ensures var ids := MarkerIds(Positions(vs, routes, stops, coords));
            var rest := MarkerIds(Positions(vs[1..], routes, stops, coords));
            ids == rest || ids == [vs[0].id] + rest
  {
    var rest := Positions(vs[1..], routes, stops, coords);
    match Place(vs[0], routes, stops, coords)
    case Some(p) =>
      assert p.id == vs[0].id;
      assert MarkerIds([p] + rest) == [p.id] + MarkerIds(rest);
    case None =>
  }

  /** A single vehicle yields its marker when it is placed and nothing otherwise. */
  lemma PositionsSingle(v: Vehicle, routes: map<string, RouteAttributes>, stops: map<string, Option<string>>,
                        coords: map<string, Coord>)
    ensures Positions([v], routes, stops, coords) ==
              (match Place(v, routes, stops, coords) case Some(p) => [p] case None => [])
  {
    assert [v][1..] == [];
  }

  /** Every marker is the marker of some vehicle of the list, and there are at most as many markers as vehicles. */
  lemma {:induction false} PositionsSound(vs: seq<Vehicle>, routes: map<string, RouteAttributes>,
                                          stops: map<string, Option<string>>, coords: map<string, Coord>)
    ensures |Positions(vs, routes, stops, coords)| <= |vs|
    ensures forall k :: 0 <= k < |Positions(vs, routes, stops, coords)| ==>
              exists i :: 0 <= i < |vs| && Place(vs[i], routes, stops, coords) == Some(Positions(vs, routes, stops, coords)[k])
  {
    if vs != [] {
      PositionsSound(vs[1..], routes, stops, coords);
      var rest := Positions(vs[1..], routes, stops, coords);
      forall k | 0 <= k < |rest|
        ensures exists i :: 0 <= i < |vs| && Place(vs[i], routes, stops, coords) == Some(rest[k])
      {
        var i :| 0 <= i < |vs[1..]| && Place(vs[1..][i], routes, stops, coords) == Some(rest[k]);
        assert vs[1..][i] == vs[i + 1];
      }
    }
  }

  /**
   * A vehicle id none of whose vehicles resolves to a registered point has no marker: such
   * vehicles are dropped, not drawn at a default place.
   */
  lemma {:induction false} UnplacedHaveNoMarker(vs: seq<Vehicle>, routes: map<string, RouteAttributes>,
                                                stops: map<string, Option<string>>, coords: map<string, Coord>, id: string)
    requires forall i :: 0 <= i < |vs| && vs[i].id == id ==>
               var sid := ResolvedStationId(vs[i].stopId, stops); sid.None? || sid.value !in coords
    ensures forall p :: p in Positions(vs, routes, stops, coords) ==> p.id != id
  {
    if vs != [] {
      assert forall i :: 0 <= i < |vs[1..]| ==> vs[1..][i] == vs[i + 1];
      UnplacedHaveNoMarker(vs[1..], routes, stops, coords, id);
    }
  }

  /** The two tables of the Green-E example envelope. */
  lemma GreenETables(included: seq<Resource>, attrs: RouteAttributes, routeId: string, stopId: string, parent: string)
    requires included == [RouteResource(routeId, attrs), StopResource(stopId, Some(parent))]
    ensures Table(included, PickRoute) == map[routeId := attrs]
    ensures Table(included, PickStop) == map[stopId := Some(parent)]
  {
    assert included[..1] == [RouteResource(routeId, attrs)];
    assert included[..1][..0] == [];
    assert Table(included[..1], PickRoute) == map[routeId := attrs];
    assert Table(included[..1], PickStop) == map[];
  }

  /** "Green Line E" mentions Green and none of the other three colours. */
  lemma GreenLineEWords(name: string)
    requires name == "Green Line E"
    ensures Contains(name, "Green") && !Contains(name, "Red") && !Contains(name, "Orange") && !Contains(name, "Blue")
  {
    assert name[..5] == "Green";
    assert name[5..] == " Line E";
    forall i | 5 <= i < |name| ensures name[i] != 'R' && name[i] != 'O' && name[i] != 'B' {
      assert name[i] == name[5..][i - 5];
    }
    GreenWords(name, "Red", "Orange", "Blue", "Green");
  }

  /** A long name "Green Line E" on route "Green-E" is classified as the E branch. */
  lemma GreenELabel(routeId: string, attrs: RouteAttributes)
    requires routeId == "Green-E" && attrs.longName == "Green Line E"
    ensures VehicleLabel(routeId, Some(attrs)) == routeId
  {
    GreenLineEWords(attrs.longName);
    assert RouteName(routeId, Some(attrs)) == attrs.longName;
    assert routeId in GreenBranches;
  }

  /**
   * A vehicle on route "Green-E", long name "Green Line E", whose stop's parent station is
   * "place-lech", yields one marker, at that station's point, labelled "Green-E" and
   * coloured Green.
   */
  lemma GreenEScenario(v: Vehicle, attrs: RouteAttributes, coords: map<string, Coord>)
    requires v.routeId == "Green-E" && v.stopId == Some("70502") && attrs.longName == "Green Line E"
    requires "place-lech" in coords
    ensures var included := [RouteResource("Green-E", attrs), StopResource("70502", Some("place-lech"))];
            var r := Normalise(VehiclesEnvelope([v], Some(included)), coords);
            && |r| == 1 && r[0].id == v.id && r[0].route == "Green-E" && r[0].color == "#00843D"
            && r[0].x == coords["place-lech"].x && r[0].y == coords["place-lech"].y
  {
    var included := [RouteResource(v.routeId, attrs), StopResource(v.stopId.value, Some("place-lech"))];
    GreenETables(included, attrs, v.routeId, v.stopId.value, "place-lech");
    var routes := Table(included, PickRoute);
    var stops := Table(included, PickStop);
    GreenELabel(v.routeId, attrs);
    RouteColorSpec(v.routeId);
    var m := Marker(v, coords["place-lech"], routes);
    assert Place(v, routes, stops, coords) == Some(m);
    PositionsSingle(v, routes, stops, coords);
  }

  // ---------------------------------------------------------------------------------
  // Tooltip text

  /** A character `\w` matches in a regular expression: an ASCII letter, digit or `_`. */
  predicate IsWordChar(c: char)
  {
    'a' <= c <= 'z' || 'A' <= c <= 'Z' || '0' <= c <= '9' || c == '_'
  }

  /** `s.replace(/_/g, " ")` */
  function ReplaceUnderscores(s: string): (r: string)
    ensures |r| == |s|
    ensures forall i :: 0 <= i < |s| ==> r[i] == (if s[i] == '_' then ' ' else s[i])
  {
    if s == [] then [] else [if s[0] == '_' then ' ' else s[0]] + ReplaceUnderscores(s[1..])
  }

  /**
   * `s.replace(/\b\w/g, l => l.toUpperCase())`, scanning from the left; `afterWord` tells
   * whether the character just before `s` is a word character.
   */
  function CapitaliseFrom(s: string, afterWord: bool): string
  {
    if s == [] then []
    else [if IsWordChar(s[0]) && !afterWord then UpperChar(s[0]) else s[0]] + CapitaliseFrom(s[1..], IsWordChar(s[0]))
  }

  /** The status and occupancy text of the tooltip: "IN_TRANSIT_TO" is shown as "In Transit To". */
  function FormatStatus(s: string): string
  {
    CapitaliseFrom(ToLower(ReplaceUnderscores(s)), false)
  }

  /** Position `i` of `t` begins a word: a word character at the start or after a non-word character. */
  predicate StartsWord(t: string, i: int)
    requires 0 <= i < |t|
  {
    IsWordChar(t[i]) && (i == 0 || !IsWordChar(t[i - 1]))
  }

  /** The scan upper-cases exactly the characters that begin a word. */
  lemma {:induction false} CapitaliseAt(t: string, afterWord: bool, i: int)
    requires 0 <= i < |t|
    ensures |CapitaliseFrom(t, afterWord)| == |t|
    ensures CapitaliseFrom(t, afterWord)[i] ==
              if IsWordChar(t[i]) && (if i == 0 then !afterWord else !IsWordChar(t[i - 1]))
              then UpperChar(t[i]) else t[i]
    decreases |t|
  {
    CapitaliseLength(t, afterWord);
    if i > 0 {
      CapitaliseAt(t[1..], IsWordChar(t[0]), i - 1);
      if i > 1 {
        assert t[1..][i - 2] == t[i - 1];
      }
    }
  }

  lemma {:induction false} CapitaliseLength(t: string, afterWord: bool)
    ensures |CapitaliseFrom(t, afterWord)| == |t|
    decreases |t|
  {
    if t != [] {
      CapitaliseLength(t[1..], IsWordChar(t[0]));
    }
  }

  /**
   * The formatted text has the length of the raw text and no underscore; each character is
   * the lower-cased raw character (an underscore turned into a space), upper-cased where
   * it begins a word.
   */
  lemma FormatStatusSpec(s: string)
    ensures var t := ToLower(ReplaceUnderscores(s));
            var r := FormatStatus(s);
            && |r| == |s|
            && (forall i :: 0 <= i < |s| ==> r[i] == if StartsWord(t, i) then UpperChar(t[i]) else t[i])
            && (forall i :: 0 <= i < |s| ==> r[i] != '_')
  {
    var t := ToLower(ReplaceUnderscores(s));
    CapitaliseLength(t, false);
    forall i | 0 <= i < |s|
      ensures FormatStatus(s)[i] == (if StartsWord(t, i) then UpperChar(t[i]) else t[i])
      ensures FormatStatus(s)[i] != '_'
    {
      CapitaliseAt(t, false, i);
    }
  }

  /** Formatting already formatted text changes nothing. */
  lemma FormatStatusIdempotent(s: string)
    ensures FormatStatus(FormatStatus(s)) == FormatStatus(s)
  {
    var t := ToLower(ReplaceUnderscores(s));
    var r := FormatStatus(s);
    FormatStatusSpec(s);
    var t' := ToLower(ReplaceUnderscores(r));
    assert t' == t by {
      forall i | 0 <= i < |s|
        ensures t'[i] == t[i]
      {
        assert ReplaceUnderscores(r)[i] == r[i];
      }
    }
    CapitaliseLength(t, false);
    forall i | 0 <= i < |s|
      ensures FormatStatus(r)[i] == r[i]
    {
      CapitaliseAt(t', false, i);
      CapitaliseAt(t, false, i);
    }
  }

  lemma InTransitToSpaced(s: string)
    requires s == "IN_TRANSIT_TO"
    ensures ReplaceUnderscores(s) == "IN TRANSIT TO"
  {
    var u := ReplaceUnderscores(s);
    assert u[0] == 'I' && u[1] == 'N' && u[2] == ' ' && u[3] == 'T' && u[4] == 'R' && u[5] == 'A' && u[6] == 'N';
    assert u[7] == 'S' && u[8] == 'I' && u[9] == 'T' && u[10] == ' ' && u[11] == 'T' && u[12] == 'O';
  }

  lemma InTransitToLowered(u: string)
    requires u == "IN TRANSIT TO"
    ensures ToLower(u) == "in transit to"
  {
    var t := ToLower(u);
    assert t[0] == 'i' && t[1] == 'n' && t[2] == ' ' && t[3] == 't' && t[4] == 'r' && t[5] == 'a' && t[6] == 'n';
    assert t[7] == 's' && t[8] == 'i' && t[9] == 't' && t[10] == ' ' && t[11] == 't' && t[12] == 'o';
  }

  lemma InTransitToCapitalised(t: string)
    requires t == "in transit to"
    ensures CapitaliseFrom(t, false) == "In Transit To"
  {
    CapitaliseLength(t, false);
    var r := CapitaliseFrom(t, false);
    CapitaliseAt(t, false, 0); CapitaliseAt(t, false, 1); CapitaliseAt(t, false, 2); CapitaliseAt(t, false, 3);
    CapitaliseAt(t, false, 4); CapitaliseAt(t, false, 5); CapitaliseAt(t, false, 6); CapitaliseAt(t, false, 7);
    CapitaliseAt(t, false, 8); CapitaliseAt(t, false, 9); CapitaliseAt(t, false, 10); CapitaliseAt(t, false, 11);
    CapitaliseAt(t, false, 12);
    assert r[0] == 'I' && r[1] == 'n' && r[2] == ' ' && r[3] == 'T' && r[4] == 'r' && r[5] == 'a' && r[6] == 'n';
    assert r[7] == 's' && r[8] == 'i' && r[9] == 't' && r[10] == ' ' && r[11] == 'T' && r[12] == 'o';
  }

  /** The vehicle status "IN_TRANSIT_TO" reads "In Transit To". */
  lemma FormatStatusExample(s: string)
    requires s == "IN_TRANSIT_TO"
    ensures FormatStatus(s) == "In Transit To"
  {
    InTransitToSpaced(s);
    InTransitToLowered(ReplaceUnderscores(s));
    InTransitToCapitalised(ToLower(ReplaceUnderscores(s)));
  }

  /** The colour classes of the occupancy text. */
  datatype OccupancyTone = GreenTone | YellowTone | OrangeTone | RedTone | GrayTone

  /** Emptier trains get calmer colours; an unrecognised status is gray. */
  function OccupancyToneOf(occupancy: string): (tone: OccupancyTone)
    ensures tone == GrayTone <==>
              occupancy !in {"MANY_SEATS_AVAILABLE", "FEW_SEATS_AVAILABLE", "STANDING_ROOM_ONLY", "FULL"}
  {
    if occupancy == "MANY_SEATS_AVAILABLE" then GreenTone
    else if occupancy == "FEW_SEATS_AVAILABLE" then YellowTone
    else if occupancy == "STANDING_ROOM_ONLY" then OrangeTone
    else if occupancy == "FULL" then RedTone
    else GrayTone
  }

  // ---------------------------------------------------------------------------------
  // Component state

  /** The state of the map component: the markers, when they were last refreshed, and the error banner. */
  class TransitMapView {
    var trains: seq<TrainPosition>
    var lastUpdate: Option<int>
    var error: Option<string>

    constructor ()
      ensures trains == [] && lastUpdate == None && error == None
    {
      trains, lastUpdate, error := [], None, None;
    }

    /**
     * One poll of the vehicles endpoint, given its outcome, the coordinate registry and the
     * current time. A response that is not ok, or whose body does not decode, leaves the
     * markers as they were and raises the error banner.
     */
    method FetchVehicles(reply: Reply<VehiclesEnvelope>, coords: map<string, Coord>, now: int)
      modifies this
      ensures reply.Response? && reply.ok && reply.json.Some? ==>
                && trains == Normalise(reply.json.value, coords)
                && lastUpdate == Some(now) && error == None
      ensures !(reply.Response? && reply.ok && reply.json.Some?) ==>
                && trains == old(trains) && lastUpdate == old(lastUpdate)
                && error == Some("Failed to load train positions")
    {
      if reply.NetworkError? || !reply.ok || reply.json.None? {
        error := Some("Failed to load train positions");
        return;
      }
      var env := reply.json.value;
      var routes, stops := IndexIncluded(IncludedOf(env));
      trains := Positions(env.data, routes, stops, coords);
      lastUpdate := Some(now);
      error := None;
    }
  }
}
