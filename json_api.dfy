/**
 * The JSON:API envelope shape the transit API answers with: a primary `data` list and a
 * heterogeneous `included` side list whose entries are told apart by their `type`.
 */
module JsonApi {
  import opened Wrappers

  /** The route attributes the display code reads. */
  datatype RouteAttributes = RouteAttributes(longName: string, color: string)

  /**
   * An entry of `included`, by its `type` discriminant: a route, a stop (with the id of its
   * parent station, when its relationship names one), a trip (with its headsign), or an
   * entry of any other type, which the display code ignores.
   */
  datatype Resource =
    | RouteResource(id: string, attributes: RouteAttributes)
    | StopResource(id: string, parentStation: Option<string>)
    | TripResource(id: string, headsign: string)
    | OtherResource(id: string, kind: string)

  /**
   * The lookup table that a `forEach` over `items` builds with `Map.set(item.id, ...)` for
   * every item `pick` selects: later items overwrite earlier ones with the same id.
   */
  function Table<V>(items: seq<Resource>, pick: Resource -> Option<V>): map<string, V>
    decreases |items|
  {
    if items == [] then map[]
    else
      var last := items[|items| - 1];
      var m := Table(items[..|items| - 1], pick);
      match pick(last)
      case Some(v) => m[last.id := v]
      case None => m
  }

  /** Selects route entries. */
  function PickRoute(r: Resource): Option<RouteAttributes>
  {
    if r.RouteResource? then Some(r.attributes) else None
  }

  /** Selects stop entries, keeping their parent-station reference. */
  function PickStop(r: Resource): Option<Option<string>>
  {
    if r.StopResource? then Some(r.parentStation) else None
  }

  /** Selects trip entries, keeping their headsign. */
  function PickTrip(r: Resource): Option<string>
  {
    if r.TripResource? then Some(r.headsign) else None
  }

  /** `items[i]` is selected, has id `id`, and no later item is both. */
  ghost predicate LastPicked<V>(items: seq<Resource>, pick: Resource -> Option<V>, id: string, i: int)
  {
    && 0 <= i < |items| && items[i].id == id && pick(items[i]).Some?
    && forall j :: i < j < |items| ==> !(items[j].id == id && pick(items[j]).Some?)
  }

  /**
   * The table has an entry for exactly the ids of selected items, and that entry is the
   * value of the LAST selected item with the id.
   */
  lemma {:induction false} TableLookup<V>(items: seq<Resource>, pick: Resource -> Option<V>, id: string)
    ensures id in Table(items, pick) <==>
              exists i :: 0 <= i < |items| && items[i].id == id && pick(items[i]).Some?
    ensures id in Table(items, pick) ==>
              exists i :: LastPicked(items, pick, id, i) && Table(items, pick)[id] == pick(items[i]).value
    decreases |items|
  {
    if items != [] {
      var n := |items| - 1;
      var init := items[..n];
      TableLookup(init, pick, id);
      assert forall i :: 0 <= i < n ==> items[i] == init[i];
      if items[n].id == id && pick(items[n]).Some? {
        assert LastPicked(items, pick, id, n);
      } else if id in Table(init, pick) {
        var i :| LastPicked(init, pick, id, i) && Table(init, pick)[id] == pick(init[i]).value;
        assert LastPicked(items, pick, id, i);
      }
    }
  }

  /** The text shown for a `direction_id`: 0 is outbound, anything else inbound. */
  function DirectionName(directionId: int): (r: string)
    ensures r == "Outbound" <==> directionId == 0
    ensures r == "Outbound" || r == "Inbound"
  {
    if directionId == 0 then "Outbound" else "Inbound"
  }
}
