/**
 * The coordinate-authoring page: a working set of mapped stations edited by pointer and
 * form handlers, a zoom/pan view over the canvas, the stop-list filter, the progress
 * figure, and the generator of the registry's source text.
 */
module MapEditor {
  import opened Wrappers
  import opened Text
  import opened Coords
  import Lists
  import Grouping

  /** A stop of the stops endpoint; only its name is requested. */
  datatype MbtaStop = MbtaStop(id: string, name: string)

  /** The decoded body of the stops endpoint; an error body has no `data`. */
  datatype StopsEnvelope = StopsEnvelope(data: Option<seq<MbtaStop>>)

  /** One entry of the working set: a station and where it has been placed. */
  datatype MappedStation = MappedStation(id: string, name: string, at: Coord, line: Option<string>)

  /** An entry of the line selector. */
  datatype LineInfo = LineInfo(id: string, name: string, color: string)

  const Lines: seq<LineInfo> := [
    LineInfo("Red", "Red Line", "#DA291C"),
    LineInfo("Mattapan", "Mattapan Trolley", "#DA291C"),
    LineInfo("Orange", "Orange Line", "#ED8B00"),
    LineInfo("Blue", "Blue Line", "#003DA5"),
    LineInfo("Green-B", "Green Line B", "#00843D"),
    LineInfo("Green-C", "Green Line C", "#00843D"),
    LineInfo("Green-D", "Green Line D", "#00843D"),
    LineInfo("Green-E", "Green Line E", "#00843D")
  ]

  // ---------------------------------------------------------------------------------
  // Line colour

  /** `ls.find(l => l.id === line)?.color || "#666"` */
  function ColorIn(ls: seq<LineInfo>, line: string): string
  {
    if ls == [] then "#666"
    else if ls[0].id == line then (if ls[0].color != "" then ls[0].color else "#666")
    else ColorIn(ls[1..], line)
  }

  function LineColor(line: string): string
  {
    ColorIn(Lines, line)
  }

  lemma {:induction false} ColorInSpec(ls: seq<LineInfo>, line: string)
    requires forall i :: 0 <= i < |ls| ==> ls[i].color != "" && ls[i].color != "#666"
    ensures ColorIn(ls, line) == "#666" <==> forall i :: 0 <= i < |ls| ==> ls[i].id != line
    ensures forall i :: 0 <= i < |ls| && ls[i].id == line && (forall j :: 0 <= j < i ==> ls[j].id != line) ==>
              ColorIn(ls, line) == ls[i].color
  {
    if ls != [] {
      ColorInSpec(ls[1..], line);
      assert forall i :: 1 <= i < |ls| ==> ls[1..][i - 1] == ls[i];
    }
  }

  /**
   * The progress bar and marker colour: the colour listed for the line, and "#666" exactly
   * for a line the selector does not list.
   */
  lemma LineColorSpec(line: string)
    ensures LineColor(line) == "#666" <==> forall i :: 0 <= i < |Lines| ==> Lines[i].id != line
    ensures forall i :: 0 <= i < |Lines| && Lines[i].id == line ==> LineColor(line) == Lines[i].color
  {
    LinesColoured();
    ColorInSpec(Lines, line);
    LineIdsDistinct();
  }

  /** A name's first and last characters, enough to tell the listed line ids apart. */
  function Tag(s: string): (char, char)
  {
    if s == [] then (' ', ' ') else (s[0], s[|s| - 1])
  }

  /** The listed line ids are pairwise different. */
  lemma LineIdsDistinct()
    ensures forall i, j :: 0 <= j < i < |Lines| ==> Lines[i].id != Lines[j].id
  {
    var tags := seq(|Lines|, i requires 0 <= i < |Lines| => Tag(Lines[i].id));
    assert tags == [('R', 'd'), ('M', 'n'), ('O', 'e'), ('B', 'e'), ('G', 'B'), ('G', 'C'), ('G', 'D'), ('G', 'E')];
    forall i, j | 0 <= j < i < |Lines| ensures Lines[i].id != Lines[j].id {
      assert tags[i] != tags[j];
    }
  }

  /** Every listed line has a colour of its own, never the fallback grey. */
  lemma LinesColoured()
    ensures forall i :: 0 <= i < |Lines| ==> Lines[i].color != "" && Lines[i].color != "#666"
  {
    forall i | 0 <= i < |Lines| ensures Lines[i].color != "" && Lines[i].color != "#666" {
      assert |Lines[i].color| == 7;
    }
  }

  // ---------------------------------------------------------------------------------
  // Lookups

  /** `stops.find(s => s.id === id)` */
  function FindStop(stops: seq<MbtaStop>, id: string): (r: Option<MbtaStop>)
    ensures r.Some? ==> r.value.id == id && exists i :: 0 <= i < |stops| && stops[i] == r.value && forall j :: 0 <= j < i ==> stops[j].id != id
    ensures r.None? <==> forall i :: 0 <= i < |stops| ==> stops[i].id != id
  {
    if stops == [] then None
    else if stops[0].id == id then (assert stops[0] == stops[0]; Some(stops[0]))
    else
      var r := FindStop(stops[1..], id);
      assert r.Some? ==> exists i :: 0 < i < |stops| && stops[i] == r.value && forall j :: 0 <= j < i ==> stops[j].id != id by {
        if r.Some? {
          var i :| 0 <= i < |stops[1..]| && stops[1..][i] == r.value && forall j :: 0 <= j < i ==> stops[1..][j].id != id;
          assert stops[i + 1] == r.value;
          assert forall j :: 1 <= j < i + 1 ==> stops[j] == stops[1..][j - 1];
        }
      }
      r
  }

  /** The ids of the working set, in order. */
  function Ids(ms: seq<MappedStation>): (r: seq<string>)
    ensures |r| == |ms|
    ensures forall i :: 0 <= i < |ms| ==> r[i] == ms[i].id
  {
    seq(|ms|, i requires 0 <= i < |ms| => ms[i].id)
  }

  /** `mappedStations.find(s => s.id === id)` */
  function FindStation(ms: seq<MappedStation>, id: string): (r: Option<MappedStation>)
    ensures r.Some? ==> r.value.id == id && exists i :: 0 <= i < |ms| && ms[i] == r.value && forall j :: 0 <= j < i ==> ms[j].id != id
    ensures r.None? <==> forall i :: 0 <= i < |ms| ==> ms[i].id != id
  {
    if ms == [] then None
    else if ms[0].id == id then (assert ms[0] == ms[0]; Some(ms[0]))
    else
      var r := FindStation(ms[1..], id);
      assert r.Some? ==> exists i :: 0 < i < |ms| && ms[i] == r.value && forall j :: 0 <= j < i ==> ms[j].id != id by {
        if r.Some? {
          var i :| 0 <= i < |ms[1..]| && ms[1..][i] == r.value && forall j :: 0 <= j < i ==> ms[1..][j].id != id;
          assert ms[i + 1] == r.value;
          assert forall j :: 1 <= j < i + 1 ==> ms[j] == ms[1..][j - 1];
        }
      }
      r
  }

  // ---------------------------------------------------------------------------------
  // The working set

  /** `ms.filter(s => s.id !== id)` */
  function WithoutId(ms: seq<MappedStation>, id: string): (r: seq<MappedStation>)
    ensures |r| <= |ms|
  {
    if ms == [] then [] else (if ms[0].id != id then [ms[0]] else []) + WithoutId(ms[1..], id)
  }

  lemma {:induction false} WithoutIdMembers(ms: seq<MappedStation>, id: string)
    ensures forall m :: m in WithoutId(ms, id) <==> m in ms && m.id != id
  {
    if ms != [] {
      WithoutIdMembers(ms[1..], id);
      assert ms == [ms[0]] + ms[1..];
    }
  }

  lemma {:induction false} WithoutIdAppend(a: seq<MappedStation>, b: seq<MappedStation>, id: string)
    ensures WithoutId(a + b, id) == WithoutId(a, id) + WithoutId(b, id)
  {
    if a == [] {
      assert a + b == b;
    } else {
      assert (a + b)[1..] == a[1..] + b;
      WithoutIdAppend(a[1..], b, id);
    }
  }

  /** Removing an id that no entry has changes nothing. */
  lemma {:induction false} WithoutAbsentId(ms: seq<MappedStation>, id: string)
    requires id !in Ids(ms)
    ensures WithoutId(ms, id) == ms
  {
    if ms != [] {
      assert Ids(ms[1..]) == Ids(ms)[1..];
      WithoutAbsentId(ms[1..], id);
    }
  }

  lemma {:induction false} WithoutIdKeepsOrder(ms: seq<MappedStation>, id: string)
    ensures Lists.IsSubsequence(WithoutId(ms, id), ms)
  {
    if ms != [] {
      var t := WithoutId(ms[1..], id);
      WithoutIdKeepsOrder(ms[1..], id);
      if ms[0].id == id {
        assert WithoutId(ms, id) == t;
        Lists.DropFrontKeepsSubsequence(t, ms[1..], ms[0]);
        assert [ms[0]] + ms[1..] == ms;
      } else {
        var r := [ms[0]] + t;
        assert WithoutId(ms, id) == r;
        assert r[0] == ms[0] && r[1..] == t;
      }
    }
  }

  lemma DistinctIdsSnoc(ms: seq<MappedStation>, m: MappedStation)
    requires Lists.Distinct(Ids(ms)) && m.id !in Ids(ms)
    ensures Lists.Distinct(Ids(ms + [m]))
  {
    var r := ms + [m];
    forall i, j | 0 <= i < j < |r| ensures Ids(r)[i] != Ids(r)[j] {
      if j == |ms| {
        assert Ids(r)[i] == Ids(ms)[i];
      } else {
        assert Ids(r)[i] == Ids(ms)[i] && Ids(r)[j] == Ids(ms)[j];
      }
    }
  }

  lemma DistinctIdsCons(m: MappedStation, ms: seq<MappedStation>)
    requires Lists.Distinct(Ids(ms)) && forall j :: 0 <= j < |ms| ==> ms[j].id != m.id
    ensures Lists.Distinct(Ids([m] + ms))
  {
    var r := [m] + ms;
    forall i, j | 0 <= i < j < |r| ensures Ids(r)[i] != Ids(r)[j] {
      assert Ids(r)[j] == Ids(ms)[j - 1];
      if i > 0 {
        assert Ids(r)[i] == Ids(ms)[i - 1];
      }
    }
  }

  lemma {:induction false} WithoutIdDistinct(ms: seq<MappedStation>, id: string)
    requires Lists.Distinct(Ids(ms))
    ensures Lists.Distinct(Ids(WithoutId(ms, id)))
  {
    if ms != [] {
      var t := WithoutId(ms[1..], id);
      assert Ids(ms[1..]) == Ids(ms)[1..];
      WithoutIdDistinct(ms[1..], id);
      if ms[0].id != id {
        WithoutIdMembers(ms[1..], id);
        var r := [ms[0]] + t;
        assert WithoutId(ms, id) == r;
        forall j | 0 <= j < |t| ensures t[j].id != ms[0].id {
          assert t[j] in ms[1..];
          var k :| 0 <= k < |ms[1..]| && ms[1..][k] == t[j];
          assert Ids(ms)[0] != Ids(ms)[k + 1];
        }
        DistinctIdsCons(ms[0], t);
      }
    }
  }

  /** Deleting an id removes exactly its entries and keeps the others in order; ids stay unique. */
  lemma WithoutIdSpec(ms: seq<MappedStation>, id: string)
    ensures var r := WithoutId(ms, id);
            && (forall m :: m in r <==> m in ms && m.id != id)
            && Lists.IsSubsequence(r, ms)
            && (Lists.Distinct(Ids(ms)) ==> Lists.Distinct(Ids(r)))
  {
    WithoutIdMembers(ms, id);
    WithoutIdKeepsOrder(ms, id);
    if Lists.Distinct(Ids(ms)) {
      WithoutIdDistinct(ms, id);
    }
  }

  /** Remove every entry with the station's id, then append the station: the upsert of a click, nudge or edit. */
  function Upsert(ms: seq<MappedStation>, st: MappedStation): seq<MappedStation>
  {
    WithoutId(ms, st.id) + [st]
  }

  /**
   * After an upsert exactly one entry has the station's id, it is the last one, the other
   * entries are those before in their relative order, and ids stay unique.
   */
  lemma UpsertSpec(ms: seq<MappedStation>, st: MappedStation)
    ensures var r := Upsert(ms, st);
            && |r| > 0 && r[|r| - 1] == st
            && (forall i :: 0 <= i < |r| - 1 ==> r[i].id != st.id)
            && WithoutId(r, st.id) == WithoutId(ms, st.id)
            && (Lists.Distinct(Ids(ms)) ==> Lists.Distinct(Ids(r)))
  {
    var w := WithoutId(ms, st.id);
    var r := w + [st];
    WithoutIdMembers(ms, st.id);
    forall i | 0 <= i < |r| - 1 ensures r[i].id != st.id {
      assert r[i] == w[i] && w[i] in w;
    }
    WithoutIdAppend(w, [st], st.id);
    assert forall k :: 0 <= k < |w| ==> Ids(w)[k] != st.id by {
      forall k | 0 <= k < |w| ensures Ids(w)[k] != st.id {
        assert w[k] in w;
      }
    }
    WithoutAbsentId(w, st.id);
    assert WithoutId([st], st.id) == [];
    if Lists.Distinct(Ids(ms)) {
      WithoutIdDistinct(ms, st.id);
      DistinctIdsSnoc(w, st);
    }
  }

  /** `ms.map(s => s.id === id ? { ...s, x, y } : s)`: the drag update. */
  function MoveStation(ms: seq<MappedStation>, id: string, c: Coord): (r: seq<MappedStation>)
    ensures |r| == |ms| && Ids(r) == Ids(ms)
    ensures forall i :: 0 <= i < |ms| ==>
              && r[i].name == ms[i].name && r[i].line == ms[i].line
              && r[i].at == (if ms[i].id == id then c else ms[i].at)
  {
    var r := seq(|ms|, i requires 0 <= i < |ms| => if ms[i].id == id then ms[i].(at := c) else ms[i]);
    assert Ids(r) == Ids(ms);
    r
  }

  /** The entry a station gets when placed at `c` while `line` is selected. */
  function Entry(stop: MbtaStop, c: Coord, line: string): MappedStation
  {
    MappedStation(stop.id, stop.name, c, Some(line))
  }

  // ---------------------------------------------------------------------------------
  // Seeding from the registry

  /** Every listed id has a point. */
  predicate Complete(order: seq<string>, at: map<string, Coord>)
  {
    forall i :: 0 <= i < |order| ==> order[i] in at
  }

  /**
   * The entries `existing` collects: for each registry id, in registry order, that is a
   * fetched stop, its registered point under the stop's name, tagged with the current line.
   */
  function Seed(order: seq<string>, at: map<string, Coord>, stops: seq<MbtaStop>, line: string): seq<MappedStation>
    requires Complete(order, at)
    decreases |order|
  {
    if order == [] then []
    else
      var n := |order| - 1;
      var init := Seed(order[..n], at, stops, line);
      match FindStop(stops, order[n])
      case None => init
      case Some(stop) => init + [Entry(stop, at[order[n]], line)]
  }

  /** Every seeded entry is a registry id that is a fetched stop, at its point, on the current line. */
  lemma {:induction false} SeedMembers(order: seq<string>, at: map<string, Coord>, stops: seq<MbtaStop>, line: string)
    requires Complete(order, at)
    ensures forall m :: m in Seed(order, at, stops, line) ==>
              && m.id in order && FindStop(stops, m.id) == Some(MbtaStop(m.id, m.name))
              && m.at == at[m.id] && m.line == Some(line)
    decreases |order|
  {
    if order != [] {
      var n := |order| - 1;
      SeedMembers(order[..n], at, stops, line);
      assert forall x :: x in order[..n] ==> x in order;
    }
  }

  /** Every registry id that is a fetched stop is seeded. */
  lemma {:induction false} SeedCovers(order: seq<string>, at: map<string, Coord>, stops: seq<MbtaStop>, line: string)
    requires Complete(order, at)
    ensures forall i :: 0 <= i < |order| && FindStop(stops, order[i]).Some? ==> order[i] in Ids(Seed(order, at, stops, line))
    decreases |order|
  {
    if order != [] {
      var n := |order| - 1;
      var init := Seed(order[..n], at, stops, line);
      SeedCovers(order[..n], at, stops, line);
      assert forall i :: 0 <= i < n ==> order[..n][i] == order[i];
      var r := Seed(order, at, stops, line);
      if FindStop(stops, order[n]).Some? {
        assert r == init + [Entry(FindStop(stops, order[n]).value, at[order[n]], line)];
        assert Ids(r) == Ids(init) + [order[n]];
      } else {
        assert r == init;
      }
    }
  }

  /** A registry listing each id once seeds each id at most once. */
  lemma {:induction false} SeedDistinct(order: seq<string>, at: map<string, Coord>, stops: seq<MbtaStop>, line: string)
    requires Complete(order, at) && Lists.Distinct(order)
    ensures Lists.Distinct(Ids(Seed(order, at, stops, line)))
    decreases |order|
  {
    if order != [] {
      var n := |order| - 1;
      var init := Seed(order[..n], at, stops, line);
      assert Lists.Distinct(order[..n]);
      SeedDistinct(order[..n], at, stops, line);
      SeedMembers(order[..n], at, stops, line);
      if FindStop(stops, order[n]).Some? {
        var e := Entry(FindStop(stops, order[n]).value, at[order[n]], line);
        forall k | 0 <= k < |init| ensures Ids(init)[k] != order[n] {
          assert init[k] in init;
        }
        DistinctIdsSnoc(init, e);
      }
    }
  }

  /**
   * The seeded entries are exactly the registry ids that are fetched stops, each once, at its
   * registered point, under its stop's name and the current line.
   */
  lemma SeedSpec(order: seq<string>, at: map<string, Coord>, stops: seq<MbtaStop>, line: string)
    requires Complete(order, at)
    ensures var r := Seed(order, at, stops, line);
            && (Lists.Distinct(order) ==> Lists.Distinct(Ids(r)))
            && (forall m :: m in r ==>
                  && m.id in order && FindStop(stops, m.id) == Some(MbtaStop(m.id, m.name))
                  && m.at == at[m.id] && m.line == Some(line))
            && (forall i :: 0 <= i < |order| && FindStop(stops, order[i]).Some? ==> order[i] in Ids(r))
  {
    SeedMembers(order, at, stops, line);
    SeedCovers(order, at, stops, line);
    if Lists.Distinct(order) {
      SeedDistinct(order, at, stops, line);
    }
  }

  /** Seed with a loop that pushes onto `existing`, as the source's `forEach` does. */
  method CollectRegistered(order: seq<string>, at: map<string, Coord>, stops: seq<MbtaStop>, line: string)
    returns (existing: seq<MappedStation>)
    requires Complete(order, at)
    ensures existing == Seed(order, at, stops, line)
  {
    existing := [];
    for i := 0 to |order|
      invariant existing == Seed(order[..i], at, stops, line)
    {
      assert order[..i + 1][..i] == order[..i];
      var stop := FindStop(stops, order[i]);
      if stop.Some? {
        existing := existing + [Entry(stop.value, at[order[i]], line)];
      }
    }
    assert order[..|order|] == order;
  }

  /** The merge: each seeded entry whose id is not yet mapped is appended, in order. */
  function Merge(prev: seq<MappedStation>, existing: seq<MappedStation>): seq<MappedStation>
    decreases |existing|
  {
    if existing == [] then prev
    else
      var n := |existing| - 1;
      var merged := Merge(prev, existing[..n]);
      if existing[n].id in Ids(merged) then merged else merged + [existing[n]]
  }

  /** Merging keeps the entries already mapped in place and appends only seeded entries with new ids. */
  lemma {:induction false} MergeKeeps(prev: seq<MappedStation>, existing: seq<MappedStation>)
    ensures var r := Merge(prev, existing);
            && |prev| <= |r| && r[..|prev|] == prev
            && (forall i :: |prev| <= i < |r| ==> r[i] in existing && r[i].id !in Ids(prev))
    decreases |existing|
  {
    if existing != [] {
      var n := |existing| - 1;
      var merged := Merge(prev, existing[..n]);
      MergeKeeps(prev, existing[..n]);
      var e := existing[n];
      assert existing == existing[..n] + [e];
      if e.id !in Ids(merged) {
        var r := merged + [e];
        assert r[..|prev|] == merged[..|prev|];
        forall i | |prev| <= i < |r| ensures r[i] in existing && r[i].id !in Ids(prev) {
          if i == |merged| {
            forall k | 0 <= k < |prev| ensures Ids(prev)[k] != e.id {
              assert Ids(prev)[k] == merged[k].id == Ids(merged)[k];
            }
          } else {
            assert r[i] == merged[i];
          }
        }
      }
    }
  }

  /** After merging, every seeded id is mapped. */
  lemma {:induction false} MergeCovers(prev: seq<MappedStation>, existing: seq<MappedStation>)
    ensures forall m :: m in existing ==> m.id in Ids(Merge(prev, existing))
    decreases |existing|
  {
    if existing != [] {
      var n := |existing| - 1;
      var merged := Merge(prev, existing[..n]);
      MergeCovers(prev, existing[..n]);
      var e := existing[n];
      assert existing == existing[..n] + [e];
      if e.id !in Ids(merged) {
        var r := merged + [e];
        assert Ids(r) == Ids(merged) + [e.id];
      }
    }
  }

  /** Merging into a working set with unique ids keeps the ids unique. */
  lemma {:induction false} MergeDistinct(prev: seq<MappedStation>, existing: seq<MappedStation>)
    requires Lists.Distinct(Ids(prev))
    ensures Lists.Distinct(Ids(Merge(prev, existing)))
    decreases |existing|
  {
    if existing != [] {
      var n := |existing| - 1;
      var merged := Merge(prev, existing[..n]);
      MergeDistinct(prev, existing[..n]);
      if existing[n].id !in Ids(merged) {
        DistinctIdsSnoc(merged, existing[n]);
      }
    }
  }

  /**
   * Merging keeps every entry already mapped, unchanged and in place; it appends only seeded
   * entries whose id was absent; afterwards every seeded id is mapped and ids stay unique.
   */
  lemma MergeSpec(prev: seq<MappedStation>, existing: seq<MappedStation>)
    ensures var r := Merge(prev, existing);
            && |prev| <= |r| && r[..|prev|] == prev
            && (forall i :: |prev| <= i < |r| ==> r[i] in existing && r[i].id !in Ids(prev))
            && (forall m :: m in existing ==> m.id in Ids(r))
            && (Lists.Distinct(Ids(prev)) ==> Lists.Distinct(Ids(r)))
  {
    MergeKeeps(prev, existing);
    MergeCovers(prev, existing);
    if Lists.Distinct(Ids(prev)) {
      MergeDistinct(prev, existing);
    }
  }

  /** Merge with a loop that pushes onto the copy `merged`, as the source's `forEach` does. */
  method MergeMissing(prev: seq<MappedStation>, existing: seq<MappedStation>) returns (merged: seq<MappedStation>)
    ensures merged == Merge(prev, existing)
  {
    merged := prev;
    for i := 0 to |existing|
      invariant merged == Merge(prev, existing[..i])
    {
      assert existing[..i + 1][..i] == existing[..i];
      var found := FindStation(merged, existing[i].id);
      if found.None? {
        merged := merged + [existing[i]];
      }
    }
    assert existing[..|existing|] == existing;
  }

  // ---------------------------------------------------------------------------------
  // The stop list

  predicate IsParentStation(stop: MbtaStop)
  {
    StartsWith(stop.id, "place-")
  }

  /** The `fetchStops` filter: only parent stations, whose ids start with "place-". */
  function ParentStations(stops: seq<MbtaStop>): seq<MbtaStop>
  {
    Lists.Filter(stops, IsParentStation)
  }

  lemma ParentStationsSpec(stops: seq<MbtaStop>)
    ensures var r := ParentStations(stops);
            && (forall s :: s in r <==> s in stops && StartsWith(s.id, "place-"))
            && Lists.IsSubsequence(r, stops)
            && (forall s :: multiset(r)[s] == if StartsWith(s.id, "place-") then multiset(stops)[s] else 0)
  {
    Lists.FilterIsSubsequence(stops, IsParentStation);
    forall s ensures multiset(ParentStations(stops))[s] == if StartsWith(s.id, "place-") then multiset(stops)[s] else 0 {
      Lists.FilterCount(stops, IsParentStation, s);
    }
  }

  /** The search: name or id contains the query, ignoring case. */
  predicate MatchesSearch(stop: MbtaStop, query: string)
  {
    var q := ToLower(query);
    Contains(ToLower(stop.name), q) || Contains(ToLower(stop.id), q)
  }

  predicate Listed(stop: MbtaStop, query: string, mappedOnly: bool, ms: seq<MappedStation>)
  {
    MatchesSearch(stop, query) && (!mappedOnly || stop.id in Ids(ms))
  }

  /** `filteredStops` */
  function FilteredStops(stops: seq<MbtaStop>, query: string, mappedOnly: bool, ms: seq<MappedStation>): seq<MbtaStop>
  {
    Lists.Filter(stops, (s: MbtaStop) => Listed(s, query, mappedOnly, ms))
  }

  /**
   * The listed stops are those matching the search (and mapped, when only mapped stops are
   * shown), in stop-list order; an empty query with every stop shown lists them all.
   */
  lemma FilteredStopsSpec(stops: seq<MbtaStop>, query: string, mappedOnly: bool, ms: seq<MappedStation>)
    ensures var r := FilteredStops(stops, query, mappedOnly, ms);
            && (forall s :: s in r <==> s in stops && MatchesSearch(s, query) && (!mappedOnly || s.id in Ids(ms)))
            && Lists.IsSubsequence(r, stops)
            && (query == "" && !mappedOnly ==> r == stops)
  {
    Lists.FilterIsSubsequence(stops, (s: MbtaStop) => Listed(s, query, mappedOnly, ms));
    if query == "" && !mappedOnly {
      forall i | 0 <= i < |stops| ensures Listed(stops[i], query, mappedOnly, ms) {
        ContainsEmpty(ToLower(stops[i].name));
      }
      Lists.FilterAll(stops, (s: MbtaStop) => Listed(s, query, mappedOnly, ms));
    }
  }

  /** The entries tagged with `line`. */
  function OnLine(ms: seq<MappedStation>, line: string): (n: nat)
    ensures n <= |ms|
  {
    if ms == [] then 0 else (if ms[0].line == Some(line) then 1 else 0) + OnLine(ms[1..], line)
  }

  /**
   * `Math.round(mapped / stops * 100)`, or 0 without stops: for `stops > 0` the whole
   * percentage nearest to `100 * mapped / stops`, halves rounded up.
   */
  function Progress(mapped: nat, stops: nat): (p: int)
    ensures stops == 0 ==> p == 0
    ensures stops > 0 ==> 2 * stops * p - stops <= 200 * mapped < 2 * stops * p + stops
    ensures 0 <= p
  {
    if stops == 0 then 0
    else
      var q := (200 * mapped + stops) / (2 * stops);
      assert 2 * stops * q <= 200 * mapped + stops < 2 * stops * q + 2 * stops;
      q
  }

  /** Progress never exceeds 100 while no more entries than stops are on the line, and is 100 when all are. */
  lemma ProgressBounds(mapped: nat, stops: nat)
    ensures mapped <= stops ==> Progress(mapped, stops) <= 100
    ensures 0 < stops == mapped ==> Progress(mapped, stops) == 100
  {
    var p := Progress(mapped, stops);
    if stops > 0 && mapped <= stops {
      assert stops * (2 * p) <= stops * 201;
      CancelFactor(stops, 2 * p, 201);
      if stops == mapped {
        assert stops * 199 <= stops * (2 * p);
        CancelFactor(stops, 199, 2 * p);
      }
    }
  }

  lemma CancelFactor(s: int, a: int, b: int)
    requires s > 0 && s * a <= s * b
    ensures a <= b
  {
  }

  // ---------------------------------------------------------------------------------
  // Pointer geometry

  /** A pointer position in client pixels. */
  datatype Point = Point(x: real, y: real)

  /** The map container's bounding box in client pixels. */
  datatype Rect = Rect(left: real, top: real, width: real, height: real)

  /** A laid-out container: one that can receive a click has positive size. */
  predicate Laid(r: Rect)
  {
    r.width > 0.0 && r.height > 0.0
  }

  /** `Math.round(v * 10)`, the tenths of `Math.round(v * 10) / 10`: nearest tenth, halves up. */
  function RoundTenths(v: real): (t: int)
    ensures t as real - 0.5 <= v * 10.0 < t as real + 0.5
  {
    (v * 10.0 + 0.5).Floor
  }

  /** The canvas point, in tenths, under a pointer position inside the container. */
  function CanvasPoint(p: Point, r: Rect): Coord
    requires Laid(r)
  {
    Coord(RoundTenths((p.x - r.left) / r.width * (CanvasWidth as real)),
          RoundTenths((p.y - r.top) / r.height * (CanvasHeight as real)))
  }

  /**
   * The pointer's fraction of the container is scaled to the canvas and rounded to the
   * nearest tenth: the corners map to (0, 0) and (826, 770), the centre to (413, 385).
   */
  lemma CanvasPointSpec(p: Point, r: Rect)
    requires Laid(r)
    ensures var c := CanvasPoint(p, r);
            var fx := (p.x - r.left) / r.width;
            var fy := (p.y - r.top) / r.height;
            && c.x as real - 0.5 <= fx * 8260.0 < c.x as real + 0.5
            && c.y as real - 0.5 <= fy * 7700.0 < c.y as real + 0.5
    ensures p == Point(r.left, r.top) ==> CanvasPoint(p, r) == Coord(0, 0)
    ensures p == Point(r.left + r.width, r.top + r.height) ==> CanvasPoint(p, r) == Coord(8260, 7700)
    ensures p == Point(r.left + r.width / 2.0, r.top + r.height / 2.0) ==> CanvasPoint(p, r) == Coord(4130, 3850)
  {
    if p == Point(r.left + r.width / 2.0, r.top + r.height / 2.0) {
      assert (p.x - r.left) / r.width == 0.5;
      assert (p.y - r.top) / r.height == 0.5;
    }
    if p == Point(r.left + r.width, r.top + r.height) {
      assert (p.x - r.left) / r.width == 1.0;
      assert (p.y - r.top) / r.height == 1.0;
    }
  }

  // ---------------------------------------------------------------------------------
  // The page state and its handlers

  /** Which coordinate a manual edit changes. */
  datatype Axis = X | Y

  /**
   * The page's state. Zoom is kept in quarter steps (`zoom == zoomQuarters / 4`), so the
   * source's 0.5 .. 3 range is 2 .. 12 and its initial 1 is 4.
   */
  datatype EditorState = EditorState(
    selectedLine: string,
    stops: seq<MbtaStop>,
    loading: bool,
    mappedStations: seq<MappedStation>,
    selectedStop: Option<MbtaStop>,
    coordinates: Option<Coord>,
    searchQuery: string,
    showMappedOnly: bool,
    zoomQuarters: int,
    pan: Point,
    isPanning: bool,
    panStart: Point,
    isDraggingStation: bool,
    draggedStationId: Option<string>)

  /** Ids in the working set are unique, and the zoom is inside its clamp range. */
  predicate Valid(s: EditorState)
  {
    Lists.Distinct(Ids(s.mappedStations)) && 2 <= s.zoomQuarters <= 12
  }

  function Initial(): (s: EditorState)
    ensures Valid(s)
  {
    EditorState("Red", [], false, [], None, None, "", false, 4, Point(0.0, 0.0), false, Point(0.0, 0.0), false, None)
  }

  /** The zoom percentage shown between the zoom buttons. */
  function ZoomPercent(s: EditorState): (pct: int)
    ensures Valid(s) ==> 50 <= pct <= 300
  {
    25 * s.zoomQuarters
  }

  function AfterSelectLine(s: EditorState, line: string): EditorState
  {
    s.(selectedLine := line)
  }

  function AfterStartFetchStops(s: EditorState): EditorState
  {
    s.(loading := true)
  }

  /**
   * The end of `fetchStops`: a body with a `data` list replaces the stops by its parent
   * stations; a failed request or a body without `data` keeps them. The response status
   * is not consulted. Loading ends either way.
   */
  function AfterFetchStops(s: EditorState, reply: Reply<StopsEnvelope>): (r: EditorState)
    ensures !r.loading && r.mappedStations == s.mappedStations
    ensures reply.Response? && reply.json.Some? && reply.json.value.data.Some? ==>
              r.stops == ParentStations(reply.json.value.data.value)
    ensures !(reply.Response? && reply.json.Some? && reply.json.value.data.Some?) ==> r.stops == s.stops
  {
    if reply.Response? && reply.json.Some? && reply.json.value.data.Some? then
      s.(stops := ParentStations(reply.json.value.data.value), loading := false)
    else
      s.(loading := false)
  }

  /** The seeding effect: registered stops of the current line merged into the working set. */
  function AfterSeed(s: EditorState, registry: Registry): (r: EditorState)
    requires Complete(registry.order, registry.at)
    ensures Valid(s) ==> Valid(r)
  {
    var existing := Seed(registry.order, registry.at, s.stops, s.selectedLine);
    MergeSpec(s.mappedStations, existing);
    if |existing| > 0 then s.(mappedStations := Merge(s.mappedStations, existing)) else s
  }

  /**
   * Seeding keeps every existing entry unchanged and in place, appends only seeded entries
   * whose id was not mapped, and leaves every registered, fetched stop mapped.
   */
  lemma SeedingSpec(s: EditorState, registry: Registry)
    requires Complete(registry.order, registry.at)
    ensures var r := AfterSeed(s, registry);
            var existing := Seed(registry.order, registry.at, s.stops, s.selectedLine);
            && |s.mappedStations| <= |r.mappedStations|
            && r.mappedStations[..|s.mappedStations|] == s.mappedStations
            && (forall i :: |s.mappedStations| <= i < |r.mappedStations| ==>
                  r.mappedStations[i] in existing && r.mappedStations[i].id !in Ids(s.mappedStations)
                  && r.mappedStations[i].line == Some(s.selectedLine))
            && (forall i :: 0 <= i < |registry.order| && FindStop(s.stops, registry.order[i]).Some? ==>
                  registry.order[i] in Ids(r.mappedStations))
  {
    var existing := Seed(registry.order, registry.at, s.stops, s.selectedLine);
    MergeSpec(s.mappedStations, existing);
    SeedSpec(registry.order, registry.at, s.stops, s.selectedLine);
    var r := AfterSeed(s, registry);
    forall i | 0 <= i < |registry.order| && FindStop(s.stops, registry.order[i]).Some?
      ensures registry.order[i] in Ids(r.mappedStations)
    {
      var k :| 0 <= k < |existing| && Ids(existing)[k] == registry.order[i];
      assert existing[k] in existing;
    }
  }

  /**
   * `handleMapClick`: with a stop selected and neither a pan nor a drag in progress, the
   * click's canvas point becomes the coordinates and the selected stop is upserted there.
   */
  function AfterMapClick(s: EditorState, p: Point, rect: Rect): (r: EditorState)
    requires Laid(rect)
    ensures Valid(s) ==> Valid(r)
  {
    if s.selectedStop.None? || s.isPanning || s.isDraggingStation then s
    else
      var c := CanvasPoint(p, rect);
      var st := Entry(s.selectedStop.value, c, s.selectedLine);
      UpsertSpec(s.mappedStations, st);
      s.(coordinates := Some(c), mappedStations := Upsert(s.mappedStations, st))
  }

  /** A click places the selected stop, and only it, at the click's rounded canvas point. */
  lemma MapClickSpec(s: EditorState, p: Point, rect: Rect)
    requires Laid(rect)
    ensures s.selectedStop.None? || s.isPanning || s.isDraggingStation ==> AfterMapClick(s, p, rect) == s
    ensures s.selectedStop.Some? && !s.isPanning && !s.isDraggingStation ==>
              var r := AfterMapClick(s, p, rect);
              var id := s.selectedStop.value.id;
              && r.coordinates == Some(CanvasPoint(p, rect))
              && |r.mappedStations| > 0
              && r.mappedStations[|r.mappedStations| - 1] == Entry(s.selectedStop.value, CanvasPoint(p, rect), s.selectedLine)
              && (forall i :: 0 <= i < |r.mappedStations| - 1 ==> r.mappedStations[i].id != id)
              && WithoutId(r.mappedStations, id) == WithoutId(s.mappedStations, id)
  {
    if s.selectedStop.Some? && !s.isPanning && !s.isDraggingStation {
      UpsertSpec(s.mappedStations, Entry(s.selectedStop.value, CanvasPoint(p, rect), s.selectedLine));
    }
  }

  /** `handleStationMouseDown`: a drag starts and the station's stop, when listed, is selected. */
  function AfterStationMouseDown(s: EditorState, id: string): EditorState
  {
    var stop := FindStop(s.stops, id);
    s.(isDraggingStation := true, draggedStationId := Some(id),
       selectedStop := if stop.Some? then stop else s.selectedStop)
  }

  /** A drag is in progress with a non-empty station id. */
  predicate Dragging(s: EditorState)
  {
    s.isDraggingStation && s.draggedStationId.Some? && s.draggedStationId.value != ""
  }

  /** `handleStationDrag`: the dragged station follows the pointer; a no-op without a drag. */
  function AfterStationDrag(s: EditorState, p: Point, rect: Rect): (r: EditorState)
    requires Laid(rect)
    ensures Valid(s) ==> Valid(r)
  {
    if !Dragging(s) then s
    else
      var c := CanvasPoint(p, rect);
      s.(coordinates := Some(c), mappedStations := MoveStation(s.mappedStations, s.draggedStationId.value, c))
  }

  /**
   * A drag moves only the entries with the dragged id, to the pointer's canvas point; the
   * length, order, ids, names and lines of the working set are unchanged.
   */
  lemma StationDragSpec(s: EditorState, p: Point, rect: Rect)
    requires Laid(rect)
    ensures !Dragging(s) ==> AfterStationDrag(s, p, rect) == s
    ensures var r := AfterStationDrag(s, p, rect);
            var ms, ms' := s.mappedStations, r.mappedStations;
            && |ms'| == |ms| && Ids(ms') == Ids(ms)
            && (forall i :: 0 <= i < |ms| ==> ms'[i].name == ms[i].name && ms'[i].line == ms[i].line)
            && (forall i :: 0 <= i < |ms| && (!Dragging(s) || ms[i].id != s.draggedStationId.value) ==> ms'[i] == ms[i])
            && (Dragging(s) ==> forall i :: 0 <= i < |ms| && ms[i].id == s.draggedStationId.value ==>
                                  ms'[i].at == CanvasPoint(p, rect))
  {
  }

  function AfterStationMouseUp(s: EditorState): EditorState
  {
    s.(isDraggingStation := false, draggedStationId := None)
  }

  /** A pan starts with the middle or right button, or the left button with Alt held. */
  predicate StartsPan(button: int, altKey: bool)
  {
    button == 1 || button == 2 || (button == 0 && altKey)
  }

  function AfterMouseDown(s: EditorState, button: int, altKey: bool, p: Point): EditorState
  {
    if StartsPan(button, altKey) then s.(isPanning := true, panStart := Point(p.x - s.pan.x, p.y - s.pan.y)) else s
  }

  function AfterMouseMove(s: EditorState, p: Point, rect: Rect): (r: EditorState)
    requires Laid(rect)
    ensures Valid(s) ==> Valid(r)
  {
    if s.isPanning then s.(pan := Point(p.x - s.panStart.x, p.y - s.panStart.y))
    else if s.isDraggingStation then AfterStationDrag(s, p, rect)
    else s
  }

  /** Mouse up (or leaving the map) ends both a pan and a drag. */
  function AfterMouseUp(s: EditorState): EditorState
  {
    AfterStationMouseUp(s.(isPanning := false))
  }

  /**
   * A pan gesture: after a press that starts a pan at `p0`, moving to `p1` shifts the view
   * by the pointer's travel, and neither step touches the working set or the selection.
   */
  lemma PanSpec(s: EditorState, button: int, altKey: bool, p0: Point, p1: Point, rect: Rect)
    requires Laid(rect)
    ensures !StartsPan(button, altKey) ==> AfterMouseDown(s, button, altKey, p0) == s
    ensures StartsPan(button, altKey) ==>
              var r := AfterMouseMove(AfterMouseDown(s, button, altKey, p0), p1, rect);
              && r.isPanning
              && r.pan == Point(s.pan.x + (p1.x - p0.x), s.pan.y + (p1.y - p0.y))
              && r.mappedStations == s.mappedStations && r.coordinates == s.coordinates
              && r.selectedStop == s.selectedStop && r.zoomQuarters == s.zoomQuarters
  {
  }

  function AfterResetView(s: EditorState): EditorState
  {
    s.(pan := Point(0.0, 0.0), zoomQuarters := 4)
  }

  /** `setZoom(Math.min(3, zoom + 0.25))` */
  function AfterZoomIn(s: EditorState): (r: EditorState)
    ensures Valid(s) ==> Valid(r)
  {
    s.(zoomQuarters := if s.zoomQuarters + 1 < 12 then s.zoomQuarters + 1 else 12)
  }

  /** `setZoom(Math.max(0.5, zoom - 0.25))` */
  function AfterZoomOut(s: EditorState): (r: EditorState)
    ensures Valid(s) ==> Valid(r)
  {
    s.(zoomQuarters := if s.zoomQuarters - 1 > 2 then s.zoomQuarters - 1 else 2)
  }

  /**
   * Zoom moves in quarter steps inside 0.5 .. 3: one step in is undone by one step out
   * below the top of the range, and the reverse above its bottom; reset returns to 100%
   * at the origin. None of these touch the working set or the selection.
   */
  lemma ZoomSpec(s: EditorState)
    requires Valid(s)
    ensures s.zoomQuarters < 12 ==> AfterZoomOut(AfterZoomIn(s)) == s
    ensures s.zoomQuarters > 2 ==> AfterZoomIn(AfterZoomOut(s)) == s
    ensures s.zoomQuarters == 12 ==> AfterZoomIn(s) == s
    ensures s.zoomQuarters == 2 ==> AfterZoomOut(s) == s
    ensures ZoomPercent(AfterResetView(s)) == 100 && AfterResetView(s).pan == Point(0.0, 0.0)
    ensures && AfterZoomIn(s).mappedStations == s.mappedStations
            && AfterZoomOut(s).mappedStations == s.mappedStations
            && AfterResetView(s).mappedStations == s.mappedStations
            && AfterResetView(s).coordinates == s.coordinates
  {
  }

  /** `handleStopSelect`: select a stop and show its mapped point, if any. */
  function AfterStopSelect(s: EditorState, stop: MbtaStop): (r: EditorState)
    ensures r.selectedStop == Some(stop) && r.mappedStations == s.mappedStations
    ensures r.coordinates.None? <==> stop.id !in Ids(s.mappedStations)
    ensures r.coordinates.Some? ==> exists m :: m in s.mappedStations && m.id == stop.id && m.at == r.coordinates.value
  {
    var found := FindStation(s.mappedStations, stop.id);
    s.(selectedStop := Some(stop), coordinates := if found.Some? then Some(found.value.at) else None)
  }

  /** `handleDeleteStation`: drop the station; clear the coordinates when it is the selected one. */
  function AfterDeleteStation(s: EditorState, id: string): (r: EditorState)
    ensures Valid(s) ==> Valid(r)
  {
    WithoutIdSpec(s.mappedStations, id);
    s.(mappedStations := WithoutId(s.mappedStations, id),
       coordinates := if s.selectedStop.Some? && s.selectedStop.value.id == id then None else s.coordinates)
  }

  /** Deleting removes exactly the entries with that id and keeps the others in order. */
  lemma DeleteStationSpec(s: EditorState, id: string)
    ensures var r := AfterDeleteStation(s, id);
            && (forall m :: m in r.mappedStations <==> m in s.mappedStations && m.id != id)
            && Lists.IsSubsequence(r.mappedStations, s.mappedStations)
            && (s.selectedStop.Some? && s.selectedStop.value.id == id ==> r.coordinates.None?)
            && (!(s.selectedStop.Some? && s.selectedStop.value.id == id) ==> r.coordinates == s.coordinates)
  {
    WithoutIdSpec(s.mappedStations, id);
  }

  /**
   * `adjustCoordinate`, with the step in tenths (the arrow buttons step by 10 and 1):
   * with a selection and coordinates, both move by the step and the stop is upserted there.
   */
  function AfterAdjustCoordinate(s: EditorState, dx: int, dy: int): (r: EditorState)
    ensures Valid(s) ==> Valid(r)
  {
    if s.coordinates.None? || s.selectedStop.None? then s
    else
      var c := Coord(s.coordinates.value.x + dx, s.coordinates.value.y + dy);
      var st := Entry(s.selectedStop.value, c, s.selectedLine);
      UpsertSpec(s.mappedStations, st);
      s.(coordinates := Some(c), mappedStations := Upsert(s.mappedStations, st))
  }

  /**
   * `handleManualCoordinateChange`, given `parseFloat`'s result (`None` for NaN): the named
   * axis takes the value rounded to a tenth and the stop is upserted there.
   */
  function AfterManualCoordinateChange(s: EditorState, axis: Axis, value: Option<real>): (r: EditorState)
    ensures Valid(s) ==> Valid(r)
  {
    if s.selectedStop.None? || s.coordinates.None? || value.None? then s
    else
      var t := RoundTenths(value.value);
      var c := if axis == X then s.coordinates.value.(x := t) else s.coordinates.value.(y := t);
      var st := Entry(s.selectedStop.value, c, s.selectedLine);
      UpsertSpec(s.mappedStations, st);
      s.(coordinates := Some(c), mappedStations := Upsert(s.mappedStations, st))
  }

  /**
   * A manual edit ignores NaN, changes only the named axis, and upserts the selected stop at
   * the new point; a nudge moves the point by exactly the step and upserts likewise.
   */
  lemma EditSpec(s: EditorState, axis: Axis, value: Option<real>, dx: int, dy: int)
    ensures value.None? ==> AfterManualCoordinateChange(s, axis, value) == s
    ensures s.selectedStop.Some? && s.coordinates.Some? && value.Some? ==>
              var r := AfterManualCoordinateChange(s, axis, value);
              var c, c' := s.coordinates.value, r.coordinates.value;
              && r.coordinates.Some?
              && (axis == X ==> c'.y == c.y && c'.x as real - 0.5 <= value.value * 10.0 < c'.x as real + 0.5)
              && (axis == Y ==> c'.x == c.x && c'.y as real - 0.5 <= value.value * 10.0 < c'.y as real + 0.5)
              && r.mappedStations == Upsert(s.mappedStations, Entry(s.selectedStop.value, c', s.selectedLine))
    ensures s.selectedStop.Some? && s.coordinates.Some? ==>
              var r := AfterAdjustCoordinate(s, dx, dy);
              var c := s.coordinates.value;
              && r.coordinates == Some(Coord(c.x + dx, c.y + dy))
              && r.mappedStations == Upsert(s.mappedStations, Entry(s.selectedStop.value, Coord(c.x + dx, c.y + dy), s.selectedLine))
    ensures s.selectedStop.None? || s.coordinates.None? ==>
              AfterAdjustCoordinate(s, dx, dy) == s && AfterManualCoordinateChange(s, axis, value) == s
  {
  }

  /** "Reload from File": the working set becomes exactly the seeded list. */
  function AfterReload(s: EditorState, registry: Registry): (r: EditorState)
    requires Complete(registry.order, registry.at)
    ensures Lists.Distinct(registry.order) && Valid(s) ==> Valid(r)
  {
    SeedSpec(registry.order, registry.at, s.stops, s.selectedLine);
    s.(mappedStations := Seed(registry.order, registry.at, s.stops, s.selectedLine))
  }

  /** "Clear All", given the answer to the confirmation. */
  function AfterClearAll(s: EditorState, confirmed: bool): (r: EditorState)
    ensures Valid(s) ==> Valid(r)
    ensures confirmed ==> r.mappedStations == []
    ensures !confirmed ==> r == s
  {
    if confirmed then s.(mappedStations := []) else s
  }


  // ---------------------------------------------------------------------------------
  // The code generator

  /**
   * `a` sorts no later than `b` when strings are compared character by character, a prefix
   * first: the default order of `Array.prototype.sort` on strings.
   */
  predicate NotAfter(a: string, b: string)
  {
    a == [] || (b != [] && (a[0] < b[0] || (a[0] == b[0] && NotAfter(a[1..], b[1..]))))
  }

  lemma {:induction false} NotAfterReflexive(a: string)
    ensures NotAfter(a, a)
  {
    if a != [] {
      NotAfterReflexive(a[1..]);
    }
  }

  lemma {:induction false} NotAfterTotal(a: string, b: string)
    ensures NotAfter(a, b) || NotAfter(b, a)
  {
    if a != [] && b != [] && a[0] == b[0] {
      NotAfterTotal(a[1..], b[1..]);
    }
  }

  lemma {:induction false} NotAfterTransitive(a: string, b: string, c: string)
    requires NotAfter(a, b) && NotAfter(b, c)
    ensures NotAfter(a, c)
  {
    if a != [] && a[0] == b[0] && b[0] == c[0] {
      NotAfterTransitive(a[1..], b[1..], c[1..]);
    }
  }

  lemma {:induction false} NotAfterAntisymmetric(a: string, b: string)
    requires NotAfter(a, b) && NotAfter(b, a)
    ensures a == b
  {
    if a != [] {
      NotAfterAntisymmetric(a[1..], b[1..]);
      assert a == [a[0]] + a[1..] && b == [b[0]] + b[1..];
    }
  }

  predicate SortedLines(s: seq<string>)
  {
    forall i, j :: 0 <= i < j < |s| ==> NotAfter(s[i], s[j])
  }

  function InsertLine(x: string, s: seq<string>): seq<string>
  {
    if s == [] then [x]
    else if NotAfter(x, s[0]) then [x] + s
    else [s[0]] + InsertLine(x, s[1..])
  }

  /** `Object.keys(byLine).sort()` */
  function SortLines(s: seq<string>): seq<string>
  {
    if s == [] then [] else InsertLine(s[0], SortLines(s[1..]))
  }

  lemma {:induction false} InsertLineMembers(x: string, s: seq<string>)
    ensures multiset(InsertLine(x, s)) == multiset(s) + multiset{x}
  {
    if s != [] && !NotAfter(x, s[0]) {
      InsertLineMembers(x, s[1..]);
      assert s == [s[0]] + s[1..];
    }
  }

  /** A name no later than every name of a sorted list can go in front of it. */
  lemma ConsLine(h: string, t: seq<string>)
    requires SortedLines(t) && forall j :: 0 <= j < |t| ==> NotAfter(h, t[j])
    ensures SortedLines([h] + t)
  {
    var r := [h] + t;
    forall i, j | 0 <= i < j < |r| ensures NotAfter(r[i], r[j]) {
      assert r[j] == t[j - 1];
      if i > 0 {
        assert r[i] == t[i - 1];
      }
    }
  }

  /** A name no later than `x` and than every name of `s` is no later than any name after inserting. */
  lemma {:induction false} InsertLineBound(x: string, s: seq<string>, b: string)
    requires NotAfter(b, x) && forall j :: 0 <= j < |s| ==> NotAfter(b, s[j])
    ensures forall j :: 0 <= j < |InsertLine(x, s)| ==> NotAfter(b, InsertLine(x, s)[j])
    decreases |s|
  {
    if s != [] && !NotAfter(x, s[0]) {
      InsertLineBound(x, s[1..], b);
      var t := InsertLine(x, s[1..]);
      forall j | 0 <= j < |[s[0]] + t| ensures NotAfter(b, ([s[0]] + t)[j]) {
        if j > 0 {
          assert ([s[0]] + t)[j] == t[j - 1];
        }
      }
    } else if s != [] {
      forall j | 0 <= j < |[x] + s| ensures NotAfter(b, ([x] + s)[j]) {
        if j > 0 {
          assert ([x] + s)[j] == s[j - 1];
        }
      }
    }
  }

  lemma {:induction false} InsertLineSorted(x: string, s: seq<string>)
    requires SortedLines(s)
    ensures SortedLines(InsertLine(x, s))
    decreases |s|
  {
    if s == [] {
    } else if NotAfter(x, s[0]) {
      forall j | 0 <= j < |s| ensures NotAfter(x, s[j]) {
        if j > 0 {
          NotAfterTransitive(x, s[0], s[j]);
        }
      }
      ConsLine(x, s);
    } else {
      NotAfterTotal(x, s[0]);
      LinesTail(s);
      InsertLineSorted(x, s[1..]);
      forall j | 0 <= j < |s[1..]| ensures NotAfter(s[0], s[1..][j]) {
        assert s[1..][j] == s[j + 1];
      }
      InsertLineBound(x, s[1..], s[0]);
      ConsLine(s[0], InsertLine(x, s[1..]));
    }
  }

  /** The line names come out in order, each as often as it went in. */
  lemma {:induction false} SortLinesSpec(s: seq<string>)
    ensures SortedLines(SortLines(s))
    ensures multiset(SortLines(s)) == multiset(s)
  {
    if s != [] {
      SortLinesSpec(s[1..]);
      InsertLineSorted(s[0], SortLines(s[1..]));
      InsertLineMembers(s[0], SortLines(s[1..]));
      assert s == [s[0]] + s[1..];
    }
  }

  lemma SortedHeadFirst(s: seq<string>, x: string)
    requires SortedLines(s) && x in multiset(s)
    ensures NotAfter(s[0], x)
  {
    var i :| 0 <= i < |s| && s[i] == x;
    if i == 0 {
      NotAfterReflexive(x);
    }
  }

  /** Dropping the head of a list removes one copy of it and keeps the rest in order. */
  lemma LinesTail(a: seq<string>)
    requires a != []
    ensures multiset(a[1..]) == multiset(a) - multiset{a[0]}
    ensures SortedLines(a) ==> SortedLines(a[1..])
  {
    assert a == [a[0]] + a[1..];
  }

  /** Two sorted orderings of the same names start with the same name. */
  lemma SortedSameHead(a: seq<string>, b: seq<string>)
    requires SortedLines(a) && SortedLines(b) && multiset(a) == multiset(b) && a != []
    ensures b != [] && a[0] == b[0]
  {
    assert a[0] in multiset(b);
    assert b != [];
    assert b[0] in multiset(a);
    SortedHeadFirst(a, b[0]);
    SortedHeadFirst(b, a[0]);
    NotAfterAntisymmetric(a[0], b[0]);
  }

  /** Any two sorted orderings of the same names are the same list: the sorted order is unique. */
  lemma {:induction false} SortedLinesUnique(a: seq<string>, b: seq<string>)
    requires SortedLines(a) && SortedLines(b) && multiset(a) == multiset(b)
    ensures a == b
    decreases |a|
  {
    if a == [] {
      assert |b| == |multiset(b)| == 0;
    } else {
      SortedSameHead(a, b);
      LinesTail(a);
      LinesTail(b);
      SortedLinesUnique(a[1..], b[1..]);
      assert a == [a[0]] + a[1..] && b == [b[0]] + b[1..];
    }
  }

  /** `station.line || "Other"` */
  function LineOf(m: MappedStation): string
  {
    if m.line.Some? && m.line.value != "" then m.line.value else "Other"
  }

  /** A bucket's header line. */
  function Header(line: string): string
  {
    "\n  // " + line + " Line\n"
  }

  /** An entry's line: `  "id": { x: X, y: Y }, // name`, numbers written as JavaScript writes them. */
  function StationLine(m: MappedStation): string
  {
    "  \"" + m.id + "\": { x: " + TenthsToString(m.at.x) + ", y: " + TenthsToString(m.at.y) + " }, // " + m.name + "\n"
  }

  /** The lines of the entries of one bucket, in mapping order. */
  function EntryLines(ms: seq<MappedStation>): string
    decreases |ms|
  {
    if ms == [] then "" else EntryLines(ms[..|ms| - 1]) + StationLine(ms[|ms| - 1])
  }

  /** The untrimmed text: each named bucket's header followed by its entries' lines. */
  function Sections(lines: seq<string>, ms: seq<MappedStation>): string
    decreases |lines|
  {
    if lines == [] then ""
    else
      var n := |lines| - 1;
      Sections(lines[..n], ms) + Header(lines[n]) + EntryLines(Grouping.WithKey(ms, LineOf, lines[n]))
  }

  /** The bucket names in the order they are written. */
  function CodeLines(ms: seq<MappedStation>): seq<string>
  {
    SortLines(Grouping.FirstSeen(ms, LineOf))
  }

  /** `generateCode()`: the registry text for the working set. */
  function Code(ms: seq<MappedStation>): string
  {
    Trim(Sections(CodeLines(ms), ms))
  }

  /**
   * One bucket per line name in use ("Other" for entries without one), each once, in
   * sorted order.
   */
  lemma CodeLinesSpec(ms: seq<MappedStation>)
    ensures var lines := CodeLines(ms);
            && SortedLines(lines) && Lists.Distinct(lines)
            && multiset(lines) == multiset(Grouping.FirstSeen(ms, LineOf))
            && (forall l :: l in lines <==> exists i :: 0 <= i < |ms| && LineOf(ms[i]) == l)
  {
    var seen := Grouping.FirstSeen(ms, LineOf);
    var lines := CodeLines(ms);
    Grouping.FirstSeenSpec(ms, LineOf);
    SortLinesSpec(seen);
    Lists.DistinctPermutation(seen, lines);
    forall l ensures l in lines <==> l in seen {
      assert l in lines <==> l in multiset(lines);
      assert l in seen <==> l in multiset(seen);
    }
  }

  /** A non-empty working set has at least one bucket. */
  lemma CodeLinesNonEmpty(ms: seq<MappedStation>)
    requires ms != []
    ensures CodeLines(ms) != []
  {
    var seen := Grouping.FirstSeen(ms, LineOf);
    Grouping.FirstSeenSpec(ms, LineOf);
    SortLinesSpec(seen);
    assert LineOf(ms[0]) in multiset(seen);
  }

  /** The last bucket's header puts a "/" three characters after the text before it. */
  lemma SectionsMark(lines: seq<string>, ms: seq<MappedStation>)
    requires lines != []
    ensures var before := Sections(lines[..|lines| - 1], ms);
            var raw := Sections(lines, ms);
            |before| + 3 < |raw| && raw[|before| + 3] == '/'
  {
    var n := |lines| - 1;
    var h := Header(lines[n]);
    assert h[3] == '/';
  }

  /** An empty working set gives an empty text. */
  lemma CodeEmpty(ms: seq<MappedStation>)
    requires ms == []
    ensures Code(ms) == []
  {
    assert CodeLines(ms) == [];
    var a, b :| TrimmedAt(Code(ms), Sections([], ms), a, b);
  }

  /** A non-empty working set gives a non-empty text. */
  lemma CodeNonEmpty(ms: seq<MappedStation>)
    requires ms != []
    ensures Code(ms) != []
  {
    var lines := CodeLines(ms);
    CodeLinesNonEmpty(ms);
    SectionsMark(lines, ms);
    var raw := Sections(lines, ms);
    TrimKeeps(raw, |Sections(lines[..|lines| - 1], ms)| + 3);
  }

  /** The text has no white space at either end, and is empty exactly for an empty working set. */
  lemma CodeTextSpec(ms: seq<MappedStation>)
    ensures var c := Code(ms);
            && (c == [] || (!IsWhitespace(c[0]) && !IsWhitespace(c[|c| - 1])))
            && (c == [] <==> ms == [])
  {
    if ms == [] {
      CodeEmpty(ms);
    } else {
      CodeNonEmpty(ms);
    }
  }

  /** Trimming a text with a non-white-space character leaves a non-empty text. */
  lemma TrimKeeps(s: string, k: int)
    requires 0 <= k < |s| && !IsWhitespace(s[k])
    ensures Trim(s) != []
  {
    var a, b :| TrimmedAt(Trim(s), s, a, b);
    assert a <= k < b;
  }

  /** `byLine[name]` for a name in use: the bucket holding exactly that line's entries. */
  lemma BucketLookup(ms: seq<MappedStation>, name: string)
    requires name in multiset(Grouping.FirstSeen(ms, LineOf))
    ensures var gs := Grouping.Grouped(ms, LineOf);
            var j := Grouping.FindKey(gs, name);
            0 <= j < |gs| && gs[j].key == name && gs[j].members == Grouping.WithKey(ms, LineOf, name)
  {
    var gs := Grouping.Grouped(ms, LineOf);
    Grouping.GroupedSpec(ms, LineOf);
    var t :| 0 <= t < |gs| && Grouping.Keys(gs)[t] == name;
  }

  lemma EntryLinesStep(code: string, entries: seq<MappedStation>, k: int)
    requires 0 <= k < |entries|
    ensures code + EntryLines(entries[..k + 1]) == code + EntryLines(entries[..k]) + StationLine(entries[k])
  {
    assert entries[..k + 1][..k] == entries[..k];
  }

  /** The inner loop: one line per entry appended to the text. */
  method WriteEntries(code: string, entries: seq<MappedStation>) returns (r: string)
    ensures r == code + EntryLines(entries)
  {
    r := code;
    assert EntryLines(entries[..0]) == [];
    for k := 0 to |entries|
      invariant r == code + EntryLines(entries[..k])
    {
      EntryLinesStep(code, entries, k);
      r := r + StationLine(entries[k]);
    }
    assert entries[..|entries|] == entries;
  }

  /** The names `generateCode` walks: the bucket keys, sorted. */
  function SortedBucketNames(ms: seq<MappedStation>): seq<string>
  {
    SortLines(Grouping.Keys(Grouping.Grouped(ms, LineOf)))
  }

  /** The `i`th sorted name finds its bucket, and that bucket holds exactly the line's entries. */
  lemma BucketAt(ms: seq<MappedStation>, i: int)
    requires 0 <= i < |SortedBucketNames(ms)|
    ensures var gs := Grouping.Grouped(ms, LineOf);
            var name := SortedBucketNames(ms)[i];
            var j := Grouping.FindKey(gs, name);
            0 <= j < |gs| && gs[j].members == Grouping.WithKey(ms, LineOf, name)
  {
    var names := SortedBucketNames(ms);
    Grouping.GroupedSpec(ms, LineOf);
    SortLinesSpec(Grouping.Keys(Grouping.Grouped(ms, LineOf)));
    assert names[i] in multiset(names);
    BucketLookup(ms, names[i]);
  }

  /** The sorted bucket names are the names `Code` writes. */
  lemma SortedBucketNamesAreCodeLines(ms: seq<MappedStation>)
    ensures SortedBucketNames(ms) == CodeLines(ms)
  {
    Grouping.GroupedSpec(ms, LineOf);
  }

  lemma SectionsStep(names: seq<string>, ms: seq<MappedStation>, i: int)
    requires 0 <= i < |names|
    ensures Sections(names[..i + 1], ms) ==
              Sections(names[..i], ms) + Header(names[i]) + EntryLines(Grouping.WithKey(ms, LineOf, names[i]))
  {
    assert names[..i + 1][..i] == names[..i];
  }

  /**
   * The loops of `generateCode`: bucket the entries by line, then for each name of the
   * sorted bucket names append its header and its entries' lines, and trim.
   */
  method GenerateCode(ms: seq<MappedStation>) returns (code: string)
    ensures code == Code(ms)
  {
    var byLine := Grouping.GroupBy(ms, LineOf);
    var names := SortLines(Grouping.Keys(byLine));
    assert names == SortedBucketNames(ms);
    var raw := "";
    for i := 0 to |names|
      invariant raw == Sections(names[..i], ms)
    {
      BucketAt(ms, i);
      SectionsStep(names, ms, i);
      var j := Grouping.FindKey(byLine, names[i]);
      raw := WriteEntries(raw + Header(names[i]), byLine[j].members);
    }
    assert names[..|names|] == names;
    SortedBucketNamesAreCodeLines(ms);
    code := Trim(raw);
  }

  // ---------------------------------------------------------------------------------
  // Derived values

  /** The stop list as shown. */
  function ShownStops(s: EditorState): seq<MbtaStop>
  {
    FilteredStops(s.stops, s.searchQuery, s.showMappedOnly, s.mappedStations)
  }

  /** The progress figure: entries of the selected line per fetched stop, as a percentage. */
  function ProgressOf(s: EditorState): int
  {
    Progress(OnLine(s.mappedStations, s.selectedLine), |s.stops|)
  }

  // ---------------------------------------------------------------------------------
  // The page component

  /** The page's state fields and its handlers. */
  class MapEditorPage {
    var selectedLine: string
    var stops: seq<MbtaStop>
    var loading: bool
    var mappedStations: seq<MappedStation>
    var selectedStop: Option<MbtaStop>
    var coordinates: Option<Coord>
    var searchQuery: string
    var showMappedOnly: bool
    var zoomQuarters: int
    var pan: Point
    var isPanning: bool
    var panStart: Point
    var isDraggingStation: bool
    var draggedStationId: Option<string>

    /** All fields at once. */
    function State(): EditorState
      reads this
    {
      EditorState(selectedLine, stops, loading, mappedStations, selectedStop, coordinates, searchQuery,
                  showMappedOnly, zoomQuarters, pan, isPanning, panStart, isDraggingStation, draggedStationId)
    }

    constructor ()
      ensures State() == Initial()
    {
      selectedLine, stops, loading, mappedStations := "Red", [], false, [];
      selectedStop, coordinates, searchQuery, showMappedOnly := None, None, "", false;
      zoomQuarters, pan, isPanning, panStart := 4, Point(0.0, 0.0), false, Point(0.0, 0.0);
      isDraggingStation, draggedStationId := false, None;
    }

    method SelectLine(line: string)
      requires Valid(State())
      modifies this
      ensures State() == AfterSelectLine(old(State()), line) && Valid(State())
    {
      selectedLine := line;
    }

    method SetSearchQuery(query: string)
      requires Valid(State())
      modifies this
      ensures State() == old(State()).(searchQuery := query) && Valid(State())
    {
      searchQuery := query;
    }

    method SetShowMappedOnly(mappedOnly: bool)
      requires Valid(State())
      modifies this
      ensures State() == old(State()).(showMappedOnly := mappedOnly) && Valid(State())
    {
      showMappedOnly := mappedOnly;
    }

    /** The start of `fetchStops`. */
    method StartFetchStops()
      requires Valid(State())
      modifies this
      ensures State() == AfterStartFetchStops(old(State())) && Valid(State())
    {
      loading := true;
    }

    /** The end of `fetchStops`, given the request's outcome. */
    method CompleteFetchStops(reply: Reply<StopsEnvelope>)
      requires Valid(State())
      modifies this
      ensures State() == AfterFetchStops(old(State()), reply) && Valid(State())
    {
      if reply.Response? && reply.json.Some? && reply.json.value.data.Some? {
        stops := ParentStations(reply.json.value.data.value);
      }
      loading := false;
    }

    /** The seeding effect, run after the stops or the line change. */
    method SeedFromRegistry(registry: Registry)
      requires Valid(State()) && Complete(registry.order, registry.at)
      modifies this
      ensures State() == AfterSeed(old(State()), registry) && Valid(State())
    {
      var existing := CollectRegistered(registry.order, registry.at, stops, selectedLine);
      if |existing| > 0 {
        mappedStations := MergeMissing(mappedStations, existing);
      }
    }

    method HandleMapClick(p: Point, rect: Rect)
      requires Valid(State()) && Laid(rect)
      modifies this
      ensures State() == AfterMapClick(old(State()), p, rect) && Valid(State())
    {
      if selectedStop.None? || isPanning || isDraggingStation {
        return;
      }
      var c := CanvasPoint(p, rect);
      coordinates := Some(c);
      mappedStations := Upsert(mappedStations, Entry(selectedStop.value, c, selectedLine));
    }

    method HandleStationMouseDown(id: string)
      requires Valid(State())
      modifies this
      ensures State() == AfterStationMouseDown(old(State()), id) && Valid(State())
    {
      isDraggingStation := true;
      draggedStationId := Some(id);
      var stop := FindStop(stops, id);
      if stop.Some? {
        selectedStop := stop;
      }
    }

    method HandleStationDrag(p: Point, rect: Rect)
      requires Valid(State()) && Laid(rect)
      modifies this
      ensures State() == AfterStationDrag(old(State()), p, rect) && Valid(State())
    {
      if !isDraggingStation || draggedStationId.None? || draggedStationId.value == "" {
        return;
      }
      var c := CanvasPoint(p, rect);
      coordinates := Some(c);
      mappedStations := MoveStation(mappedStations, draggedStationId.value, c);
    }

    method HandleStationMouseUp()
      requires Valid(State())
      modifies this
      ensures State() == AfterStationMouseUp(old(State())) && Valid(State())
    {
      isDraggingStation := false;
      draggedStationId := None;
    }

    method HandleMouseDown(button: int, altKey: bool, p: Point)
      requires Valid(State())
      modifies this
      ensures State() == AfterMouseDown(old(State()), button, altKey, p) && Valid(State())
    {
      if StartsPan(button, altKey) {
        isPanning := true;
        panStart := Point(p.x - pan.x, p.y - pan.y);
      }
    }

    method HandleMouseMove(p: Point, rect: Rect)
      requires Valid(State()) && Laid(rect)
      modifies this
      ensures State() == AfterMouseMove(old(State()), p, rect) && Valid(State())
    {
      if isPanning {
        pan := Point(p.x - panStart.x, p.y - panStart.y);
      } else if isDraggingStation {
        HandleStationDrag(p, rect);
      }
    }

    method HandleMouseUp()
      requires Valid(State())
      modifies this
      ensures State() == AfterMouseUp(old(State())) && Valid(State())
    {
      isPanning := false;
      HandleStationMouseUp();
    }

    method ResetView()
      requires Valid(State())
      modifies this
      ensures State() == AfterResetView(old(State())) && Valid(State())
    {
      pan := Point(0.0, 0.0);
      zoomQuarters := 4;
    }

    method ZoomIn()
      requires Valid(State())
      modifies this
      ensures State() == AfterZoomIn(old(State())) && Valid(State())
    {
      zoomQuarters := if zoomQuarters + 1 < 12 then zoomQuarters + 1 else 12;
    }

    method ZoomOut()
      requires Valid(State())
      modifies this
      ensures State() == AfterZoomOut(old(State())) && Valid(State())
    {
      zoomQuarters := if zoomQuarters - 1 > 2 then zoomQuarters - 1 else 2;
    }

    method HandleStopSelect(stop: MbtaStop)
      requires Valid(State())
      modifies this
      ensures State() == AfterStopSelect(old(State()), stop) && Valid(State())
    {
      selectedStop := Some(stop);
      var existing := FindStation(mappedStations, stop.id);
      if existing.Some? {
        coordinates := Some(existing.value.at);
      } else {
        coordinates := None;
      }
    }

    method HandleDeleteStation(id: string)
      requires Valid(State())
      modifies this
      ensures State() == AfterDeleteStation(old(State()), id) && Valid(State())
    {
      mappedStations := WithoutId(mappedStations, id);
      if selectedStop.Some? && selectedStop.value.id == id {
        coordinates := None;
      }
    }

    method AdjustCoordinate(dx: int, dy: int)
      requires Valid(State())
      modifies this
      ensures State() == AfterAdjustCoordinate(old(State()), dx, dy) && Valid(State())
    {
      if coordinates.None? || selectedStop.None? {
        return;
      }
      var c := Coord(coordinates.value.x + dx, coordinates.value.y + dy);
      coordinates := Some(c);
      mappedStations := Upsert(mappedStations, Entry(selectedStop.value, c, selectedLine));
    }

    method HandleManualCoordinateChange(axis: Axis, value: Option<real>)
      requires Valid(State())
      modifies this
      ensures State() == AfterManualCoordinateChange(old(State()), axis, value) && Valid(State())
    {
      if selectedStop.None? || coordinates.None? {
        return;
      }
      if value.None? {
        return;
      }
      var t := RoundTenths(value.value);
      var c := if axis == X then coordinates.value.(x := t) else coordinates.value.(y := t);
      coordinates := Some(c);
      mappedStations := Upsert(mappedStations, Entry(selectedStop.value, c, selectedLine));
    }

    /** "Reload from File". */
    method ReloadFromFile(registry: Registry)
      requires Valid(State()) && Complete(registry.order, registry.at) && Lists.Distinct(registry.order)
      modifies this
      ensures State() == AfterReload(old(State()), registry) && Valid(State())
    {
      mappedStations := CollectRegistered(registry.order, registry.at, stops, selectedLine);
    }

    /** "Clear All", given the answer to the confirmation. */
    method ClearAll(confirmed: bool)
      requires Valid(State())
      modifies this
      ensures State() == AfterClearAll(old(State()), confirmed) && Valid(State())
    {
      if confirmed {
        mappedStations := [];
      }
    }

    /** The generated text for the current working set. */
    method GeneratedCode() returns (code: string)
      ensures code == Code(mappedStations)
    {
      code := GenerateCode(mappedStations);
    }
  }
}
