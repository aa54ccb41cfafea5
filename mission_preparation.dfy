/**
 * Task preparation in the mission script: the traffic load of every
 * observation station, the station that supplies a road section's load, the
 * design life and traffic-load class of a section, the point indices of every
 * work zone, its processing time, and the expansion of the zones into tasks by
 * the number of lanes.
 */
module MissionPreparation {
  import opened Common
  import TaskTopology

  // ---------------------------------------------------------------------
  // Traffic load per observation station
  // ---------------------------------------------------------------------

  /** A row of the traffic survey sheet: station, year, the flow columns the
      sheet has, the station's milestone, and its `Annual_Traffic_Load` entry
      (absent in the sheet as read, written by the second loop). */
  datatype TrafficRow = TrafficRow(stationId: string, year: int, flows: map<string, real>, milestone: real,
                                   annualLoad: Option<real>)

  /** The five heavy-vehicle flow columns summed into the annual load. */
  const FLOW_COLUMNS: seq<string> :=
    ["Large_Bus_Flow", "Medium_Truck_Flow", "Large_Truck_Flow", "Extra_Large_Truck_Flow", "Container_Flow"]

  /** `row_data.get(column, 0)`. */
  function Flow(row: TrafficRow, column: string): real
  {
    if column in row.flows then row.flows[column] else 0.0
  }

  /** A year's load in millions of vehicles: the daily flows times 365 / 1e6. */
  function AnnualLoad(row: TrafficRow): real
  {
    (Flow(row, FLOW_COLUMNS[0]) + Flow(row, FLOW_COLUMNS[1]) + Flow(row, FLOW_COLUMNS[2])
     + Flow(row, FLOW_COLUMNS[3]) + Flow(row, FLOW_COLUMNS[4])) * 365.0 / 1000000.0
  }

  /** `station_id[:4]`: the route a station lies on. */
  function LineName(stationId: string): (line: string)
    ensures |line| == (if |stationId| <= 4 then |stationId| else 4) && line <= stationId
  {
    if |stationId| <= 4 then stationId else stationId[..4]
  }

  /** What the script keeps per station: its years in first-seen order, the
      row kept for each year, and the two values computed from them. */
  datatype StationData = StationData(years: seq<int>, rows: map<int, TrafficRow>, trafficLoad: real, milestone: real)

  /** The nested dictionary, flattened: stations in first-seen order. The
      stations of one route, in order, are `StationsOfLine`. */
  datatype TrafficTable = TrafficTable(order: seq<string>, stations: map<string, StationData>)

  /** The first loop of `process_traffic_load_data` after the rows seen so
      far: a new station is appended; a year seen again for the same station
      keeps its place and takes the newer row. */
  function Group(rows: seq<TrafficRow>): TrafficTable
  {
    if rows == [] then TrafficTable([], map[]) else AddRow(Group(rows[..|rows| - 1]), rows[|rows| - 1])
  }

  /** One row into the table. */
  function AddRow(t: TrafficTable, r: TrafficRow): TrafficTable
  {
    if r.stationId in t.stations then
      var st := t.stations[r.stationId];
      var years := if r.year in st.rows then st.years else st.years + [r.year];
      TrafficTable(t.order, t.stations[r.stationId := st.(years := years, rows := st.rows[r.year := r])])
    else
      TrafficTable(t.order + [r.stationId],
                   t.stations[r.stationId := StationData([r.year], map[r.year := r], 0.0, 0.0)])
  }

  predicate DistinctStrings(s: seq<string>)
  {
    forall i, j :: 0 <= i < j < |s| ==> s[i] != s[j]
  }

  predicate DistinctInts(s: seq<int>)
  {
    forall i, j :: 0 <= i < j < |s| ==> s[i] != s[j]
  }

  /** The shape every table has: each station listed once, each year of a
      station listed once and holding a row of that station and year. */
  ghost predicate TableOk(t: TrafficTable)
  {
    && DistinctStrings(t.order)
    && (forall s :: s in t.stations <==> s in t.order)
    && forall s :: s in t.stations ==> StationOk(s, t.stations[s])
  }

  ghost predicate StationOk(s: string, st: StationData)
  {
    && DistinctInts(st.years) && |st.years| >= 1
    && (forall k :: 0 <= k < |st.years| ==> st.years[k] in st.rows)
    && (forall y :: y in st.rows ==> y in st.years)
    && forall y :: y in st.rows ==> st.rows[y].stationId == s && st.rows[y].year == y
  }

  lemma {:induction false} GroupOk(rows: seq<TrafficRow>)
    ensures TableOk(Group(rows))
  {
    if rows != [] {
      GroupOk(rows[..|rows| - 1]);
      AddRowOk(Group(rows[..|rows| - 1]), rows[|rows| - 1]);
    }
  }

  lemma AddRowOk(t: TrafficTable, r: TrafficRow)
    requires TableOk(t)
    ensures TableOk(AddRow(t, r))
  {
    var t' := AddRow(t, r);
    if r.stationId in t.stations {
      var st := t.stations[r.stationId];
      assert StationOk(r.stationId, st);
      AddYearOk(r.stationId, st, r);
      assert t'.order == t.order;
    } else {
      assert r.stationId !in t.order;
      var st' := StationData([r.year], map[r.year := r], 0.0, 0.0);
      assert StationOk(r.stationId, st');
      forall i, j | 0 <= i < j < |t'.order| ensures t'.order[i] != t'.order[j] {
        if j == |t.order| {
          assert t'.order[i] == t.order[i];
        }
      }
    }
  }

  /** The station part of `AddRow`. */
  lemma AddYearOk(s: string, st: StationData, r: TrafficRow)
    requires StationOk(s, st) && r.stationId == s
    ensures var years := if r.year in st.rows then st.years else st.years + [r.year];
            StationOk(s, st.(years := years, rows := st.rows[r.year := r]))
  {
    if r.year !in st.rows {
      assert r.year !in st.years;
      var years := st.years + [r.year];
      forall i, j | 0 <= i < j < |years| ensures years[i] != years[j] {
        if j == |st.years| {
          assert years[i] == st.years[i];
        }
      }
    }
  }

  /** A station is in the table exactly when some row names it, and a year
      is listed for it exactly when some row names both. */
  lemma {:induction false} GroupMembership(rows: seq<TrafficRow>, s: string, y: int)
    ensures s in Group(rows).stations <==> exists i :: 0 <= i < |rows| && rows[i].stationId == s
    ensures s in Group(rows).stations ==>
              (y in Group(rows).stations[s].rows <==>
               exists i :: 0 <= i < |rows| && rows[i].stationId == s && rows[i].year == y)
  {
    if rows != [] {
      var init := rows[..|rows| - 1];
      GroupMembership(init, s, y);
      forall i | 0 <= i < |init| ensures init[i] == rows[i] { }
    }
  }

  /** The row kept for a station and year is the last row naming both. */
  lemma {:induction false} GroupKeepsLastRow(rows: seq<TrafficRow>, i: int)
    requires 0 <= i < |rows|
    requires forall j :: i < j < |rows| ==>
               rows[j].stationId != rows[i].stationId || rows[j].year != rows[i].year
    ensures rows[i].stationId in Group(rows).stations
    ensures rows[i].year in Group(rows).stations[rows[i].stationId].rows
    ensures Group(rows).stations[rows[i].stationId].rows[rows[i].year] == rows[i]
  {
    var init := rows[..|rows| - 1];
    if i < |rows| - 1 {
      forall j | i < j < |init| ensures init[j].stationId != init[i].stationId || init[j].year != init[i].year {
        assert init[j] == rows[j];
      }
      GroupKeepsLastRow(init, i);
    }
  }

  /** What the loop of `ProcessTrafficLoadData` does for row `i`: create the
      station if it is new, list the year if it is new, keep the row. */
  lemma GroupStep(rows: seq<TrafficRow>, i: int)
    requires 0 <= i < |rows|
    ensures var t := Group(rows[..i]);
      var r := rows[i];
      var t1 := if r.stationId !in t.stations
                then TrafficTable(t.order + [r.stationId], t.stations[r.stationId := StationData([], map[], 0.0, 0.0)])
                else t;
      var st := t1.stations[r.stationId];
      var st1 := if r.year !in st.rows then st.(years := st.years + [r.year]) else st;
      Group(rows[..i + 1]) == t1.(stations := t1.stations[r.stationId := st1.(rows := st1.rows[r.year := r])])
  {
    var t := Group(rows[..i]);
    var r := rows[i];
    assert rows[..i + 1][..i] == rows[..i];
    assert rows[..i + 1][i] == r;
    if r.stationId !in t.stations {
      assert map[][r.year := r] == map[r.year := r];
      assert [] + [r.year] == [r.year];
      assert Group(rows[..i + 1]) == TrafficTable(t.order + [r.stationId],
                     t.stations[r.stationId := StationData([r.year], map[r.year := r], 0.0, 0.0)]);
    }
  }

  /** A station's years are non-empty and each has its row. */
  ghost predicate YearsListed(st: StationData)
  {
    |st.years| >= 1 && forall k :: 0 <= k < |st.years| ==> st.years[k] in st.rows
  }

  lemma YearsListedOk(t: TrafficTable, s: string)
    requires TableOk(t) && s in t.stations
    ensures YearsListed(t.stations[s])
  {
    var st := t.stations[s];
    assert StationOk(s, st);
  }

  /** Sum of the annual loads of `years`, in order. */
  function YearsLoad(years: seq<int>, rows: map<int, TrafficRow>): real
    requires forall k :: 0 <= k < |years| ==> years[k] in rows
  {
    if years == [] then 0.0
    else YearsLoad(years[..|years| - 1], rows) + AnnualLoad(rows[years[|years| - 1]])
  }

  /** With non-negative flows every station's load is non-negative. */
  lemma {:induction false} YearsLoadNonNegative(years: seq<int>, rows: map<int, TrafficRow>)
    requires forall k :: 0 <= k < |years| ==> years[k] in rows
    requires forall y, c :: y in rows && c in rows[y].flows ==> rows[y].flows[c] >= 0.0
    ensures YearsLoad(years, rows) >= 0.0
  {
    if years != [] {
      YearsLoadNonNegative(years[..|years| - 1], rows);
      var r := rows[years[|years| - 1]];
      assert Flow(r, FLOW_COLUMNS[0]) >= 0.0 && Flow(r, FLOW_COLUMNS[1]) >= 0.0 && Flow(r, FLOW_COLUMNS[2]) >= 0.0;
      assert Flow(r, FLOW_COLUMNS[3]) >= 0.0 && Flow(r, FLOW_COLUMNS[4]) >= 0.0;
    }
  }

  /** `process_traffic_load_data` on the rows of the sheet: groups them per
      station and year, then gives every station the sum of its annual loads
      and the milestone of the row of its last-listed year. */
  method ProcessTrafficLoadData(rows: seq<TrafficRow>) returns (table: TrafficTable)
    ensures SameGrouping(table, Group(rows)) && TableOk(table)
    ensures forall s :: s in table.stations ==> LoadsComputed(table.stations[s])
  {
    var t := GroupRows(rows);
    GroupOk(rows);
    table := ComputeLoads(t);
  }

  /** A row without its `Annual_Traffic_Load` entry. */
  function Unstamped(r: TrafficRow): TrafficRow
  {
    r.(annualLoad := None)
  }

  /** Two tables that list the same stations, years and rows, the rows
      compared without their `Annual_Traffic_Load` entry. */
  ghost predicate SameGrouping(a: TrafficTable, b: TrafficTable)
  {
    && a.order == b.order && a.stations.Keys == b.stations.Keys
    && forall s :: s in a.stations ==> SameStation(a.stations[s], b.stations[s])
  }

  ghost predicate SameStation(a: StationData, b: StationData)
  {
    && a.years == b.years && a.rows.Keys == b.rows.Keys
    && forall y :: y in a.rows ==> Unstamped(a.rows[y]) == Unstamped(b.rows[y])
  }

  /** Every year row holds its own annual load. */
  ghost predicate Stamped(rows: map<int, TrafficRow>)
  {
    forall y :: y in rows ==> rows[y].annualLoad == Some(AnnualLoad(rows[y]))
  }

  /** A station's load is the sum over its years, its milestone is that of
      the row of its last-listed year, and every row holds its annual load. */
  ghost predicate LoadsComputed(st: StationData)
  {
    && YearsListed(st)
    && st.trafficLoad == YearsLoad(st.years, st.rows)
    && st.milestone == st.rows[st.years[|st.years| - 1]].milestone
    && Stamped(st.rows)
  }

  /** The first loop of `process_traffic_load_data`. */
  method GroupRows(rows: seq<TrafficRow>) returns (t: TrafficTable)
    ensures t == Group(rows)
  {
    t := TrafficTable([], map[]);
    for i := 0 to |rows|
      invariant t == Group(rows[..i])
    {
      var r := rows[i];
      if r.stationId !in t.stations {
        t := TrafficTable(t.order + [r.stationId],
                          t.stations[r.stationId := StationData([], map[], 0.0, 0.0)]);
      }
      var st := t.stations[r.stationId];
      if r.year !in st.rows {
        st := st.(years := st.years + [r.year]);
      }
      st := st.(rows := st.rows[r.year := r]);
      t := t.(stations := t.stations[r.stationId := st]);
      GroupStep(rows, i);
    }
    assert rows[..|rows|] == rows;
  }

  /** The second loop: each station's load and milestone. */
  method ComputeLoads(t: TrafficTable) returns (table: TrafficTable)
    requires TableOk(t)
    ensures SameGrouping(table, t) && TableOk(table)
    ensures forall s :: s in table.stations ==> LoadsComputed(table.stations[s])
  {
    table := t;
    for k := 0 to |t.order|
      invariant SameGrouping(table, t)
      invariant forall s :: s in t.order[..k] ==> LoadsComputed(table.stations[s])
    {
      var s := t.order[k];
      var st := table.stations[s];
      YearsListedOk(t, s);
      assert StationOk(s, t.stations[s]);
      var load, stamped := StationLoadSum(st.years, st.rows);
      var lastYear := st.years[|st.years| - 1];
      var done := st.(rows := stamped, trafficLoad := load, milestone := stamped[lastYear].milestone);
      assert LoadsComputed(done);
      ghost var before := table;
      table := table.(stations := table.stations[s := done]);
      LoadsStep(before, table, t, s, done, k);
    }
    assert t.order[..|t.order|] == t.order;
    SameGroupingOk(table, t);
  }

  lemma LoadsStep(before: TrafficTable, after: TrafficTable, t: TrafficTable, s: string, done: StationData, k: int)
    requires TableOk(t) && 0 <= k < |t.order| && s == t.order[k] && s in before.stations
    requires SameGrouping(before, t)
    requires forall x :: x in t.order[..k] ==> LoadsComputed(before.stations[x])
    requires SameStation(done, before.stations[s])
    requires after == before.(stations := before.stations[s := done]) && LoadsComputed(done)
    ensures SameGrouping(after, t)
    ensures forall x :: x in t.order[..k + 1] ==> LoadsComputed(after.stations[x])
  {
    SameGroupingStep(before, after, t, s, done);
    assert t.order[..k + 1] == t.order[..k] + [s];
    forall x | x in t.order[..k + 1] ensures LoadsComputed(after.stations[x]) {
      if x != s {
        assert x in t.order[..k];
        assert after.stations[x] == before.stations[x];
      }
    }
  }

  lemma SameGroupingStep(before: TrafficTable, after: TrafficTable, t: TrafficTable, s: string, done: StationData)
    requires SameGrouping(before, t) && s in before.stations
    requires SameStation(done, before.stations[s])
    requires after == before.(stations := before.stations[s := done])
    ensures SameGrouping(after, t)
  {
    forall x | x in after.stations
      ensures SameStation(after.stations[x], t.stations[x])
    {
      if x != s {
        assert after.stations[x] == before.stations[x];
      } else {
        SameStationTransitive(done, before.stations[s], t.stations[s]);
      }
    }
  }


  lemma SameGroupingOk(a: TrafficTable, b: TrafficTable)
    requires SameGrouping(a, b) && TableOk(b)
    ensures TableOk(a)
  {
    forall s | s in a.stations ensures StationOk(s, a.stations[s]) {
      assert StationOk(s, b.stations[s]);
    }
  }

  /** The inner loop over a station's years: `row_data['Annual_Traffic_Load']
      = flow_value` on every year row, and `traffic_load += flow_value`. */
  method StationLoadSum(years: seq<int>, rows: map<int, TrafficRow>) returns (load: real, stamped: map<int, TrafficRow>)
    requires forall k :: 0 <= k < |years| ==> years[k] in rows
    requires forall y :: y in rows ==> y in years
    ensures stamped.Keys == rows.Keys && Stamped(stamped)
    ensures forall y :: y in rows ==> Unstamped(stamped[y]) == Unstamped(rows[y])
    ensures load == YearsLoad(years, rows) && load == YearsLoad(years, stamped)
  {
    load := 0.0;
    stamped := rows;
    for k := 0 to |years|
      invariant load == YearsLoad(years[..k], rows)
      invariant StampedUpTo(years[..k], rows, stamped)
    {
      assert years[..k + 1][..k] == years[..k];
      StampStep(years[..k], years[k], rows, stamped);
      var flowValue := AnnualLoad(stamped[years[k]]);
      stamped := stamped[years[k] := stamped[years[k]].(annualLoad := Some(flowValue))];
      load := load + flowValue;
      assert years[..k + 1] == years[..k] + [years[k]];
    }
    assert years[..|years|] == years;
    YearsLoadUnstamped(years, rows, stamped);
  }

  /** The loop invariant of the stamping: the same rows up to the stamp,
      and every year of `done` stamped. */
  ghost predicate StampedUpTo(done: seq<int>, rows: map<int, TrafficRow>, stamped: map<int, TrafficRow>)
  {
    && stamped.Keys == rows.Keys
    && (forall y :: y in rows ==> Unstamped(stamped[y]) == Unstamped(rows[y]))
    && forall y :: y in done ==> y in stamped && stamped[y].annualLoad == Some(AnnualLoad(stamped[y]))
  }

  lemma StampStep(done: seq<int>, y: int, rows: map<int, TrafficRow>, stamped: map<int, TrafficRow>)
    requires StampedUpTo(done, rows, stamped) && y in rows
    ensures AnnualLoad(stamped[y]) == AnnualLoad(rows[y])
    ensures StampedUpTo(done + [y], rows, stamped[y := stamped[y].(annualLoad := Some(AnnualLoad(stamped[y])))])
  {
    assert Unstamped(stamped[y]).flows == Unstamped(rows[y]).flows;
  }

  /** The annual load reads only the flows, so it ignores the stamp. */
  lemma {:induction false} YearsLoadUnstamped(years: seq<int>, a: map<int, TrafficRow>, b: map<int, TrafficRow>)
    requires forall k :: 0 <= k < |years| ==> years[k] in a && years[k] in b
    requires forall y :: y in a && y in b ==> Unstamped(a[y]) == Unstamped(b[y])
    ensures YearsLoad(years, a) == YearsLoad(years, b)
  {
    if years != [] {
      var y := years[|years| - 1];
      assert a[y].flows == Unstamped(a[y]).flows == Unstamped(b[y]).flows == b[y].flows;
      YearsLoadUnstamped(years[..|years| - 1], a, b);
    }
  }

  lemma SameStationTransitive(a: StationData, b: StationData, c: StationData)
    requires SameStation(a, b) && SameStation(b, c)
    ensures SameStation(a, c)
  {
  }

  /** The stations of a route, in table order. */
  function StationsOfLine(t: TrafficTable, line: string): (ids: seq<string>)
    ensures forall s :: s in ids <==> s in t.order && LineName(s) == line
    decreases |t.order|
  {
    if t.order == [] then []
    else
      var rest := StationsOfLine(t.(order := t.order[1..]), line);
      if LineName(t.order[0]) == line then [t.order[0]] + rest else rest
  }

  // ---------------------------------------------------------------------
  // The station that supplies a section's load
  // ---------------------------------------------------------------------

  /** A station of the route: its milestone and traffic load. */
  datatype StationLoad = StationLoad(milestone: real, trafficLoad: real)

  function Distance(a: real, b: real): real
  {
    if a >= b then a - b else b - a
  }

  predicate InSection(st: StationLoad, ori: real, des: real)
  {
    ori <= st.milestone <= des
  }

  /** The station the scan for one section settles on: the first station
      lying in `[ori, des]`; failing that, the station closest to `ori`, the
      first of equally close ones; no station at all gives none. */
  predicate StationChoice(stations: seq<StationLoad>, ori: real, des: real, chosen: Option<nat>)
  {
    && (chosen.None? <==> stations == [])
    && (chosen.Some? ==> chosen.value < |stations|)
    && ((exists j :: 0 <= j < |stations| && InSection(stations[j], ori, des)) ==>
          chosen.Some? && InSection(stations[chosen.value], ori, des)
          && forall j :: 0 <= j < chosen.value ==> !InSection(stations[j], ori, des))
    && (chosen.Some? && !InSection(stations[chosen.value], ori, des) ==>
          (forall j :: 0 <= j < |stations| ==> !InSection(stations[j], ori, des))
          && (forall j :: 0 <= j < |stations| ==>
                Distance(stations[chosen.value].milestone, ori) <= Distance(stations[j].milestone, ori))
          && (forall j :: 0 <= j < chosen.value ==>
                Distance(stations[chosen.value].milestone, ori) < Distance(stations[j].milestone, ori)))
  }

  /** The station scan for one section. */
  method MatchStation(stations: seq<StationLoad>, ori: real, des: real) returns (chosen: Option<nat>)
    ensures StationChoice(stations, ori, des, chosen)
  {
    var closest: Option<nat> := None;
    var closestDistance: ExtReal := Inf;
    for k := 0 to |stations|
      invariant forall j :: 0 <= j < k ==> !InSection(stations[j], ori, des)
      invariant closest.None? <==> k == 0
      invariant closest.None? ==> closestDistance == Inf
      invariant closest.Some? ==> closest.value < k && closestDistance == Finite(Distance(stations[closest.value].milestone, ori))
      invariant closest.Some? ==> forall j :: 0 <= j < k ==>
                  Distance(stations[closest.value].milestone, ori) <= Distance(stations[j].milestone, ori)
      invariant closest.Some? ==> forall j :: 0 <= j < closest.value ==>
                  Distance(stations[closest.value].milestone, ori) < Distance(stations[j].milestone, ori)
    {
      if InSection(stations[k], ori, des) {
        return Some(k);
      }
      var distance := Distance(stations[k].milestone, ori);
      if Lt(Finite(distance), closestDistance) {
        closestDistance := Finite(distance);
        closest := Some(k);
      }
    }
    chosen := closest;
  }

  /** Why a section gets no load: its route has no station (the dictionary
      lookup of the route fails). */
  datatype LoadLookup = MissingLine | Load(value: real)

  /** The stations of a route with their milestones and loads, in table
      order. */
  function LineStations(t: TrafficTable, line: string): (stations: seq<StationLoad>)
    requires TableOk(t)
    ensures |stations| == |StationsOfLine(t, line)|
    ensures forall k :: 0 <= k < |stations| ==>
              StationsOfLine(t, line)[k] in t.stations
              && stations[k] == StationLoad(t.stations[StationsOfLine(t, line)[k]].milestone,
                                            t.stations[StationsOfLine(t, line)[k]].trafficLoad)
  {
    var ids := StationsOfLine(t, line);
    seq(|ids|, k requires 0 <= k < |ids| => StationLoad(t.stations[ids[k]].milestone, t.stations[ids[k]].trafficLoad))
  }

  /** The load a section takes from the table: that of the station the scan
      picks among its route's stations, and the position of that station. */
  method SectionTrafficLoad(t: TrafficTable, line: string, ori: real, des: real) returns (r: LoadLookup, chosen: Option<nat>)
    requires TableOk(t)
    ensures r.MissingLine? <==> StationsOfLine(t, line) == []
    ensures StationChoice(LineStations(t, line), ori, des, chosen)
    ensures r.Load? <==> chosen.Some?
    ensures r.Load? ==> r.value == t.stations[StationsOfLine(t, line)[chosen.value]].trafficLoad
  {
    var stations := LineStations(t, line);
    chosen := MatchStation(stations, ori, des);
    if chosen.None? {
      r := MissingLine;
    } else {
      r := Load(stations[chosen.value].trafficLoad);
    }
  }

  // ---------------------------------------------------------------------
  // Design life and traffic-load class
  // ---------------------------------------------------------------------

  /** Design years by technical grade; any other grade matches no branch. */
  function DesignLife(grade: string): (years: Option<int>)
    ensures years.Some? <==> grade in {"Expressway", "Grade 1", "Grade 2", "Grade 3", "Grade 4"}
    ensures years.Some? ==> 8 <= years.value <= 15
  {
    if grade == "Expressway" then Some(15)
    else if grade == "Grade 1" then Some(15)
    else if grade == "Grade 2" then Some(12)
    else if grade == "Grade 3" then Some(10)
    else if grade == "Grade 4" then Some(8)
    else None
  }

  datatype LoadClass = ExtremelyHeavy | VeryHeavy | Heavy | Medium | Light
  {
    function Name(): string
    {
      match this
      case ExtremelyHeavy => "Extremely Heavy"
      case VeryHeavy => "Very Heavy"
      case Heavy => "Heavy"
      case Medium => "Medium"
      case Light => "Light"
    }
  }

  /** The class of a design-life traffic load; the bounds 4, 8 and 19 fall in
      no branch. */
  function ClassifyLoad(x: real): Option<LoadClass>
  {
    if x >= 50.0 then Some(ExtremelyHeavy)
    else if 19.0 < x < 50.0 then Some(VeryHeavy)
    else if 8.0 < x < 19.0 then Some(Heavy)
    else if 4.0 < x < 8.0 then Some(Medium)
    else if x < 4.0 then Some(Light)
    else None
  }

  /** Exactly the three boundary values get no class. */
  lemma ClassifyLoadGaps(x: real)
    ensures ClassifyLoad(x).None? <==> x == 4.0 || x == 8.0 || x == 19.0
  {
  }

  /** Classes are ordered by load: a heavier class never goes with a
      smaller load. */
  lemma ClassifyLoadMonotone(x: real, y: real)
    requires x <= y && ClassifyLoad(x).Some? && ClassifyLoad(y).Some?
    ensures Rank(ClassifyLoad(x).value) <= Rank(ClassifyLoad(y).value)
  {
  }

  function Rank(c: LoadClass): nat
  {
    match c
    case Light => 0
    case Medium => 1
    case Heavy => 2
    case VeryHeavy => 3
    case ExtremelyHeavy => 4
  }

  /** `design_use_year` and `Traffic_Load_Type` as the section loop leaves
      them; they are loop variables, so a section whose grade or load matches
      no branch keeps the previous section's values. */
  datatype SectionClass = SectionClass(designUseYear: Option<int>, loadType: Option<LoadClass>)

  /** One section's classification. `None` is the `NameError` raised when no
      section so far had a known grade. */
  function ClassifySection(previous: SectionClass, grade: string, trafficLoad: real): (r: Option<SectionClass>)
    ensures r.None? <==> DesignLife(grade).None? && previous.designUseYear.None?
  {
    var years := if DesignLife(grade).Some? then DesignLife(grade) else previous.designUseYear;
    match years
    case None => None
    case Some(y) =>
      var loadType := ClassifyLoad(trafficLoad * y as real);
      Some(SectionClass(years, if loadType.Some? then loadType else previous.loadType))
  }

  /** A known grade and a load off the boundaries leave nothing from the
      previous section: the class depends on this section alone. */
  lemma ClassifySectionFresh(p: SectionClass, q: SectionClass, grade: string, trafficLoad: real)
    requires DesignLife(grade).Some?
    requires var x := trafficLoad * DesignLife(grade).value as real; x != 4.0 && x != 8.0 && x != 19.0
    ensures ClassifySection(p, grade, trafficLoad) == ClassifySection(q, grade, trafficLoad)
    ensures ClassifySection(p, grade, trafficLoad).value.loadType.Some?
  {
    ClassifyLoadGaps(trafficLoad * DesignLife(grade).value as real);
  }

  /** An unknown grade reuses the previous design life. */
  lemma ClassifySectionStaleYear(p: SectionClass, grade: string, trafficLoad: real)
    requires DesignLife(grade).None? && p.designUseYear.Some?
    ensures ClassifySection(p, grade, trafficLoad).Some?
    ensures ClassifySection(p, grade, trafficLoad).value.designUseYear == p.designUseYear
  {
  }

  // ---------------------------------------------------------------------
  // Work zones: point indices, processing time, expansion into tasks
  // ---------------------------------------------------------------------

  /** A work zone (a group of sections on one side) as the flattening loop
      sees it, with its end coordinates already looked up. */
  datatype Zone = Zone(
    side: string, minOri: real, maxDes: real, totalDistance: real,
    oriLon: real, oriLat: real, desLon: real, desLat: real,
    lineNum: int, processingTime: real)

  /** An entry of `flattened_data`. */
  datatype FlatRecord = FlatRecord(groupIndex: nat, oriPointIndex: nat, desPointIndex: nat, zone: Zone)

  /** The flattening loop: both counters start at 1; each zone takes the
      next two point indices and the next group index. */
  method Flatten(zones: seq<Zone>) returns (flat: seq<FlatRecord>)
    ensures |flat| == |zones|
    ensures forall i :: 0 <= i < |zones| ==>
              flat[i].zone == zones[i] && flat[i].groupIndex == i + 1
              && flat[i].oriPointIndex == 2 * i + 1 && flat[i].desPointIndex == 2 * i + 2
  {
    flat := [];
    var groupIndex := 1;
    var pointIndex := 1;
    for i := 0 to |zones|
      invariant |flat| == i && groupIndex == i + 1 && pointIndex == 2 * i + 1
      invariant forall j :: 0 <= j < i ==>
                  flat[j].zone == zones[j] && flat[j].groupIndex == j + 1
                  && flat[j].oriPointIndex == 2 * j + 1 && flat[j].desPointIndex == 2 * j + 2
    {
      var oriPointIndex := pointIndex;
      pointIndex := pointIndex + 1;
      var desPointIndex := pointIndex;
      pointIndex := pointIndex + 1;
      flat := flat + [FlatRecord(groupIndex, oriPointIndex, desPointIndex, zones[i])];
      groupIndex := groupIndex + 1;
    }
  }

  /** All point indices handed out are distinct and none is the depot's 0;
      a zone's destination index follows its origin index. */
  lemma PointIndicesDistinct(flat: seq<FlatRecord>)
    requires forall i :: 0 <= i < |flat| ==>
               flat[i].oriPointIndex == 2 * i + 1 && flat[i].desPointIndex == 2 * i + 2
    ensures forall i :: 0 <= i < |flat| ==>
              flat[i].oriPointIndex != 0 && flat[i].desPointIndex == flat[i].oriPointIndex + 1
    ensures forall i, j :: 0 <= i < j < |flat| ==>
              flat[i].oriPointIndex < flat[i].desPointIndex < flat[j].oriPointIndex < flat[j].desPointIndex
  {
  }

  /** The text meaning the chosen technique needs no pre-processing. */
  const NO_PREPROCESSING: string := "No preprocessing required"

  /** The non-missing values of a column. */
  function Valid(column: seq<Option<real>>): (vs: seq<real>)
    ensures |vs| <= |column|
  {
    if column == [] then []
    else Valid(column[..|column| - 1]) + (if column[|column| - 1].Some? then [column[|column| - 1].value] else [])
  }

  /** Filtering a column keeps the order of its values: the values of two
      pieces, one after the other. */
  lemma {:induction false} ValidAppend(a: seq<Option<real>>, b: seq<Option<real>>)
    ensures Valid(a + b) == Valid(a) + Valid(b)
    decreases |b|
  {
    if b == [] {
      assert a + b == a;
    } else {
      var b' := b[..|b| - 1];
      assert (a + b)[..|a + b| - 1] == a + b';
      assert b[..|b| - 1] == b';
      ValidAppend(a, b');
    }
  }

  /** The values kept are exactly those present in the column. */
  lemma {:induction false} ValidMembers(column: seq<Option<real>>)
    ensures forall x :: x in Valid(column) <==> Some(x) in column
  {
    if column != [] {
      var init := column[..|column| - 1];
      ValidMembers(init);
      assert column == init + [column[|column| - 1]];
    }
  }

  /** A single cell contributes its value when it has one, nothing otherwise. */
  lemma ValidCell(x: Option<real>)
    ensures Valid([x]) == (if x.Some? then [x.value] else [])
  {
    assert [x][..0] == [];
  }

  /** One column's contribution: nothing when it has no value, the zone's
      length over the column total otherwise; `None` when that total is zero
      and the float division gives infinity or NaN. */
  function ColumnTerm(total: real, column: seq<Option<real>>): Option<real>
  {
    if Valid(column) == [] then Some(0.0)
    else if Sum(Valid(column)) == 0.0 then None
    else Some(total / Sum(Valid(column)))
  }

  /** 2 hours, plus one term per procedure column, plus 2 more hours unless
      no pre-processing is needed. */
  function ProcessingTimeOf(total: real, columns: seq<seq<Option<real>>>, preprocessing: string): Option<real>
  {
    match ColumnTerms(total, columns)
    case None => None
    case Some(t) => Some(2.0 + t + (if preprocessing == NO_PREPROCESSING then 0.0 else 2.0))
  }

  function ColumnTerms(total: real, columns: seq<seq<Option<real>>>): Option<real>
  {
    if columns == [] then Some(0.0)
    else
      match (ColumnTerms(total, columns[..|columns| - 1]), ColumnTerm(total, columns[|columns| - 1]))
      case (Some(a), Some(b)) => Some(a + b)
      case _ => None
  }

  /** The processing-time loop over the eight procedure columns of the
      matching rows (each column given as its values down those rows). */
  method ProcessingTime(total: real, columns: seq<seq<Option<real>>>, preprocessing: string) returns (r: Option<real>)
    ensures r == ProcessingTimeOf(total, columns, preprocessing)
  {
    var time: Option<real> := Some(2.0);
    for c := 0 to |columns|
      invariant time == (match ColumnTerms(total, columns[..c]) case None => None case Some(t) => Some(2.0 + t))
    {
      assert columns[..c + 1][..c] == columns[..c];
      var column := columns[c];
      var term := ColumnTerm(total, column);
      if time.Some? && term.Some? {
        time := Some(time.value + term.value);
      } else {
        time := None;
      }
    }
    assert columns[..|columns|] == columns;
    if time.Some? {
      if preprocessing == NO_PREPROCESSING {
        r := Some(time.value + 0.0);
      } else {
        r := Some(time.value + 2.0);
      }
    } else {
      r := None;
    }
  }

  lemma {:induction false} ValidPositive(column: seq<Option<real>>)
    requires forall i :: 0 <= i < |column| && column[i].Some? ==> column[i].value > 0.0
    ensures Valid(column) != [] ==> Sum(Valid(column)) > 0.0
  {
    if column != [] {
      var init := column[..|column| - 1];
      forall i | 0 <= i < |init| && init[i].Some? ensures init[i].value > 0.0 {
        assert init[i] == column[i];
      }
      ValidPositive(init);
      var tail := if column[|column| - 1].Some? then [column[|column| - 1].value] else [];
      SumAppend(Valid(init), tail);
      if tail != [] {
        assert Sum(tail) == Sum([]) + tail[0];
      }
    }
  }

  lemma {:induction false} ColumnTermsNonNegative(total: real, columns: seq<seq<Option<real>>>)
    requires total >= 0.0
    requires forall c, i :: 0 <= c < |columns| && 0 <= i < |columns[c]| && columns[c][i].Some? ==> columns[c][i].value > 0.0
    ensures ColumnTerms(total, columns).Some? && ColumnTerms(total, columns).value >= 0.0
  {
    if columns != [] {
      var init := columns[..|columns| - 1];
      ColumnTermsNonNegative(total, init);
      ValidPositive(columns[|columns| - 1]);
    }
  }

  /** With a non-negative zone length and positive procedure values, the
      time is defined, at least 2 hours, and at least 4 when pre-processing
      is needed. */
  lemma ProcessingTimeBounds(total: real, columns: seq<seq<Option<real>>>, preprocessing: string)
    requires total >= 0.0
    requires forall c, i :: 0 <= c < |columns| && 0 <= i < |columns[c]| && columns[c][i].Some? ==> columns[c][i].value > 0.0
    ensures ProcessingTimeOf(total, columns, preprocessing).Some?
    ensures ProcessingTimeOf(total, columns, preprocessing).value >= 2.0
    ensures preprocessing != NO_PREPROCESSING ==> ProcessingTimeOf(total, columns, preprocessing).value >= 4.0
  {
    ColumnTermsNonNegative(total, columns);
  }

  /** The tasks a zone becomes: one for a two-lane road, two for a
      four-lane road, none otherwise. */
  function Copies(r: FlatRecord): seq<FlatRecord>
  {
    if r.zone.lineNum == 2 then [r] else if r.zone.lineNum == 4 then [r, r] else []
  }

  /** The task list in key order. */
  function Expanded(flat: seq<FlatRecord>): seq<FlatRecord>
  {
    if flat == [] then [] else Expanded(flat[..|flat| - 1]) + Copies(flat[|flat| - 1])
  }

  /** The number of tasks: one per two-lane zone and two per four-lane zone. */
  function CountLanes(flat: seq<FlatRecord>, n: int): nat
  {
    if flat == [] then 0
    else CountLanes(flat[..|flat| - 1], n) + (if flat[|flat| - 1].zone.lineNum == n then 1 else 0)
  }

  lemma {:induction false} ExpandedSize(flat: seq<FlatRecord>)
    ensures |Expanded(flat)| == CountLanes(flat, 2) + 2 * CountLanes(flat, 4)
  {
    if flat != [] {
      ExpandedSize(flat[..|flat| - 1]);
    }
  }

  /** Every task is a zone of the input with two or four lanes. */
  lemma {:induction false} ExpandedFromInput(flat: seq<FlatRecord>, k: int)
    requires 0 <= k < |Expanded(flat)|
    ensures Expanded(flat)[k] in flat
    ensures Expanded(flat)[k].zone.lineNum == 2 || Expanded(flat)[k].zone.lineNum == 4
  {
    var init := flat[..|flat| - 1];
    if k < |Expanded(init)| {
      ExpandedFromInput(init, k);
      assert Expanded(flat)[k] == Expanded(init)[k];
    }
  }

  /** The `MR_info` loop: keys run 1, 2, ... in order; a four-lane zone
      fills two consecutive keys with the same record. */
  method ExpandByLineNum(flat: seq<FlatRecord>) returns (order: seq<nat>, info: map<nat, FlatRecord>)
    ensures |order| == |Expanded(flat)|
    ensures forall k :: 0 <= k < |order| ==> order[k] == k + 1
    ensures forall key :: key in info <==> 1 <= key <= |order|
    ensures forall k :: 0 <= k < |order| ==> info[k + 1] == Expanded(flat)[k]
  {
    order, info := [], map[];
    var currentIndex := 1;
    for i := 0 to |flat|
      invariant Keyed(Expanded(flat[..i]), order, info) && currentIndex == |order| + 1
    {
      var row := flat[i];
      assert flat[..i + 1][..i] == flat[..i];
      ghost var tasks := Expanded(flat[..i]);
      assert Expanded(flat[..i + 1]) == tasks + Copies(row);
      if row.zone.lineNum == 2 {
        KeyedAdd(tasks, order, info, row);
        info := info[currentIndex := row];
        order := order + [currentIndex];
        currentIndex := currentIndex + 1;
      } else if row.zone.lineNum == 4 {
        KeyedAdd(tasks, order, info, row);
        info := info[currentIndex := row];
        order := order + [currentIndex];
        currentIndex := currentIndex + 1;
        KeyedAdd(tasks + [row], order, info, row);
        assert tasks + [row] + [row] == tasks + Copies(row);
        info := info[currentIndex := row];
        order := order + [currentIndex];
        currentIndex := currentIndex + 1;
      } else {
        assert tasks + Copies(row) == tasks;
      }
    }
    assert flat[..|flat|] == flat;
  }

  /** `order` lists the keys 1, 2, ... of `info`, and key `k + 1` holds
      task `k`. */
  ghost predicate Keyed(tasks: seq<FlatRecord>, order: seq<nat>, info: map<nat, FlatRecord>)
  {
    && |order| == |tasks|
    && (forall k :: 0 <= k < |order| ==> order[k] == k + 1)
    && (forall key :: key in info <==> 1 <= key <= |order|)
    && (forall k :: 0 <= k < |order| ==> info[k + 1] == tasks[k])
  }

  lemma KeyedAdd(tasks: seq<FlatRecord>, order: seq<nat>, info: map<nat, FlatRecord>, r: FlatRecord)
    requires Keyed(tasks, order, info)
    ensures Keyed(tasks + [r], order + [|order| + 1], info[|order| + 1 := r])
  {
  }

  /** The task record the travel-time table reads. */
  function ToTaskInfo(r: FlatRecord): TaskTopology.TaskInfo
  {
    TaskTopology.TaskInfo(r.oriPointIndex, r.desPointIndex, r.zone.side, r.zone.processingTime,
                          r.zone.oriLon, r.zone.oriLat)
  }

  /** The expansion's keys meet what the table builder needs: listed once
      each, exactly the keys present, and never the depot's 0. */
  lemma ExpansionKeysFitTable(order: seq<nat>, info: map<nat, FlatRecord>)
    requires forall k :: 0 <= k < |order| ==> order[k] == k + 1
    requires forall key :: key in info <==> 1 <= key <= |order|
    ensures var tasks := map key | key in info :: ToTaskInfo(info[key]);
      && TaskTopology.Distinct(order)
      && (forall k :: k in order <==> k in tasks)
      && TaskTopology.DEPOT !in tasks
  {
    var tasks := map key | key in info :: ToTaskInfo(info[key]);
    forall k | k in tasks ensures k in order {
      assert order[k - 1] == k;
    }
  }
}
