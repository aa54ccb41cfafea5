/**
 * The maintenance-technique recommender: a rule cascade scores candidate
 * techniques for a road section from its condition indices, road class,
 * traffic load and distress type; a manager object keeps the scored list and
 * a cost table and returns the suggestions with the highest total score,
 * cheapest first; each is annotated with whether the distress needs
 * pre-processing before that technique.
 */
module Suggestions {
  import opened Common
  import StableSort

  // ---------------------------------------------------------------------
  // Suggestions and their ranking
  // ---------------------------------------------------------------------

  /** A technique name: a plain name, or a (name, variant description) pair. */
  datatype TechName = Plain(name: string) | Detailed(name: string, description: string)

  /** The three scores: fit for the road class, the traffic load, the distress. */
  type Scores = (int, int, int)

  datatype Suggestion = Suggestion(name: TechName, values: Scores)

  /** An entry of the ranking: name, scores and cost. */
  datatype Ranked = Ranked(name: TechName, values: Scores, cost: ExtReal)

  function Score(v: Scores): int
  {
    v.0 + v.1 + v.2
  }

  /** `costs.get(name_simplified, float('inf'))`: the cost of a technique is
      looked up by its plain name. */
  function CostOf(costs: map<string, real>, name: TechName): ExtReal
  {
    if name.name in costs then Finite(costs[name.name]) else Inf
  }

  function RankedOf(costs: map<string, real>, s: Suggestion): Ranked
  {
    Ranked(s.name, s.values, CostOf(costs, s.name))
  }

  function MaxScore(s: seq<Suggestion>): (m: int)
    requires |s| >= 1
    ensures exists i :: 0 <= i < |s| && Score(s[i].values) == m
    ensures forall i :: 0 <= i < |s| ==> Score(s[i].values) <= m
  {
    if |s| == 1 then Score(s[0].values)
    else
      var m := MaxScore(s[..|s| - 1]);
      assert forall i :: 0 <= i < |s| - 1 ==> s[..|s| - 1][i] == s[i];
      if Score(s[|s| - 1].values) > m then Score(s[|s| - 1].values) else m
  }

  /** The suggestions scoring `m`, in list order, with their costs. */
  function AtScore(s: seq<Suggestion>, m: int, costs: map<string, real>): seq<Ranked>
  {
    if s == [] then []
    else
      AtScore(s[..|s| - 1], m, costs)
      + (if Score(s[|s| - 1].values) == m then [RankedOf(costs, s[|s| - 1])] else [])
  }

  function CostKey(r: Ranked): ExtReal
  {
    r.cost
  }

  /** The answer of `compare_MR_suggestions` on a non-empty list: the
      suggestions with the highest total, stably ordered by cost. */
  function Best(s: seq<Suggestion>, costs: map<string, real>): seq<Ranked>
    requires |s| >= 1
  {
    StableSort.InsertionSort(AtScore(s, MaxScore(s), costs), CostKey)
  }

  lemma {:induction false} AtScoreMembers(s: seq<Suggestion>, m: int, costs: map<string, real>, r: Ranked)
    ensures r in AtScore(s, m, costs) <==>
              exists i :: 0 <= i < |s| && Score(s[i].values) == m && r == RankedOf(costs, s[i])
  {
    if s != [] {
      var init := s[..|s| - 1];
      AtScoreMembers(init, m, costs, r);
      assert forall i :: 0 <= i < |init| ==> init[i] == s[i];
    }
  }

  /** The ranking holds exactly the top-scoring suggestions, each with its
      cost, and is ordered by cost. */
  lemma BestIsTopScoring(s: seq<Suggestion>, costs: map<string, real>, r: Ranked)
    requires |s| >= 1
    ensures r in Best(s, costs) <==>
              exists i :: 0 <= i < |s| && Score(s[i].values) == MaxScore(s) && r == RankedOf(costs, s[i])
    ensures r in Best(s, costs) ==> forall i :: 0 <= i < |s| ==> Score(s[i].values) <= Score(r.values)
    ensures StableSort.SortedBy(Best(s, costs), CostKey)
  {
    var top := AtScore(s, MaxScore(s), costs);
    AtScoreMembers(s, MaxScore(s), costs, r);
    assert r in Best(s, costs) <==> r in multiset(Best(s, costs));
    assert multiset(Best(s, costs)) == multiset(top);
  }

  /** Python's `None` default of `add_suggestion`: a missing score is 0. */
  function OrZero(v: Option<int>): int
  {
    if v.Some? then v.value else 0
  }

  /** The index of the first suggestion with a given name. */
  function FirstWith(s: seq<Suggestion>, name: TechName): (r: Option<nat>)
    ensures r.Some? ==> r.value < |s| && s[r.value].name == name
                        && forall j :: 0 <= j < r.value ==> s[j].name != name
    ensures r.None? ==> forall j :: 0 <= j < |s| ==> s[j].name != name
  {
    if s == [] then None
    else if s[0].name == name then Some(0)
    else
      match FirstWith(s[1..], name)
      case None => None
      case Some(k) => Some(k + 1)
  }

  /** `values` with `position` replaced. */
  function SetScore(v: Scores, position: int, x: int): Scores
    requires 0 <= position <= 2
  {
    if position == 0 then (x, v.1, v.2) else if position == 1 then (v.0, x, v.2) else (v.0, v.1, x)
  }

  /** The two `ValueError`s of `update_suggestion`, or success. */
  datatype UpdateOutcome = Updated | BadPosition | NameNotFound

  predicate DistinctNames(d: seq<(string, real)>)
  {
    forall i, j :: 0 <= i < j < |d| ==> d[i].0 != d[j].0
  }

  class SuggestionsManager {
    var suggestions: seq<Suggestion>
    var costs: map<string, real>

    constructor ()
      ensures suggestions == [] && costs == map[]
    {
      suggestions := [];
      costs := map[];
    }

    /** Appends one suggestion; a missing score counts 0. */
    method AddSuggestion(name: TechName, value1: Option<int>, value2: Option<int>, value3: Option<int>)
      modifies this
      ensures suggestions == old(suggestions) + [Suggestion(name, (OrZero(value1), OrZero(value2), OrZero(value3)))]
      ensures costs == old(costs)
    {
      var v1 := if value1.Some? then value1.value else 0;
      var v2 := if value2.Some? then value2.value else 0;
      var v3 := if value3.Some? then value3.value else 0;
      suggestions := suggestions + [Suggestion(name, (v1, v2, v3))];
    }

    /** Sets one score of the first suggestion with `name`. */
    method UpdateSuggestion(name: TechName, position: int, newValue: int) returns (outcome: UpdateOutcome)
      modifies this
      ensures costs == old(costs)
      ensures (position < 0 || position > 2) ==> outcome == BadPosition && suggestions == old(suggestions)
      ensures 0 <= position <= 2 && FirstWith(old(suggestions), name).None? ==>
                outcome == NameNotFound && suggestions == old(suggestions)
      ensures 0 <= position <= 2 && FirstWith(old(suggestions), name).Some? ==>
                var i := FirstWith(old(suggestions), name).value;
                outcome == Updated
                && suggestions == old(suggestions)[i := Suggestion(name, SetScore(old(suggestions)[i].values, position, newValue))]
    {
      if position < 0 || position > 2 {
        return BadPosition;
      }
      for i := 0 to |suggestions|
        invariant forall j :: 0 <= j < i ==> suggestions[j].name != name
        invariant suggestions == old(suggestions)
      {
        if suggestions[i].name == name {
          var values := SetScore(suggestions[i].values, position, newValue);
          suggestions := suggestions[i := Suggestion(suggestions[i].name, values)];
          return Updated;
        }
      }
      return NameNotFound;
    }

    /** Records every (name, cost) of the table; other costs are kept. */
    method InputCosts(costTable: seq<(string, real)>)
      requires DistinctNames(costTable)
      modifies this
      ensures suggestions == old(suggestions)
      ensures forall k :: k in costs <==> k in old(costs) || exists j :: 0 <= j < |costTable| && costTable[j].0 == k
      ensures forall j :: 0 <= j < |costTable| ==> costs[costTable[j].0] == costTable[j].1
      ensures forall k :: k in old(costs) && (forall j :: 0 <= j < |costTable| ==> costTable[j].0 != k) ==>
                costs[k] == old(costs)[k]
    {
      for i := 0 to |costTable|
        invariant suggestions == old(suggestions)
        invariant forall k :: k in costs <==> k in old(costs) || exists j :: 0 <= j < i && costTable[j].0 == k
        invariant forall j :: 0 <= j < i ==> costs[costTable[j].0] == costTable[j].1
        invariant forall k :: k in old(costs) && (forall j :: 0 <= j < i ==> costTable[j].0 != k) ==>
                    costs[k] == old(costs)[k]
      {
        var (name, cost) := costTable[i];
        if !(exists j :: 0 <= j < |suggestions| && suggestions[j].name.name == name) {
          costs := costs[name := cost];
        }
        costs := costs[name := cost];
      }
    }

    /** `compare_MR_suggestions`: `None` for an empty list; otherwise the
        top-scoring suggestions, cheapest first. */
    method CompareSuggestions() returns (best: Option<seq<Ranked>>)
      ensures best.None? <==> suggestions == []
      ensures best.Some? ==> |suggestions| >= 1 && best.value == Best(suggestions, costs)
    {
      if suggestions == [] {
        return None;
      }
      var maxSum := Score(suggestions[0].values);
      var top := [RankedOf(costs, suggestions[0])];
      assert suggestions[..1] == [suggestions[0]];
      assert AtScore(suggestions[..1], maxSum, costs) == AtScore([], maxSum, costs) + top;
      for i := 1 to |suggestions|
        invariant maxSum == MaxScore(suggestions[..i])
        invariant top == AtScore(suggestions[..i], maxSum, costs)
      {
        var s := suggestions[i];
        var valueSum := Score(s.values);
        assert suggestions[..i + 1] == suggestions[..i] + [s];
        TopStep(suggestions[..i], s, maxSum, costs);
        if valueSum > maxSum {
          maxSum := valueSum;
          top := [RankedOf(costs, s)];
        } else if valueSum == maxSum {
          top := top + [RankedOf(costs, s)];
        }
      }
      assert suggestions[..|suggestions|] == suggestions;
      best := Some(StableSort.InsertionSort(top, CostKey));
    }
  }

  /** One turn of the maximum loop of `compare_MR_suggestions`: a higher
      score restarts the list, an equal one joins it. */
  lemma TopStep(prefix: seq<Suggestion>, s: Suggestion, maxSum: int, costs: map<string, real>)
    requires |prefix| >= 1 && maxSum == MaxScore(prefix)
    ensures var v := Score(s.values);
      && MaxScore(prefix + [s]) == (if v > maxSum then v else maxSum)
      && AtScore(prefix + [s], MaxScore(prefix + [s]), costs)
         == (if v > maxSum then [RankedOf(costs, s)]
             else if v == maxSum then AtScore(prefix, maxSum, costs) + [RankedOf(costs, s)]
             else AtScore(prefix, maxSum, costs))
  {
    var all := prefix + [s];
    assert all[..|all| - 1] == prefix;
    if Score(s.values) > maxSum {
      AtScoreAbove(prefix, Score(s.values), costs);
    }
  }

  /** No suggestion scores above the maximum. */
  lemma {:induction false} AtScoreAbove(s: seq<Suggestion>, m: int, costs: map<string, real>)
    requires forall i :: 0 <= i < |s| ==> Score(s[i].values) < m
    ensures AtScore(s, m, costs) == []
  {
    if s != [] {
      var init := s[..|s| - 1];
      assert forall i :: 0 <= i < |init| ==> init[i] == s[i];
      AtScoreAbove(init, m, costs);
    }
  }

  // ---------------------------------------------------------------------
  // The rule cascade
  // ---------------------------------------------------------------------

  function S(name: string, v1: int, v2: int, v3: int): Suggestion
  {
    Suggestion(Plain(name), (v1, v2, v3))
  }

  function D(name: string, description: string, v1: int, v2: int, v3: int): Suggestion
  {
    Suggestion(Detailed(name, description), (v1, v2, v3))
  }

  function When(c: bool, s: Suggestion): seq<Suggestion>
  {
    if c then [s] else []
  }

  /** An `if` / `elif` pair that adds one of two suggestions, or neither. */
  function Either(c1: bool, s1: Suggestion, c2: bool, s2: Suggestion): seq<Suggestion>
  {
    if c1 then [s1] else if c2 then [s2] else []
  }

  /** Python's `test or "lit1" or "lit2" ...`: a non-empty string literal is
      truthy, so the whole test is true whenever one literal is non-empty. */
  predicate PyOr(test: bool, literals: seq<string>)
  {
    test || exists l :: l in literals && l != ""
  }

  predicate Mottled(d: string) { PyOr(d == "Mottled Surface", ["Pavement Seepage", "Asphalt Aging"]) }
  predicate SkidFour(d: string) { PyOr(d == "Skid Resistance Loss", ["Pavement Seepage", "Pavement Abrasion", "Asphalt Aging"]) }
  predicate SkidFive(d: string)
  {
    PyOr(d == "Skid Resistance Loss", ["Pavement Seepage", "Pavement Abrasion", "Asphalt Aging", "Pavement Unevenness"])
  }
  predicate SkidThree(d: string) { PyOr(d == "Skid Resistance Loss", ["Pavement Seepage", "Pavement Abrasion"]) }
  predicate AgingUneven(d: string) { PyOr(d == "Asphalt Aging", ["Pavement Unevenness"]) }
  predicate SkidAbrasionAging(d: string) { PyOr(d == "Skid Resistance Loss", ["Pavement Abrasion", "Asphalt Aging"]) }
  predicate SeepageUneven(d: string) { PyOr(d == "Pavement Seepage", ["Pavement Unevenness"]) }

  predicate LightLoad(load: string) { load == "Moderate" || load == "Light" }
  predicate KnownLoad(load: string) { load == "Heavy" || LightLoad(load) }

  function FogSealing(load: string): Suggestion
  {
    if LightLoad(load) then S("Fog Sealing", 1, 1, 1) else S("Fog Sealing", 1, 0, 1)
  }

  function StoneFiber(load: string): Suggestion
  {
    if LightLoad(load) then S("Stone-Fiber Sealing", 1, 1, 1) else S("Stone-Fiber Sealing", 1, 0, 1)
  }

  function Slurry(load: string): Suggestion
  {
    if LightLoad(load) then S("Slurry Sealing", 1, 1, 1) else S("Slurry Sealing", 1, 1, 0)
  }

  const MICRO: string := "Micro-Surfacing"
  const FILL_RUTS: string := "Micro-Surfacing (fill ruts before sealing)"
  const STRUCTURAL: Suggestion := S("Structural Rehabilitation", 1, 1, 1)
  const INVALID: Suggestion := S("Invalid road type or insufficient data", 1, 1, 1)

  function HighwayRules(pci: int, rdi: int, sri: int, load: string, d: string): seq<Suggestion>
  {
    When(pci >= 93 && rdi >= 93 && sri >= 80 && Mottled(d), FogSealing(load))
    + When(pci >= 90 && rdi >= 90 && SkidFour(d), D(MICRO, MICRO, 1, 1, 1))
    + When(pci >= 90 && 60 <= rdi < 90 && SkidFour(d), D(MICRO, FILL_RUTS, 1, 1, 1))
    + When(pci >= 85 && rdi >= 85 && SkidFour(d), D("Composite Sealing", "Stone/Fiber Sealing plus Micro-Surfacing", 1, 1, 1))
    + (if pci >= 88 && rdi >= 85 && SkidFour(d) then
         Either(SkidThree(d), S("Ultra-Thin Overlay", 1, 1, 1), d == "Asphalt Aging", S("Ultra-Thin Overlay", 1, 1, 0))
       else [])
    + (if pci >= 85 && rdi >= 80 && SkidFive(d) then
         Either(SkidThree(d), S("Thin Overlay", 1, 1, 1), AgingUneven(d), S("Thin Overlay", 1, 1, 0))
       else [])
    + When(pci >= 80 && SkidFive(d), S("Overlay", 1, 1, 1))
    + (if pci >= 83 && rdi >= 80 then
         Either(SkidThree(d), S("Sealing Overlay", 1, 1, 1), AgingUneven(d), S("Sealing Overlay", 1, 1, 0))
       else [])
    + (if pci >= 85 && rdi >= 75 then
         Either(SkidAbrasionAging(d), S("In-situ Thermal Regeneration", 1, 1, 1),
                SeepageUneven(d), S("In-situ Thermal Regeneration", 1, 1, 0))
       else [STRUCTURAL])
  }

  function FirstClassRules(pci: int, rdi: int, sri: int, load: string, d: string): seq<Suggestion>
  {
    When(pci >= 90 && rdi >= 90 && sri >= 80 && Mottled(d), FogSealing(load))
    + When(pci >= 85 && rdi >= 90 && SkidFour(d), D(MICRO, MICRO, 1, 1, 1))
    + When(pci >= 85 && 60 <= rdi < 90 && SkidFour(d), D(MICRO, FILL_RUTS, 1, 1, 1))
    + When(pci >= 80 && rdi >= 80 && SkidFour(d), D("Composite Sealing", "Stone/Fiber Sealing plus Micro-Surfacing", 1, 1, 1))
    + (if pci >= 80 && rdi >= 80 && SkidFive(d) then
         Either(SkidThree(d), S("Thin Overlay", 1, 1, 1), AgingUneven(d), S("Thin Overlay", 1, 1, 0))
       else [])
    + (if pci >= 83 && rdi >= 80 && SkidFour(d) then
         Either(SkidThree(d), S("Ultra-Thin Overlay", 1, 1, 1), d == "Asphalt Aging", S("Ultra-Thin Overlay", 1, 1, 0))
       else [])
    + When(pci >= 75 && SkidFive(d), S("Overlay", 1, 1, 1))
    + (if pci >= 80 && rdi >= 80 then
         Either(SkidThree(d), S("Sealing Overlay", 1, 1, 1), AgingUneven(d), S("Sealing Overlay", 1, 1, 0))
       else [])
    + (if pci >= 80 && rdi >= 70 then
         Either(SkidAbrasionAging(d), S("In-situ Thermal Regeneration", 1, 1, 1),
                SeepageUneven(d), S("In-situ Thermal Regeneration", 1, 1, 0))
       else [STRUCTURAL])
  }

  function SecondClassRules(pci: int, rdi: int, sri: int, load: string, d: string): seq<Suggestion>
  {
    When(pci >= 90 && rdi >= 90 && sri >= 80 && Mottled(d), FogSealing(load))
    + When(pci >= 82 && rdi >= 82 && SkidFour(d), StoneFiber(load))
    + When(pci >= 85 && rdi >= 85 && SkidFour(d) && KnownLoad(load), Slurry(load))
    + When(pci >= 85 && rdi >= 90 && SkidFour(d), D(MICRO, MICRO, 1, 1, 1))
    + When(pci >= 85 && 60 <= rdi < 90 && SkidFour(d), D(MICRO, FILL_RUTS, 1, 1, 1))
    + When(pci >= 80 && rdi >= 80 && SkidFour(d),
           if KnownLoad(load) then D("Composite Sealing", "Stone Sealing plus Slurry Sealing", 1, 1, 1)
           else D("Composite Sealing", "Stone Sealing or Fiber Sealing plus Micro-Surfacing", 1, 1, 1))
    + (if pci >= 80 && SkidFive(d) then
         Either(SkidThree(d), S("Thin Overlay", 1, 1, 1), AgingUneven(d), S("Thin Overlay", 1, 1, 0))
       else [])
    + (if pci >= 83 && SkidFour(d) then
         Either(SkidThree(d), S("Ultra-Thin Overlay", 0, 1, 1), d == "Asphalt Aging", S("Ultra-Thin Overlay", 0, 1, 0))
       else [])
    + When(pci >= 75 && SkidFive(d), S("Overlay", 1, 1, 1))
    + (if pci >= 80 then
         Either(SkidThree(d), S("Sealing Overlay", 1, 1, 1), AgingUneven(d), S("Sealing Overlay", 1, 1, 0))
       else [])
    + (if pci >= 80 && rdi >= 70 then
         Either(SkidAbrasionAging(d), S("In-situ Thermal Regeneration", 1, 1, 1),
                SeepageUneven(d), S("In-situ Thermal Regeneration", 1, 1, 0))
       else [STRUCTURAL])
  }

  /** The third- and fourth-class cascades differ only in the stone-fibre
      sealing rule: rut index at least 80, or between 60 and 90. */
  function LowClassRules(fourth: bool, pci: int, rdi: int, load: string, d: string): seq<Suggestion>
  {
    When(pci >= 85 && rdi >= 85 && Mottled(d), FogSealing(load))
    + When(pci >= 80 && (if fourth then 60 <= rdi < 90 else rdi >= 80) && SkidFour(d), StoneFiber(load))
    + When(pci >= 80 && rdi >= 80 && SkidFour(d) && KnownLoad(load), Slurry(load))
    + When(pci >= 80 && rdi >= 90 && SkidFour(d), D(MICRO, MICRO, 0, 1, 1))
    + When(pci >= 80 && 60 <= rdi < 90 && SkidFour(d), D(MICRO, FILL_RUTS, 0, 1, 1))
    + When(pci >= 75 && rdi >= 75 && KnownLoad(load) && SkidFour(d),
           D("Composite Sealing", "Stone Sealing plus Slurry Sealing", 1, 1, 1))
    + (if pci >= 80 && SkidFive(d) then
         Either(SkidThree(d), S("Thin Overlay", 1, 1, 1), AgingUneven(d), S("Thin Overlay", 1, 1, 0))
       else [])
    + (if pci >= 80 && SkidFour(d) then
         Either(SkidThree(d), S("Ultra-Thin Overlay", 0, 1, 1), d == "Asphalt Aging", S("Ultra-Thin Overlay", 0, 1, 0))
       else [])
    + When(pci >= 70 && SkidFive(d), S("Overlay", 1, 1, 1))
    + (if pci >= 80 then
         Either(SkidThree(d), S("Sealing Overlay", 1, 1, 1), AgingUneven(d), S("Sealing Overlay", 1, 1, 0))
       else [STRUCTURAL])
  }

  /** The suggestions `decision_tree_rule` adds, in the order it adds them. */
  function Rules(pci: int, rdi: int, sri: int, roadType: string, load: string, d: string): seq<Suggestion>
  {
    if roadType == "Highway" then HighwayRules(pci, rdi, sri, load, d)
    else if roadType == "First Class" then FirstClassRules(pci, rdi, sri, load, d)
    else if roadType == "Second Class" then SecondClassRules(pci, rdi, sri, load, d)
    else if roadType == "Third Class" then LowClassRules(false, pci, rdi, load, d)
    else if roadType == "Fourth Class" then LowClassRules(true, pci, rdi, load, d)
    else [INVALID]
  }

  /** Every distress test written `X == "a" or "b" ...` holds, whatever the
      distress: only the thresholds decide. */
  lemma DistressTestsAlwaysHold(d: string)
    ensures Mottled(d) && SkidFour(d) && SkidFive(d) && SkidThree(d)
    ensures AgingUneven(d) && SkidAbrasionAging(d) && SeepageUneven(d)
  {
    assert "Pavement Seepage" in ["Pavement Seepage", "Asphalt Aging"];
    assert "Pavement Seepage" in ["Pavement Seepage", "Pavement Abrasion", "Asphalt Aging"];
    assert "Pavement Seepage" in ["Pavement Seepage", "Pavement Abrasion", "Asphalt Aging", "Pavement Unevenness"];
    assert "Pavement Seepage" in ["Pavement Seepage", "Pavement Abrasion"];
    assert "Pavement Unevenness" in ["Pavement Unevenness"];
    assert "Pavement Abrasion" in ["Pavement Abrasion", "Asphalt Aging"];
  }

  /** On a highway, "Overlay" is suggested exactly when PCI is at least 80. */
  lemma HighwayOverlay(pci: int, rdi: int, sri: int, load: string, d: string)
    ensures S("Overlay", 1, 1, 1) in Rules(pci, rdi, sri, "Highway", load, d) <==> pci >= 80
  {
    DistressTestsAlwaysHold(d);
  }

  /** The reduced Ultra-Thin Overlay of the `elif` is never reached, the
      test before it being always true. */
  lemma HighwayUltraThinAlwaysFull(pci: int, rdi: int, sri: int, load: string, d: string)
    ensures S("Ultra-Thin Overlay", 1, 1, 0) !in Rules(pci, rdi, sri, "Highway", load, d)
  {
    HighwayFirstBranches(d);
  }

  /** On a highway every `if` / `elif` pair takes its first branch. */
  lemma HighwayFirstBranches(d: string)
    ensures Mottled(d) && SkidFour(d) && SkidFive(d)
    ensures Either(SkidThree(d), S("Ultra-Thin Overlay", 1, 1, 1), d == "Asphalt Aging", S("Ultra-Thin Overlay", 1, 1, 0))
         == [S("Ultra-Thin Overlay", 1, 1, 1)]
    ensures Either(SkidThree(d), S("Thin Overlay", 1, 1, 1), AgingUneven(d), S("Thin Overlay", 1, 1, 0))
         == [S("Thin Overlay", 1, 1, 1)]
    ensures Either(SkidThree(d), S("Sealing Overlay", 1, 1, 1), AgingUneven(d), S("Sealing Overlay", 1, 1, 0))
         == [S("Sealing Overlay", 1, 1, 1)]
    ensures Either(SkidAbrasionAging(d), S("In-situ Thermal Regeneration", 1, 1, 1),
                   SeepageUneven(d), S("In-situ Thermal Regeneration", 1, 1, 0))
         == [S("In-situ Thermal Regeneration", 1, 1, 1)]
  {
    DistressTestsAlwaysHold(d);
  }

  /** On a highway, structural rehabilitation is suggested exactly when
      not both PCI >= 85 and RDI >= 75. */
  lemma HighwayStructural(pci: int, rdi: int, sri: int, load: string, d: string)
    ensures STRUCTURAL in Rules(pci, rdi, sri, "Highway", load, d) <==> !(pci >= 85 && rdi >= 75)
  {
    HighwayFirstBranches(d);
  }

  /** An unknown road type gives only the invalid-input suggestion; every
      road type gives at least one suggestion. */
  lemma RulesNeverEmpty(pci: int, rdi: int, sri: int, roadType: string, load: string, d: string)
    ensures roadType !in {"Highway", "First Class", "Second Class", "Third Class", "Fourth Class"} ==>
              Rules(pci, rdi, sri, roadType, load, d) == [INVALID]
    ensures |Rules(pci, rdi, sri, roadType, load, d)| >= 1
  {
    DistressTestsAlwaysHold(d);
  }

  // ---------------------------------------------------------------------
  // Costs, pre-processing and the whole rule
  // ---------------------------------------------------------------------

  /** The cost table `decision_tree_rule` passes to `input_costs`. */
  const COSTS: seq<(string, real)> := [
    ("Fog Sealing", 9.8), ("Stone-Fiber Sealing", 40.0), ("Slurry Sealing", 30.0),
    ("Micro-Surfacing", 22.5), ("Composite Sealing", 30.0), ("Thin Overlay", 63.37),
    ("Ultra-Thin Overlay", 50.0), ("Sealing Overlay", 55.0), ("In-situ Thermal Regeneration", 60.0),
    ("Overlay", 70.0), ("Structural Rehabilitation", 75.0)]

  function CostTable(): map<string, real>
  {
    map j | 0 <= j < |COSTS| :: COSTS[j].0 := COSTS[j].1
  }

  /** The text for a pre-processing cell: a tick, a triangle, or anything
      else (including no matching cell). */
  function PreprocessingText(cell: Option<string>): (text: string)
    ensures cell == Some("\U{2713}") ==> text == "No preprocessing required"
    ensures cell == Some("\U{25B3}") ==> text == "Preprocessing optional"
    ensures cell != Some("\U{2713}") && cell != Some("\U{25B3}") ==> text == "Preprocessing needed"
  {
    if cell == Some("\U{2713}") then "No preprocessing required"
    else if cell == Some("\U{25B3}") then "Preprocessing optional"
    else "Preprocessing needed"
  }

  datatype Recommendation = Recommendation(name: TechName, values: Scores, cost: ExtReal, preprocessing: string)

  /** `decision_tree_rule`: runs the cascade through a fresh manager, prices
      the suggestions, ranks them, and annotates each with its pre-processing
      text. `preprocessing` is the spreadsheet cell for a technique under the
      section's distress type and severity. */
  method DecisionTreeRule(pci: int, rdi: int, sri: int, roadType: string, load: string, d: string,
                          preprocessing: string -> Option<string>)
    returns (best: seq<Recommendation>)
    ensures var s := Rules(pci, rdi, sri, roadType, load, d);
      |s| >= 1 && Recommends(best, s, preprocessing)
  {
    var rules := Rules(pci, rdi, sri, roadType, load, d);
    RulesNeverEmpty(pci, rdi, sri, roadType, load, d);
    best := RankRules(rules, preprocessing);
  }

  /** `best` is the ranking of `s` under the cost table, each entry with its
      pre-processing text. */
  predicate Recommends(best: seq<Recommendation>, s: seq<Suggestion>, preprocessing: string -> Option<string>)
    requires |s| >= 1
  {
    && |best| == |Best(s, CostTable())|
    && forall i :: 0 <= i < |best| ==>
         var r := Best(s, CostTable())[i];
         best[i] == Recommendation(r.name, r.values, r.cost, PreprocessingText(preprocessing(r.name.name)))
  }

  /** The part of `decision_tree_rule` after the cascade. */
  method RankRules(rules: seq<Suggestion>, preprocessing: string -> Option<string>) returns (best: seq<Recommendation>)
    requires |rules| >= 1
    ensures Recommends(best, rules, preprocessing)
  {
    var manager := new SuggestionsManager();
    for i := 0 to |rules|
      invariant manager.suggestions == rules[..i] && manager.costs == map[]
    {
      var v := rules[i].values;
      manager.AddSuggestion(rules[i].name, Some(v.0), Some(v.1), Some(v.2));
      assert rules[..i + 1] == rules[..i] + [Suggestion(rules[i].name, (v.0, v.1, v.2))];
    }
    assert rules[..|rules|] == rules;
    CostNamesDistinct();
    manager.InputCosts(COSTS);
    CostsRecorded(manager.costs);
    var ranked := manager.CompareSuggestions();
    best := Annotate(ranked.value, preprocessing);
  }

  /** The preprocessing column added to each ranked technique. */
  method Annotate(top: seq<Ranked>, preprocessing: string -> Option<string>) returns (best: seq<Recommendation>)
    ensures |best| == |top|
    ensures forall j :: 0 <= j < |top| ==>
              best[j] == Recommendation(top[j].name, top[j].values, top[j].cost,
                                        PreprocessingText(preprocessing(top[j].name.name)))
  {
    best := [];
    for i := 0 to |top|
      invariant |best| == i
      invariant forall j :: 0 <= j < i ==>
                  best[j] == Recommendation(top[j].name, top[j].values, top[j].cost,
                                            PreprocessingText(preprocessing(top[j].name.name)))
    {
      var r := top[i];
      var text := PreprocessingText(preprocessing(r.name.name));
      best := best + [Recommendation(r.name, r.values, r.cost, text)];
    }
  }

  lemma CostNamesDistinct()
    ensures DistinctNames(COSTS)
  {
  }

  /** After `input_costs` on an empty table the costs are exactly the table. */
  lemma CostsRecorded(costs: map<string, real>)
    requires forall k :: k in costs <==> exists j :: 0 <= j < |COSTS| && COSTS[j].0 == k
    requires forall j :: 0 <= j < |COSTS| ==> costs[COSTS[j].0] == COSTS[j].1
    ensures costs == CostTable()
  {
  }
}
