/**
 * The segment grouping of the mission script: every road section of a
 * mission is filed under each side of the road its condition mentions; the
 * sections of a side are ordered by start milestone and cut into work zones,
 * a section joining the current zone while its start lies less than 4 km from
 * the zone's first start; each zone is summarised by its total length, its
 * smallest start and its largest end. Also the side dispatch of the condition
 * parser, which decides which sides a condition text speaks of.
 */
module SegmentGrouping {
  import opened Common
  import StableSort

  // ---------------------------------------------------------------------
  // Filing sections under sides
  // ---------------------------------------------------------------------

  /** A section of a mission: milestones, length, and the sides (keys of its
      parsed condition) in dictionary order, the `order` of the
      `ConditionDetail` that `ParseCondition` returns. */
  datatype Detail = Detail(ori: real, des: real, distance: real, sides: seq<string>)

  /** A section as filed under a side, with `sub_index` set to its key. */
  datatype Item = Item(subIndex: nat, detail: Detail)

  /** The `grouped` dictionary: sides in first-seen order, and their items. */
  datatype Grouped = Grouped(order: seq<string>, groups: map<string, seq<Item>>)

  predicate DistinctSides(s: seq<string>)
  {
    forall i, j :: 0 <= i < j < |s| ==> s[i] != s[j]
  }

  /** `grouped[side].append(item)` on a `defaultdict(list)`. */
  function Append(g: Grouped, side: string, item: Item): Grouped
  {
    if side in g.groups then Grouped(g.order, g.groups[side := g.groups[side] + [item]])
    else Grouped(g.order + [side], g.groups[side := [item]])
  }

  /** The inner loop over the sides of one section. */
  function AppendToSides(g: Grouped, sides: seq<string>, item: Item): Grouped
  {
    if sides == [] then g
    else Append(AppendToSides(g, sides[..|sides| - 1], item), sides[|sides| - 1], item)
  }

  /** The outer loop over the sections, given as (key, section) in order. */
  function GroupAll(details: seq<(nat, Detail)>): Grouped
  {
    if details == [] then Grouped([], map[])
    else
      var last := details[|details| - 1];
      AppendToSides(GroupAll(details[..|details| - 1]), last.1.sides, Item(last.0, last.1))
  }

  /** The sections that mention `side`, in input order. */
  function OnSide(details: seq<(nat, Detail)>, side: string): seq<Item>
  {
    if details == [] then []
    else
      var last := details[|details| - 1];
      OnSide(details[..|details| - 1], side) + (if side in last.1.sides then [Item(last.0, last.1)] else [])
  }

  function ItemsOf(g: Grouped, side: string): seq<Item>
  {
    if side in g.groups then g.groups[side] else []
  }

  ghost predicate GroupedOk(g: Grouped)
  {
    DistinctSides(g.order) && forall s :: s in g.groups <==> s in g.order
  }

  lemma {:induction false} AppendToSidesEffect(g: Grouped, sides: seq<string>, item: Item, s: string)
    requires GroupedOk(g) && DistinctSides(sides)
    ensures GroupedOk(AppendToSides(g, sides, item))
    ensures s in AppendToSides(g, sides, item).groups <==> s in g.groups || s in sides
    ensures ItemsOf(AppendToSides(g, sides, item), s) == ItemsOf(g, s) + (if s in sides then [item] else [])
  {
    if sides != [] {
      var init := sides[..|sides| - 1];
      var last := sides[|sides| - 1];
      assert DistinctSides(init);
      AppendToSidesEffect(g, init, item, s);
      AppendToSidesEffect(g, init, item, last);
      assert last !in init;
      assert s in sides <==> s in init || s == last;
    }
  }

  /** Every side in the result is a side some section mentions, and its list
      holds exactly the sections mentioning it, in input order. */
  lemma {:induction false} GroupAllBySide(details: seq<(nat, Detail)>, s: string)
    requires forall i :: 0 <= i < |details| ==> DistinctSides(details[i].1.sides)
    ensures GroupedOk(GroupAll(details))
    ensures s in GroupAll(details).groups <==> exists i :: 0 <= i < |details| && s in details[i].1.sides
    ensures ItemsOf(GroupAll(details), s) == OnSide(details, s)
  {
    if details != [] {
      var init := details[..|details| - 1];
      var last := details[|details| - 1];
      GroupAllBySide(init, s);
      AppendToSidesEffect(GroupAll(init), last.1.sides, Item(last.0, last.1), s);
      forall i | 0 <= i < |init| ensures init[i] == details[i] { }
    }
  }

  /** The first loop of `group_details_by_condition`. */
  method GroupBySide(details: seq<(nat, Detail)>) returns (g: Grouped)
    ensures g == GroupAll(details)
  {
    g := Grouped([], map[]);
    for i := 0 to |details|
      invariant g == GroupAll(details[..i])
    {
      var (key, d) := details[i];
      assert details[..i + 1][..i] == details[..i];
      ghost var before := g;
      for j := 0 to |d.sides|
        invariant g == AppendToSides(before, d.sides[..j], Item(key, d))
      {
        assert d.sides[..j + 1][..j] == d.sides[..j];
        var side := d.sides[j];
        if side in g.groups {
          g := Grouped(g.order, g.groups[side := g.groups[side] + [Item(key, d)]]);
        } else {
          g := Grouped(g.order + [side], g.groups[side := [Item(key, d)]]);
        }
      }
      assert d.sides[..|d.sides|] == d.sides;
    }
    assert details[..|details|] == details;
  }

  // ---------------------------------------------------------------------
  // Ordering and clustering one side
  // ---------------------------------------------------------------------

  /** The sort key `x['ori_milestone']`. */
  function OriKey(it: Item): ExtReal
  {
    Finite(it.detail.ori)
  }

  function Distance(a: real, b: real): real
  {
    if a >= b then a - b else b - a
  }

  /** The window of a zone, in km. */
  const WINDOW: real := 4.0

  function Concat(groups: seq<seq<Item>>): seq<Item>
  {
    if groups == [] then [] else Concat(groups[..|groups| - 1]) + groups[|groups| - 1]
  }

  /** The zones are non-empty; every member starts within the window of its
      zone's first section; each zone's first section is outside the window
      of the previous zone's first section. */
  predicate Clustered(groups: seq<seq<Item>>)
  {
    (forall j :: 0 <= j < |groups| ==> InWindow(groups[j])) && ZonesApart(groups)
  }

  /** A non-empty zone whose members start within the window of its first. */
  predicate InWindow(g: seq<Item>)
  {
    |g| >= 1 && forall x :: 0 <= x < |g| ==> Distance(g[x].detail.ori, g[0].detail.ori) < WINDOW
  }

  /** Consecutive zones start at least a window apart. */
  predicate ZonesApart(groups: seq<seq<Item>>)
  {
    forall j :: 0 <= j < |groups| - 1 ==> Apart(groups[j], groups[j + 1])
  }

  predicate Apart(g: seq<Item>, h: seq<Item>)
  {
    |g| >= 1 && |h| >= 1 && Distance(h[0].detail.ori, g[0].detail.ori) >= WINDOW
  }

  /** The clustering loop over a side's sorted sections. */
  method Cluster(items: seq<Item>) returns (groups: seq<seq<Item>>)
    requires |items| >= 1
    ensures Concat(groups) == items
    ensures Clustered(groups)
  {
    groups := [];
    var current := [items[0]];
    for i := 1 to |items|
      invariant InWindow(current)
      invariant Concat(groups) + current == items[..i]
      invariant Clustered(groups)
      invariant |groups| >= 1 ==> Apart(groups[|groups| - 1], current)
    {
      assert items[..i + 1] == items[..i] + [items[i]];
      if Distance(items[i].detail.ori, current[0].detail.ori) < WINDOW {
        ExtendZone(groups, current, items[i]);
        current := current + [items[i]];
      } else {
        CloseZone(groups, current);
        ConcatSnoc(groups, current);
        groups := groups + [current];
        current := [items[i]];
      }
    }
    CloseZone(groups, current);
    ConcatSnoc(groups, current);
    groups := groups + [current];
  }

  /** A section within the window joins the current zone. */
  lemma ExtendZone(groups: seq<seq<Item>>, current: seq<Item>, x: Item)
    requires InWindow(current) && Distance(x.detail.ori, current[0].detail.ori) < WINDOW
    requires |groups| >= 1 ==> Apart(groups[|groups| - 1], current)
    ensures InWindow(current + [x])
    ensures |groups| >= 1 ==> Apart(groups[|groups| - 1], current + [x])
  {
    var c := current + [x];
    assert c[0] == current[0];
    forall k | 0 <= k < |c| ensures Distance(c[k].detail.ori, c[0].detail.ori) < WINDOW {
      if k < |current| { assert c[k] == current[k]; }
    }
  }

  /** Closing the current zone keeps the zones clustered. */
  lemma CloseZone(groups: seq<seq<Item>>, current: seq<Item>)
    requires Clustered(groups) && InWindow(current)
    requires |groups| >= 1 ==> Apart(groups[|groups| - 1], current)
    ensures Clustered(groups + [current])
  {
    var gs := groups + [current];
    forall j | 0 <= j < |gs| ensures InWindow(gs[j]) {
      if j < |groups| {
        assert gs[j] == groups[j];
      } else {
        assert gs[j] == current;
      }
    }
    forall j | 0 <= j < |gs| - 1 ensures Apart(gs[j], gs[j + 1]) {
      assert gs[j] == groups[j];
      if j < |groups| - 1 {
        assert gs[j + 1] == groups[j + 1];
      } else {
        assert gs[j + 1] == current;
      }
    }
  }

  lemma ConcatSnoc(groups: seq<seq<Item>>, current: seq<Item>)
    ensures Concat(groups + [current]) == Concat(groups) + current
  {
    assert (groups + [current])[..|groups|] == groups;
  }

  /** In sorted input the zones advance: each zone starts at least a window
      after the previous zone's start. */
  lemma ZonesAdvance(groups: seq<seq<Item>>, j: int)
    requires Clustered(groups) && StableSort.SortedBy(Concat(groups), OriKey)
    requires 0 <= j < |groups| - 1
    ensures groups[j + 1][0].detail.ori >= groups[j][0].detail.ori + WINDOW
  {
    ConcatAt(groups, j, 0);
    ConcatAt(groups, j + 1, 0);
    var a, b := Offset(groups, j), Offset(groups, j + 1);
    assert Le(OriKey(Concat(groups)[a]), OriKey(Concat(groups)[b]));
  }

  /** Where zone `j` starts in the concatenation. */
  function Offset(groups: seq<seq<Item>>, j: int): nat
    requires 0 <= j <= |groups|
  {
    |Concat(groups[..j])|
  }

  lemma {:induction false} ConcatAt(groups: seq<seq<Item>>, j: int, x: int)
    requires 0 <= j < |groups| && 0 <= x < |groups[j]|
    ensures Offset(groups, j + 1) == Offset(groups, j) + |groups[j]|
    ensures Offset(groups, j) + x < |Concat(groups)| && Concat(groups)[Offset(groups, j) + x] == groups[j][x]
  {
    assert groups[..j + 1][..j] == groups[..j];
    var init := groups[..|groups| - 1];
    if j == |groups| - 1 {
      assert groups[..j] == init;
    } else {
      ConcatAt(init, j, x);
      assert init[..j] == groups[..j] && init[..j + 1] == groups[..j + 1] && init[j] == groups[j];
    }
  }

  // ---------------------------------------------------------------------
  // Zone summaries
  // ---------------------------------------------------------------------

  datatype ZoneSummary = ZoneSummary(details: seq<Item>, totalDistance: real, minOri: real, maxDes: real)

  function Distances(g: seq<Item>): seq<real>
  {
    seq(|g|, k requires 0 <= k < |g| => g[k].detail.distance)
  }

  /** `sum(detail["MR_distance"] ...)`. */
  function Total(g: seq<Item>): real
  {
    Sum(Distances(g))
  }

  /** `min(detail["ori_milestone"] ...)`. */
  function MinOri(g: seq<Item>): (m: real)
    requires |g| >= 1
    ensures exists k :: 0 <= k < |g| && g[k].detail.ori == m
    ensures forall k :: 0 <= k < |g| ==> m <= g[k].detail.ori
  {
    if |g| == 1 then g[0].detail.ori
    else
      var rest := MinOri(g[1..]);
      assert forall k :: 1 <= k < |g| ==> g[k] == g[1..][k - 1];
      if g[0].detail.ori <= rest then g[0].detail.ori else rest
  }

  /** `max(detail["des_milestone"] ...)`. */
  function MaxDes(g: seq<Item>): (m: real)
    requires |g| >= 1
    ensures exists k :: 0 <= k < |g| && g[k].detail.des == m
    ensures forall k :: 0 <= k < |g| ==> g[k].detail.des <= m
  {
    if |g| == 1 then g[0].detail.des
    else
      var rest := MaxDes(g[1..]);
      assert forall k :: 1 <= k < |g| ==> g[k] == g[1..][k - 1];
      if g[0].detail.des >= rest then g[0].detail.des else rest
  }

  function Summarise(groups: seq<seq<Item>>): seq<ZoneSummary>
    requires forall j :: 0 <= j < |groups| ==> |groups[j]| >= 1
  {
    seq(|groups|, j requires 0 <= j < |groups| =>
      ZoneSummary(groups[j], Total(groups[j]), MinOri(groups[j]), MaxDes(groups[j])))
  }

  function Totals(groups: seq<seq<Item>>): seq<real>
  {
    seq(|groups|, j requires 0 <= j < |groups| => Total(groups[j]))
  }

  /** Cutting a side into zones loses no length: the zone totals add up to
      the total of the side. */
  lemma {:induction false} TotalsAddUp(groups: seq<seq<Item>>)
    ensures Sum(Totals(groups)) == Total(Concat(groups))
  {
    if groups != [] {
      var init := groups[..|groups| - 1];
      TotalsAddUp(init);
      assert Totals(groups)[..|groups| - 1] == Totals(init);
      assert Distances(Concat(groups)) == Distances(Concat(init)) + Distances(groups[|groups| - 1]);
      SumAppend(Distances(Concat(init)), Distances(groups[|groups| - 1]));
    }
  }

  // ---------------------------------------------------------------------
  // The whole grouping
  // ---------------------------------------------------------------------

  function DetailsOf(zones: seq<ZoneSummary>): seq<seq<Item>>
  {
    seq(|zones|, j requires 0 <= j < |zones| => zones[j].details)
  }

  /** The zones of one side: its sections ordered by start milestone
      (stably) and cut into clustered, summarised zones. */
  predicate ZonesFor(items: seq<Item>, zones: seq<ZoneSummary>)
  {
    && Concat(DetailsOf(zones)) == StableSort.InsertionSort(items, OriKey)
    && Clustered(DetailsOf(zones))
    && zones == Summarise(DetailsOf(zones))
  }

  /** The body of the per-side loop: sort, cluster, summarise. */
  method ZonesOf(items: seq<Item>) returns (zones: seq<ZoneSummary>)
    requires |items| >= 1
    ensures ZonesFor(items, zones)
  {
    var sorted := StableSort.InsertionSort(items, OriKey);
    assert |sorted| >= 1 by {
      assert |multiset(sorted)| == |multiset(items)|;
    }
    var groups := Cluster(sorted);
    zones := Summarise(groups);
    assert DetailsOf(zones) == groups;
  }

  /** `group_details_by_condition`: for each side mentioned, its sections
      ordered by start milestone (stably) and cut into summarised zones. */
  method GroupDetailsByCondition(details: seq<(nat, Detail)>) returns (order: seq<string>, zones: map<string, seq<ZoneSummary>>)
    requires forall i :: 0 <= i < |details| ==> DistinctSides(details[i].1.sides)
    ensures order == GroupAll(details).order && DistinctSides(order)
    ensures forall s :: s in zones <==> s in order
    ensures forall s :: s in zones <==> exists i :: 0 <= i < |details| && s in details[i].1.sides
    ensures forall s :: s in zones ==>
              ZonesFor(OnSide(details, s), zones[s])
  {
    var g := GroupBySide(details);
    GroupAllBySide(details, "");
    forall s | s in g.groups ensures |g.groups[s]| >= 1 && g.groups[s] == OnSide(details, s) {
      GroupAllBySide(details, s);
      assert ItemsOf(g, s) == OnSide(details, s);
      OnSideNonEmpty(details, s);
    }
    forall s ensures s in g.groups <==> exists i :: 0 <= i < |details| && s in details[i].1.sides {
      GroupAllBySide(details, s);
    }
    order := g.order;
    zones := ZonesOfSides(g);
  }

  /** The per-side loop over the sides in order. */
  method ZonesOfSides(g: Grouped) returns (zones: map<string, seq<ZoneSummary>>)
    requires GroupedOk(g)
    requires forall s :: s in g.groups ==> |g.groups[s]| >= 1
    ensures forall s :: s in zones <==> s in g.groups
    ensures forall s :: s in zones ==> ZonesFor(g.groups[s], zones[s])
  {
    zones := map[];
    for k := 0 to |g.order|
      invariant forall s :: s in zones <==> s in g.order[..k]
      invariant forall s :: s in zones ==> ZonesFor(g.groups[s], zones[s])
    {
      var side := g.order[k];
      assert g.order[..k + 1] == g.order[..k] + [side];
      var summaries := ZonesOf(g.groups[side]);
      zones := zones[side := summaries];
    }
    assert g.order[..|g.order|] == g.order;
  }

  lemma {:induction false} OnSideNonEmpty(details: seq<(nat, Detail)>, s: string)
    requires exists i :: 0 <= i < |details| && s in details[i].1.sides
    ensures |OnSide(details, s)| >= 1
  {
    var last := details[|details| - 1];
    if s !in last.1.sides {
      var i :| 0 <= i < |details| && s in details[i].1.sides;
      assert details[..|details| - 1][i] == details[i];
      OnSideNonEmpty(details[..|details| - 1], s);
    }
  }

  // ---------------------------------------------------------------------
  // Side dispatch of the condition parser
  // ---------------------------------------------------------------------

  /** A (severity, distress) pair found by the condition pattern. */
  type Match = (string, string)

  predicate OccursAt(s: string, sep: string, i: int)
  {
    0 <= i && i + |sep| <= |s| && s[i..i + |sep|] == sep
  }

  function IndexFrom(s: string, sep: string, i: nat): (r: Option<nat>)
    requires i <= |s|
    ensures r.Some? ==> i <= r.value && OccursAt(s, sep, r.value)
                        && forall j :: i <= j < r.value ==> !OccursAt(s, sep, j)
    ensures r.None? ==> forall j :: i <= j ==> !OccursAt(s, sep, j)
    decreases |s| - i
  {
    if OccursAt(s, sep, i) then Some(i)
    else if i == |s| then None
    else IndexFrom(s, sep, i + 1)
  }

  /** `sep in s`. */
  predicate Contains(s: string, sep: string)
  {
    IndexFrom(s, sep, 0).Some?
  }

  /** `s.split(sep, 1)[-1]` when `sep` occurs: the text after its first
      occurrence. */
  function After(s: string, sep: string): (rest: string)
    requires Contains(s, sep)
    ensures s == s[..IndexFrom(s, sep, 0).value] + sep + rest
  {
    var i := IndexFrom(s, sep, 0).value;
    assert s == s[..i] + s[i..i + |sep|] + s[i + |sep|..];
    s[i + |sep|..]
  }

  /** `condi_detail`: a dictionary from side to matches, with its keys in
      insertion order. */
  datatype ConditionDetail = ConditionDetail(order: seq<string>, entries: map<string, seq<Match>>)

  /** `condi_detail[side] = matches`: an existing key keeps its position, a
      new one goes last. */
  function Put(d: ConditionDetail, side: string, matches: seq<Match>): ConditionDetail
  {
    ConditionDetail(if side in d.entries then d.order else d.order + [side], d.entries[side := matches])
  }

  /** The key order lists every key of the dictionary exactly once. */
  ghost predicate DetailOk(d: ConditionDetail)
  {
    DistinctSides(d.order) && forall k :: k in d.entries <==> k in d.order
  }

  /** An update keeps the key order listing every key once. */
  lemma PutKeepsDetailOk(d: ConditionDetail, side: string, matches: seq<Match>)
    requires DetailOk(d)
    ensures DetailOk(Put(d, side, matches))
  {
    var d' := Put(d, side, matches);
    if side !in d.entries {
      forall i, j | 0 <= i < j < |d'.order| ensures d'.order[i] != d'.order[j] {
        if j == |d.order| {
          assert d'.order[i] == d.order[i];
        }
      }
    }
  }

  /** The sides the parser adds to a dictionary holding `keys`, in the order
      they are first written: the side written first ("left" unless only
      "right side" is named), then the other one when it is written too; each
      only when it is new. */
  function NewSides(keys: set<string>, left: bool, right: bool, bothSides: bool): seq<string>
  {
    var first := if left || !right then "left" else "right";
    var second := if left || !right then "right" else "left";
    var secondWritten := if left || !right then right || bothSides else bothSides;
    (if first !in keys then [first] else []) + (if secondWritten && second !in keys then [second] else [])
  }

  /** The two side keys are different strings. */
  lemma SidesApart()
    ensures "left" != "right"
  {
    assert "left"[0] != "right"[0];
  }

  /** The key order after the three steps of the parser: `written` is the
      dictionary after the "left side" and "right side" steps, `detail` after
      the "both sides" step. */
  lemma SidesOrder(base: ConditionDetail, written: ConditionDetail, detail: ConditionDetail,
                   left: bool, right: bool, bothSides: bool)
    requires written.order == base.order + (if left && "left" !in base.entries then ["left"] else [])
                             + (if right && "right" !in base.entries then ["right"] else [])
    requires written.entries.Keys == base.entries.Keys + (if left then {"left"} else {}) + (if right then {"right"} else {})
    requires bothSides ==> detail.order == written.order + (if "left" !in written.entries then ["left"] else [])
                             + (if "right" !in written.entries then ["right"] else [])
    requires !bothSides ==> detail == written
    requires !left && !right ==> bothSides
    ensures detail.order == base.order + NewSides(base.entries.Keys, left, right, bothSides)
  {
  }

  /** `parse_condi_discribe` with the pattern matcher `findall` as a
      parameter. A missing text (`None`) leaves the dictionary as given. */
  method ParseCondition(given: Option<ConditionDetail>, text: Option<string>, findall: string -> seq<Match>)
    returns (detail: ConditionDetail)
    ensures var base := if given.Some? then given.value else ConditionDetail([], map[]);
      match text
      case None => detail == base
      case Some(t) => ParsedText(base, t, findall, detail)
  {
    detail := if given.Some? then given.value else ConditionDetail([], map[]);
    if text.Some? {
      detail := ParseText(detail, text.value, findall);
    }
  }

  /** What parsing the text `t` does to the dictionary `base`. */
  ghost predicate ParsedText(base: ConditionDetail, t: string, findall: string -> seq<Match>, detail: ConditionDetail)
  {
    var left, right, both := Contains(t, "left side"), Contains(t, "right side"), Contains(t, "both sides");
    ParsedSides(base, left, right, both,
                if left then findall(After(t, "left side")) else [],
                if right then findall(After(t, "right side")) else [],
                findall(if both then After(t, "both sides") else t), detail)
  }

  /** What the parser does to `base` when the text names the left side, the
      right side and both sides as the flags say, and the matches after each
      phrase (or in the whole text, when no side is named) are `onLeft`,
      `onRight` and `onBoth`. */
  ghost predicate ParsedSides(base: ConditionDetail, left: bool, right: bool, both: bool,
                              onLeft: seq<Match>, onRight: seq<Match>, onBoth: seq<Match>, detail: ConditionDetail)
  {
    var bothSides := both || (!left && !right);
    && detail.order == base.order + NewSides(base.entries.Keys, left, right, bothSides)
    && (forall k :: k in detail.entries <==>
          k in base.entries || (k == "left" && (left || bothSides)) || (k == "right" && (right || bothSides)))
    && (forall k :: k in base.entries && k != "left" && k != "right" ==> detail.entries[k] == base.entries[k])
    && (bothSides ==> detail.entries["left"] == detail.entries["right"] == onBoth)
    && (!bothSides && left ==> detail.entries["left"] == onLeft)
    && (!bothSides && right ==> detail.entries["right"] == onRight)
    && (!bothSides && !left && "left" in base.entries ==> detail.entries["left"] == base.entries["left"])
    && (!bothSides && !right && "right" in base.entries ==> detail.entries["right"] == base.entries["right"])
  }

  /** The body of `parse_condi_discribe` for a present text: the "left side"
      step, the "right side" step, then the "both sides" step. */
  method ParseText(base: ConditionDetail, t: string, findall: string -> seq<Match>) returns (detail: ConditionDetail)
    ensures ParsedText(base, t, findall, detail)
    ensures DetailOk(base) ==> DetailOk(detail)
  {
    var left, right, both := Contains(t, "left side"), Contains(t, "right side"), Contains(t, "both sides");
    var onLeft := if left then findall(After(t, "left side")) else [];
    var onRight := if right then findall(After(t, "right side")) else [];
    var onBoth := findall(if both then After(t, "both sides") else t);
    detail := base;
    if left {
      detail := Put(detail, "left", onLeft);
    }
    ghost var once := detail;
    if right {
      detail := Put(detail, "right", onRight);
    }
    ghost var written := detail;
    if both || (!left && !right) {
      detail := Put(detail, "left", onBoth);
      detail := Put(detail, "right", onBoth);
    }
    if DetailOk(base) {
      if left { PutKeepsDetailOk(base, "left", onLeft); }
      if right { PutKeepsDetailOk(once, "right", onRight); }
      if both || (!left && !right) {
        PutKeepsDetailOk(written, "left", onBoth);
        PutKeepsDetailOk(Put(written, "left", onBoth), "right", onBoth);
      }
    }
    ParseSteps(base, left, right, both, onLeft, onRight, onBoth, once, written, detail);
  }

  /** The three steps of the parser, one `Put` at a time, give `ParsedSides`. */
  lemma ParseSteps(base: ConditionDetail, left: bool, right: bool, both: bool,
                   onLeft: seq<Match>, onRight: seq<Match>, onBoth: seq<Match>,
                   once: ConditionDetail, written: ConditionDetail, detail: ConditionDetail)
    requires once == if left then Put(base, "left", onLeft) else base
    requires written == if right then Put(once, "right", onRight) else once
    requires detail == if both || (!left && !right) then Put(Put(written, "left", onBoth), "right", onBoth) else written
    ensures ParsedSides(base, left, right, both, onLeft, onRight, onBoth, detail)
  {
    SidesApart();
    assert "right" in once.entries <==> "right" in base.entries;
    SidesOrder(base, written, detail, left, right, both || (!left && !right));
  }

  /** A text naming "right side" and "both sides" but not "left side" puts
      "right" before "left" in a fresh dictionary. */
  lemma RightFirstExample()
    ensures NewSides({}, false, true, true) == ["right", "left"]
    ensures NewSides({}, true, true, false) == ["left", "right"]
    ensures NewSides({"right"}, false, false, true) == ["left"]
  {
  }
}
