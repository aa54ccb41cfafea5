# Road-maintenance task preparation, modelled in Dafny

The repository prepares road-maintenance work for a vehicle-routing model.
The preparation runs in six stages:

1. It files the sections of each maintenance mission under the sides of the road their condition text mentions.
2. It cuts each side's sections into work zones (sections whose start milestones lie within 4 km of the zone's first one).
3. It condenses pavement-inspection rows into performance indicators.
4. It picks a maintenance technique by a scored decision tree.
5. It snaps every work zone's start and end points to an OpenStreetMap road graph and routes between all of them.
6. It turns these point distances into a directed travel-time table between tasks (minutes plus processing time), with the depot as task 0.

This project models the logic between the file loads and saves, one module per source file:

| module | file | models |
|---|---|---|
| `RoadNetwork` | `road_network.dfy` | `get_topology_batch_dict.py`: graph simplification, snapping with `add_node_if_far`, the nearest-node memo table, the 12 keyed point pairs per pair of zones, the routing results, the traversed-edge subgraph |
| `TaskTopology` | `task_topology.dfy` | `generating_topology.py` and the task-table loop of `processing_mission_data_and_decision_tree.py` |
| `MissionPreparation` | `mission_preparation.dfy` | `processing_mission_data_and_decision_tree.py`: station traffic loads, station matching, design life and load class, point indices, processing time, expansion by lane count |
| `SegmentGrouping` | `segment_grouping.dfy` | `processing_mission_data.py`: `group_details_by_condition` and the side dispatch of `parse_condi_discribe` |
| `Suggestions` | `suggestions.dfy` | `decision_tree_MR.py`: `SuggestionsManager`, the rule cascade of `decision_tree_rule`, the cost table, the pre-processing text |
| `SegmentMetrics` | `segment_metrics.dfy` | `Match_Segments_And_Performance_Metrics.py` |
| `MilestoneText` | `milestone_text.dfy` | `halfwidth_to_fullwidth` and `filter_refs` of `interpolate_milestones.py` |
| `StableSort` | `stable_sort.dfy` | Python's stable `sort`/`sorted` by key, used by the ranking and the zone grouping |
| `Common` | `common.dfy` | `Option`; `ExtReal` (a float that may be `inf`); sums |

The source is code that changes state step by step, and the model keeps that form:

- The road graph and the nearest-node cache are classes with `modifies` clauses.
- `SuggestionsManager` is a class whose list and cost dictionary are fields.
- The loops of the scripts are methods with loop invariants.
- Each method is proved against a specification function, and the properties of that function are proved as lemmas.

`get_nearest_node` and its memo table (get_topology_batch_dict.py:88-93) are modelled as `RoadNetwork.NearestNodeCache`. No routed path uses them: `process_point_pair` and `main` call `ox.nearest_nodes` directly (lines 98-99, 104-105 and 166), so `RoadNetwork.BuildPointTopology` does not go through the cache.

External computations are parameters of the model, each with the contract the code relies on:

- nearest-node search (`ox.nearest_nodes`);
- geodesic distance;
- the shortest-path routine (`nx.shortest_path` and `nx.path_weight`);
- the regular-expression matcher of `parse_condi_discribe`;
- the pre-processing spreadsheet lookup.

Python floats are exact reals here, and `float('inf')` is `Inf`. A missing dictionary key or an unmatched `if`/`elif` chain is modelled as `Option` or as an explicit outcome, never as a precondition.

Where the code and its documentation disagree, the model follows the code:

- **Self pairs are routed.** `get_topology_batch_dict.py` pairs every work zone with every zone, itself included. The point table therefore holds keys such as `(o, o)` and `(o, d)` of a single zone (`RoadNetwork.SelfAndDepotKeys`). The task table never has a `(k, k)` entry.
- **Inspection rows are matched by overlap.** The docstring of the metrics file describes containment. The code keeps every route row whose interval overlaps the zone.
- **Processing time in the depot leg.** With `processing_time_considered = True` as shipped, `generating_topology.py` drops processing time from the depot leg and between tasks. The mission script always adds it on the depot leg. Both are modelled, as the two values of `TaskTopology.Policy`.
- **Strings the decision tree never sees.** The mission script passes grades `"Expressway"` and `"Grade 1"`…`"Grade 4"` as the road type. It passes the load class `"Medium"`. `decision_tree_rule` tests for `"Highway"`, `"First Class"`… and for `"Moderate"`. So a road type from that script always ends in the "Invalid road type" suggestion (`Suggestions.RulesNeverEmpty`). This is modelled as written.
- **Empty suggestion list.** `compare_MR_suggestions` returns `None` on an empty list. `decision_tree_rule` would then fail iterating it. The cascade never produces an empty list (`Suggestions.RulesNeverEmpty`), so that path is unreachable from the rule.

## Model

| member | source | states |
|---|---|---|
| `StableSort.InsertionSort` | decision_tree_MR.py:442 | the result is a permutation of the input, sorted ascending by the key |
| `StableSort.SortIsStable` | decision_tree_MR.py:442 | elements with equal keys keep their input order (Python's sort is stable) |
| `MilestoneText.HalfwidthToFullwidth` | interpolate_milestones.py:108-115 | the result has the input's length; each character with code 33..126 is shifted by 0xFEE0 into U+FF01..U+FF5E; every other character is unchanged |
| `MilestoneText.HalfwidthUndoesFullwidth` | interpolate_milestones.py:111-112 | shifting back undoes the conversion for every character that was not already a full-width form |
| `MilestoneText.Split` | interpolate_milestones.py:104 | `str.split(";")` gives at least one part, and no part contains the separator |
| `MilestoneText.JoinSplit` | interpolate_milestones.py:104 | joining the parts with the separator gives back the original string |
| `MilestoneText.FilterRefsExact` | interpolate_milestones.py:102-106 | `filter_refs` is true iff the value is a string and "G206" is one of its exact `;`-parts; the {G316, G206} subset test adds nothing; a non-string gives false |
| `RoadNetwork.DropSelfLoops` | get_topology_batch_dict.py:161 | no edge from a node to itself remains; every other edge stays with its data, and none is added |
| `RoadNetwork.CollapseKeys` | get_topology_batch_dict.py:150-156 | the simple graph has an edge u→v iff the multigraph has at least one |
| `RoadNetwork.CollapseKeepsMinimum` | get_topology_batch_dict.py:151-154 | the kept edge is no longer than any raw edge with the same ends |
| `RoadNetwork.CollapseFirstMinimum` | get_topology_batch_dict.py:150-156 | the kept edge is a raw edge with those ends, and every earlier one is strictly longer, so ties go to the first seen |
| `RoadNetwork.ShortestPath` | get_topology_batch_dict.py:65-72 | a pair the routine reports unreachable gives `([], inf)`; otherwise the path is a walk of the graph from start to end, and its length is the sum of its edge lengths |
| `RoadNetwork.PathWeightNonNegative` | get_topology_batch_dict.py:69 | with non-negative edge lengths a path's weight is non-negative |
| `RoadNetwork.RoadGraph.Simplify` | get_topology_batch_dict.py:149-161 | every raw node is kept with its coordinates, isolated ones included; the edges are the collapsed multigraph without self-loops |
| `RoadNetwork.RoadGraph.MaxNodeId` | get_topology_batch_dict.py:80 | `max(graph.nodes)`: an existing id no smaller than any other |
| `RoadNetwork.RoadGraph.AddNodeIfFar` | get_topology_batch_dict.py:74-86 | beyond the distance: exactly one new node, with id max+1 (greater than all), at (lat, lon), two edges new↔reference of that length, new id returned; at or within it (100 m included): graph unchanged and the reference node returned |
| `RoadNetwork.RoadGraph.SnapZone` | get_topology_batch_dict.py:98-108 | both nearest nodes of a zone are looked up on the graph as given before either point is snapped; then the start and the end each take one `add_node_if_far` step (`FarStep`: a node with id max+1 at the point and two edges of the distance, or nothing new), the end's on the graph the start's left; the only new nodes are the returned ones; existing nodes and edges are unchanged |
| `RoadNetwork.FarStepFunctional` | get_topology_batch_dict.py:74-86 | one `add_node_if_far` step determines the node returned and the nodes and edges it leaves |
| `RoadNetwork.ZoneSnappedFunctional` | get_topology_batch_dict.py:98-108 | the snapping of a zone determines both returned nodes and the whole graph it leaves |
| `RoadNetwork.NearestNodeCache.constructor` | get_topology_batch_dict.py:88 | the memo table starts empty |
| `RoadNetwork.NearestNodeCache.GetNearestNode` | get_topology_batch_dict.py:89-93 | a cached key returns the cached node and changes nothing; a new key stores and returns the nearest node; the table only grows |
| `RoadNetwork.RepeatedLookupIsStable` | get_topology_batch_dict.py:89-93 | two lookups of the same coordinates return the same node, even when the graph's nodes change in between |
| `RoadNetwork.PointPairs` | get_topology_batch_dict.py:118-133 | exactly 12 pairs with keys: the 4 origin/destination cross pairs, then depot→point and point→depot for each of the 4 points; each pair routes between the nodes its points snapped to; depot legs come in both directions |
| `RoadNetwork.PointCoords` | get_topology_batch_dict.py:112-116 | coordinates are recorded for exactly the four point indices of the two zones |
| `RoadNetwork.DestinationLatitudeFromOrigin` | get_topology_batch_dict.py:114 | a destination point takes its own node's longitude but the latitude of the origin node of its zone |
| `RoadNetwork.ProcessPointPair` | get_topology_batch_dict.py:95-135 | the first zone is snapped on the graph as given and the second on the graph the first left, each as the two `FarStep`s of `ZoneSnapped`, so the nodes and edges after the call are fixed by the inputs; the graph only grows; returns the 12 pairs and the coordinates above |
| `RoadNetwork.SnappedToGrows` | get_topology_batch_dict.py:104-108 | a point's snapping stays true while later snapping only adds nodes |
| `RoadNetwork.PairKeysOfRequests` | get_topology_batch_dict.py:118-133 | the keys of the returned pairs are exactly the twelve pair keys |
| `RoadNetwork.SelfAndDepotKeys` | get_topology_batch_dict.py:171 | since a zone is paired with itself, its self pairs and both depot legs of its points are routed |
| `RoadNetwork.InAllPairKeys` | get_topology_batch_dict.py:171 | every key generated for any ordered pair of zones is routed |
| `RoadNetwork.KeysArePoints` | get_topology_batch_dict.py:118-133 | every routed key joins the depot or a start or end point of some zone |
| `RoadNetwork.MergePairs` | get_topology_batch_dict.py:178-185 | after the loop over `new_pairs`, the keys are the old keys plus the pairs' keys; the last pair with a key supplies its nodes; other keys are unchanged |
| `RoadNetwork.PairNodesIn` | get_topology_batch_dict.py:110-135 | every one of the 12 pairs routes between the depot node and the four snapped nodes |
| `RoadNetwork.CollectOne` | get_topology_batch_dict.py:176-187 | one result merged: the snapping is as `ProcessPointPair` states; the keys gain the twelve pair keys, each stored with the nodes of its last pair, other keys unchanged; the coordinates become the old ones updated with the four points' node coordinates; old nodes and edges are kept |
| `RoadNetwork.CollectPointPairs` | get_topology_batch_dict.py:164-187 | after all ordered pairs of zones the keys of `paths_set` are exactly all pair keys; every stored node is in the graph; old nodes and edges are kept with their data; the depot and every zone point have coordinates |
| `RoadNetwork.FillTopology` | get_topology_batch_dict.py:189-195 | `topology_dict` and the paths have exactly the keys of `paths_set`; each entry is the shortest-path result between the stored nodes, and the table holds its length |
| `RoadNetwork.CollectArcs` | get_topology_batch_dict.py:201-207 | the collected node pairs are exactly the consecutive pairs of some stored path; empty and one-node paths contribute nothing |
| `RoadNetwork.EdgeSubgraph` | get_topology_batch_dict.py:209 | the subgraph's edges are exactly the collected pairs that are edges of the graph |
| `RoadNetwork.SubgraphKeepsTraversedEdges` | get_topology_batch_dict.py:201-209 | when the paths are walks of the graph, the subgraph has exactly the traversed edges, with their data |
| `RoadNetwork.BuildPointTopology` | get_topology_batch_dict.py:137-209 | `main`: the raw nodes and the simplified edges (`DropSelfLoops(Collapse(raw.edges))`) stay in the graph with their data; `paths_set` has all pair keys, its nodes in the graph; each key's path is `get_shortest_path` on the final graph between its two recorded nodes and its table entry that path's length, infinite iff the path is empty; the subgraph holds exactly the traversed edges with their data; the depot has coordinates |
| `TaskTopology.BuildTaskTopology` | processing_mission_data_and_decision_tree.py:356-400 | the coordinates hold the depot's and each task's origin; the table holds exactly depot→task, task→depot and task→task for distinct tasks (never (k, k)); each value is the entry defined by the side rules and the policy |
| `TaskTopology.FillTask` | processing_mission_data_and_decision_tree.py:358-377 | one task's depot legs are added with their entry values and nothing else changes |
| `TaskTopology.FillRow` | processing_mission_data_and_decision_tree.py:378-400 | one task's row to every other task is added with its entry values and nothing else changes |
| `TaskTopology.VariantsDifferByProcessingTime` | generating_topology.py:33-103 | the two variants differ exactly by processing time: the depot leg by the task's own, a right-side pair by the second task's, a left-side pair by the first task's; other sides give `None` in both |
| `TaskTopology.ShippedFlagExcludesProcessingTime` | generating_topology.py:29-99 | with the flag as shipped (True) the depot leg and the task pairs are plain travel times: metres/60/1000 along the side's direction |
| `TaskTopology.MinutesNonNegative` | generating_topology.py:33-57 | with non-negative lengths a converted travel time is non-negative, a missing pair counting 0 |
| `TaskTopology.EntriesNonNegative` | processing_mission_data_and_decision_tree.py:360-400 | with non-negative lengths and processing times every table value present is non-negative |
| `MissionPreparation.LineName` | processing_mission_data_and_decision_tree.py:98 | the route of a station is the first min(4, length) characters of its id |
| `MissionPreparation.GroupOk` | processing_mission_data_and_decision_tree.py:101-113 | the grouped table lists each station once, its years once each, each with its row |
| `MissionPreparation.GroupMembership` | processing_mission_data_and_decision_tree.py:101-113 | a station (and a year of it) is in the table iff some row names it |
| `MissionPreparation.GroupKeepsLastRow` | processing_mission_data_and_decision_tree.py:113 | the row kept for a station and year is the last row naming both |
| `MissionPreparation.YearsLoadNonNegative` | processing_mission_data_and_decision_tree.py:117-128 | with non-negative flows a station's load is non-negative |
| `MissionPreparation.GroupRows` | processing_mission_data_and_decision_tree.py:101-113 | the first loop builds exactly the grouping function's table |
| `MissionPreparation.ComputeLoads` | processing_mission_data_and_decision_tree.py:115-131 | the grouping is unchanged except that every year row holds its annual load as `Annual_Traffic_Load`; every station gets the sum over its years of the five flows ×365/10⁶ and the milestone of its last-listed year |
| `MissionPreparation.ProcessTrafficLoadData` | processing_mission_data_and_decision_tree.py:96-133 | the whole function: grouping as above, every year row stamped with its annual load, and loads computed for every station |
| `MissionPreparation.StationLoadSum` | processing_mission_data_and_decision_tree.py:117-128 | the loop sums the annual loads of the station's years and writes each year's annual load into its row, changing nothing else in the rows |
| `MissionPreparation.YearsLoadUnstamped` | processing_mission_data_and_decision_tree.py:117-128 | a station's load does not depend on the rows' `Annual_Traffic_Load` entries, so stamping them does not change it |
| `MissionPreparation.StationsOfLine` | processing_mission_data_and_decision_tree.py:182-183 | the stations of a route are exactly the table's stations whose first four characters (the whole id if shorter) equal the route |
| `MissionPreparation.LineStations` | processing_mission_data_and_decision_tree.py:182-186 | the route's stations with their milestones and loads, in table order |
| `MissionPreparation.MatchStation` | processing_mission_data_and_decision_tree.py:178-196 | the first station lying in [ori, des] is chosen; failing that, the one closest to ori, the first of equally close ones; none only when there are no stations |
| `MissionPreparation.SectionTrafficLoad` | processing_mission_data_and_decision_tree.py:182-196 | a route with no station is the failing dictionary lookup; otherwise the load is that of the station the scan picks among the route's stations in table order: the first lying in [ori, des], else the closest to ori, the first of equally close ones |
| `MissionPreparation.DesignLife` | processing_mission_data_and_decision_tree.py:203-212 | a design life exists iff the grade is one of the five listed, and it lies in 8..15 |
| `MissionPreparation.ClassifyLoadGaps` | processing_mission_data_and_decision_tree.py:214-224 | exactly the loads 4, 8 and 19 match no class |
| `MissionPreparation.ClassifyLoadMonotone` | processing_mission_data_and_decision_tree.py:214-224 | a larger load never gets a lighter class |
| `MissionPreparation.ClassifySection` | processing_mission_data_and_decision_tree.py:202-224 | the section fails (NameError) iff neither its grade nor an earlier section gave a design life |
| `MissionPreparation.ClassifySectionFresh` | processing_mission_data_and_decision_tree.py:202-224 | a known grade and a load off the boundaries give a class that does not depend on earlier sections |
| `MissionPreparation.ClassifySectionStaleYear` | processing_mission_data_and_decision_tree.py:203-214 | an unknown grade reuses the previous section's design life |
| `MissionPreparation.Flatten` | processing_mission_data_and_decision_tree.py:137-155 | zone i gets group index i+1 and point indices 2i+1 and 2i+2 |
| `MissionPreparation.PointIndicesDistinct` | processing_mission_data_and_decision_tree.py:139-155 | point indices are never 0 (the depot), a destination follows its origin, and all are distinct and increasing |
| `MissionPreparation.Valid` | processing_mission_data_and_decision_tree.py:289 | `dropna()` keeps no more values than the column has |
| `MissionPreparation.ValidMembers` | processing_mission_data_and_decision_tree.py:289 | the values kept are exactly the values present in the column |
| `MissionPreparation.ValidAppend` | processing_mission_data_and_decision_tree.py:289 | the values of two pieces of a column are those of the first piece followed by those of the second, so the column's order is kept |
| `MissionPreparation.ValidCell` | processing_mission_data_and_decision_tree.py:289 | a single cell contributes its value when it has one, nothing otherwise |
| `MissionPreparation.ProcessingTime` | processing_mission_data_and_decision_tree.py:287-295 | the loop computes 2 + Σ distance / column sum over non-empty columns, plus 2 unless no pre-processing is required |
| `MissionPreparation.ValidPositive` | processing_mission_data_and_decision_tree.py:289-291 | positive rates give a positive column sum whenever the column has a value |
| `MissionPreparation.ColumnTermsNonNegative` | processing_mission_data_and_decision_tree.py:288-291 | with positive rates and a non-negative distance the column terms are defined and non-negative |
| `MissionPreparation.ProcessingTimeBounds` | processing_mission_data_and_decision_tree.py:287-295 | the processing time is at least 2, and at least 4 when pre-processing is needed |
| `MissionPreparation.ExpandedSize` | processing_mission_data_and_decision_tree.py:346-354 | the number of tasks is the number of 2-lane zones plus twice the number of 4-lane zones |
| `MissionPreparation.ExpandedFromInput` | processing_mission_data_and_decision_tree.py:346-354 | every task is a zone of the input with 2 or 4 lanes |
| `MissionPreparation.ExpandByLineNum` | processing_mission_data_and_decision_tree.py:341-354 | keys run 1..n consecutively; key k+1 holds the k-th task of the expansion (one copy for 2 lanes, two for 4, none otherwise) |
| `MissionPreparation.ExpansionKeysFitTable` | processing_mission_data_and_decision_tree.py:341-358 | the expanded keys never use the depot's 0, so they meet the task table's requirements |
| `SegmentGrouping.AppendToSidesEffect` | processing_mission_data.py:174-177 | appending an item to its sides adds it at the end of exactly those sides' lists and creates missing sides |
| `SegmentGrouping.GroupAllBySide` | processing_mission_data.py:172-177 | the sides are exactly those some section mentions, each holding, in input order, the sections that mention it with `sub_index` set |
| `SegmentGrouping.GroupBySide` | processing_mission_data.py:172-177 | the loop builds exactly that grouping |
| `SegmentGrouping.Cluster` | processing_mission_data.py:183-191 | the zones, concatenated, are the sorted input; each zone stays within 4 of its first start; each zone's first start is at least 4 from the previous zone's first |
| `SegmentGrouping.CloseZone` | processing_mission_data.py:188-190 | closing a zone at the window keeps the clustering property |
| `SegmentGrouping.ZonesAdvance` | processing_mission_data.py:185-190 | over sorted input, each zone starts at least 4 after the previous zone's start |
| `SegmentGrouping.MinOri` | processing_mission_data.py:197 | the smallest start of a zone, attained by one of its sections |
| `SegmentGrouping.MaxDes` | processing_mission_data.py:198 | the largest end of a zone, attained by one of its sections |
| `SegmentGrouping.TotalsAddUp` | processing_mission_data.py:196 | the zone totals add up to the total length of all sections of the side |
| `SegmentGrouping.ZonesOf` | processing_mission_data.py:181-201 | one side: its sections sorted stably by start, clustered, and summarised |
| `SegmentGrouping.GroupDetailsByCondition` | processing_mission_data.py:171-202 | the output's sides are exactly the sides the sections mention, in first-seen order, each with its clustered summarised zones |
| `SegmentGrouping.ZonesOfSides` | processing_mission_data.py:180-201 | every side of the grouping gets its zones |
| `SegmentGrouping.OnSideNonEmpty` | processing_mission_data.py:177-184 | a side some section mentions has at least one item, so `items[0]` exists |
| `SegmentGrouping.After` | processing_mission_data.py:100 | `split(sep, 1)[-1]` is the text after the first occurrence of the separator |
| `SegmentGrouping.ParseCondition` | processing_mission_data.py:84-112 | no text leaves the given dictionary (or an empty one) as it is; a text is parsed as `ParseText` states |
| `SegmentGrouping.ParseText` | processing_mission_data.py:99-110 | left, right, and both sides (or neither named) receive the matches of the matching text part; on "both sides" or no side named, left and right get identical lists; other entries are kept; the key order is the given order followed by the new sides in the order first written ("right" before "left" when only "right side" and "both sides" are named), and a key order listing each key once stays so |
| `SegmentGrouping.PutKeepsDetailOk` | processing_mission_data.py:102-110 | assigning a dictionary key keeps the key order listing every key exactly once |
| `SegmentGrouping.ParseSteps` | processing_mission_data.py:99-110 | the three assignment steps, one dictionary update at a time, give the entries and key order above |
| `SegmentGrouping.SidesOrder` | processing_mission_data.py:99-110 | a dictionary update moves no existing key and appends a new one, so the steps leave the keys in first-written order |
| `SegmentGrouping.RightFirstExample` | processing_mission_data.py:102-110 | "right side" with "both sides" orders a fresh dictionary as right, left; a "left side" text orders it left, right |
| `Suggestions.MaxScore` | decision_tree_MR.py:420-440 | the largest score sum, attained by some suggestion |
| `Suggestions.AtScoreMembers` | decision_tree_MR.py:436-440 | an entry is kept iff its suggestion has the given score sum, with the cost of its plain name |
| `Suggestions.BestIsTopScoring` | decision_tree_MR.py:413-442 | the result holds exactly the suggestions with the maximum sum, priced by plain name with `inf` when unlisted, sorted by cost |
| `Suggestions.FirstWith` | decision_tree_MR.py:395-396 | the index of the first suggestion with the name, or none when no suggestion has it |
| `Suggestions.SuggestionsManager.constructor` | decision_tree_MR.py:380-382 | the list and the cost table start empty |
| `Suggestions.SuggestionsManager.AddSuggestion` | decision_tree_MR.py:386-390 | appends exactly one suggestion, a missing score counting 0; costs unchanged |
| `Suggestions.SuggestionsManager.UpdateSuggestion` | decision_tree_MR.py:392-401 | a position outside 0..2 or an unknown name is an error with nothing changed; otherwise only that score of the first suggestion with the name changes |
| `Suggestions.SuggestionsManager.InputCosts` | decision_tree_MR.py:407-411 | every given name gets its cost; other costs and the suggestions are unchanged |
| `Suggestions.SuggestionsManager.CompareSuggestions` | decision_tree_MR.py:413-454 | `None` iff the list is empty; otherwise exactly the top-scoring suggestions, stably sorted by cost |
| `Suggestions.TopStep` | decision_tree_MR.py:436-440 | one turn of the maximum loop: a higher sum restarts the list, an equal one joins it, a lower one is skipped |
| `Suggestions.AtScoreAbove` | decision_tree_MR.py:436-438 | when every suggestion sums below a score, none is kept at that score, so a new maximum restarts the list |
| `Suggestions.DistressTestsAlwaysHold` | decision_tree_MR.py:89 | every `x == "a" or "b"` distress test is true whatever the distress type |
| `Suggestions.HighwayOverlay` | decision_tree_MR.py:87-129 | on a highway, "Overlay" is suggested iff PCI ≥ 80 |
| `Suggestions.HighwayUltraThinAlwaysFull` | decision_tree_MR.py:105-108 | on a highway the (1, 1, 0) "Ultra-Thin Overlay" of the `elif` is never suggested |
| `Suggestions.HighwayFirstBranches` | decision_tree_MR.py:87-129 | every two-branch distress choice on a highway takes its first branch |
| `Suggestions.HighwayStructural` | decision_tree_MR.py:123-129 | on a highway, "Structural Rehabilitation" is suggested iff not (PCI ≥ 85 and RDI ≥ 75) |
| `Suggestions.RulesNeverEmpty` | decision_tree_MR.py:87-341 | the cascade always suggests something; an unknown road type gives only the "Invalid road type" suggestion |
| `Suggestions.PreprocessingText` | decision_tree_MR.py:367-372 | "✓" gives "No preprocessing required", "△" gives "Preprocessing optional", anything else (no cell included) gives "Preprocessing needed" |
| `Suggestions.DecisionTreeRule` | decision_tree_MR.py:76-377 | the result is the cost-ordered top-scoring suggestions of the cascade, each annotated with its pre-processing text |
| `Suggestions.RankRules` | decision_tree_MR.py:343-377 | the suggestions, priced by the cost table and ranked, each with its pre-processing text |
| `Suggestions.Annotate` | decision_tree_MR.py:362-373 | one recommendation per ranked entry, in order, with the text for its plain name |
| `Suggestions.CostNamesDistinct` | decision_tree_MR.py:344-356 | the cost table names each technique once |
| `Suggestions.CostsRecorded` | decision_tree_MR.py:344-356 | after `input_costs` on a fresh manager the costs are exactly the table |
| `SegmentMetrics.Kept` | Match_Segments_And_Performance_Metrics.py:47-51 | on a sheet whose filter raises nothing (`FilterError`), a row is kept iff it is on the route, ends at or after the zone's start and starts at or before its end |
| `SegmentMetrics.FilterError` | Match_Segments_And_Performance_Metrics.py:47-51 | the filter raises nothing iff the route and both milepost columns exist and neither milepost column holds a text; a TypeError iff the route and end columns exist and either the end column holds a text or the start column exists and holds one (the comparisons run left to right) |
| `SegmentMetrics.Nearest` | Match_Segments_And_Performance_Metrics.py:56-60 | the route row whose start is closest to the zone's start, the first on ties; none iff the route has no row with a start |
| `SegmentMetrics.Selected` | Match_Segments_And_Performance_Metrics.py:47-62 | the overlapping rows, or else the nearest route row; nothing only when both fail |
| `SegmentMetrics.MinIgnoringZero` | Match_Segments_And_Performance_Metrics.py:84 | the smallest value of the column over the rows, zeros and missing values ignored; none iff no such value |
| `SegmentMetrics.BestRankIsMinimum` | Match_Segments_And_Performance_Metrics.py:88-91 | the best rank is the smallest mapped grade of the rows, none iff no row has a mapped grade |
| `SegmentMetrics.FirstWithRank` | Match_Segments_And_Performance_Metrics.py:88 | the grade name of a rank maps back to that rank |
| `SegmentMetrics.BestGrade` | Match_Segments_And_Performance_Metrics.py:88-93 | the best-ranked grade text (Excellent < Good < Average < Poor) of some row, or none iff no row has a mapped grade |
| `SegmentMetrics.GradeNamesUnique` | Match_Segments_And_Performance_Metrics.py:92-93 | each rank has one grade name, so the name of a rank some row has is the text that row holds |
| `SegmentMetrics.SumColumnAppend` | Match_Segments_And_Performance_Metrics.py:96 | column totals add up over a split of the rows |
| `SegmentMetrics.File2` | Match_Segments_And_Performance_Metrics.py:99-111 | the record's keys are exactly the evaluation, grade, sum and other columns |
| `SegmentMetrics.CoercedCell` | Match_Segments_And_Performance_Metrics.py:81-82 | `to_numeric(errors='coerce')` keeps a number and turns anything else into NaN |
| `SegmentMetrics.RankCell` | Match_Segments_And_Performance_Metrics.py:88-90 | Excellent, Good, Average and Poor become 1 to 4; any other grade becomes NaN |
| `SegmentMetrics.Prepared` | Match_Segments_And_Performance_Metrics.py:78-90 | a matched row as File 1 returns it: every evaluation and sum cell coerced, `Evaluation Grade Numeric` set to the grade's rank, every other cell as read |
| `SegmentMetrics.PreparedRows` | Match_Segments_And_Performance_Metrics.py:78-90 | every matched row prepared, in order |
| `SegmentMetrics.GradeColumnsApart` | Match_Segments_And_Performance_Metrics.py:65-100 | the grade column and the added numeric one are neither evaluation nor sum columns |
| `SegmentMetrics.PreparedKeepsAggregates` | Match_Segments_And_Performance_Metrics.py:81-96 | the coercion and the added column leave every column total, non-zero minimum and best grade rank as they were on the rows as read |
| `SegmentMetrics.MatchAsWritten` | Match_Segments_And_Performance_Metrics.py:38-113 | as written: a result iff every selected column exists, no milepost is a text and a usable route row exists; a TypeError iff the filter compares a text milepost; without text mileposts, a KeyError iff a selected column is missing or no usable route row exists; a result has File 1 the selected rows as `Prepared` makes them and File 2 their record |
| `SegmentMetrics.Match` | Match_Segments_And_Performance_Metrics.py:38-113 | corrected: a result iff every selected column exists and no milepost is a text; the same TypeError as written; without text mileposts, a KeyError iff a selected column is missing; a result has File 1 the selected rows (possibly none) as `Prepared` makes them and File 2 their record |
| `SegmentMetrics.TextMilepostExample` | Match_Segments_And_Performance_Metrics.py:47-51 | a text start milepost on a row of another route makes both versions raise TypeError |
| `SegmentMetrics.AbsentRouteFails` | Match_Segments_And_Performance_Metrics.py:54-81 | a route absent from a complete sheet without text mileposts makes the code as written fail where the corrected one matches |
| `SegmentMetrics.AbsentRouteExample` | Match_Segments_And_Performance_Metrics.py:62 | a concrete complete sheet with no rows on which the code as written fails |
| `SegmentMetrics.MatchRows` | Match_Segments_And_Performance_Metrics.py:47-90 | on a readable sheet (every selected column, no text milepost), File 1 is the overlapping rows if any, else the nearest route row, else none, each as `Prepared` makes it |
| `SegmentMetrics.MatchRecord` | Match_Segments_And_Performance_Metrics.py:99-111 | on a readable sheet, the record holds every indicator, each with its aggregate over the matched rows |
| `SegmentMetrics.EmptyMatchRecord` | Match_Segments_And_Performance_Metrics.py:84-106 | the empty match gives zero totals and no value for every other indicator |

## Left out

- File I/O is not modelled: Excel, pickle, shapefile and GraphML reads and writes, and the OSMnx download. Inputs and outputs are values.
- Plotting, printing (`print_or_not`) and progress bars are not modelled. They do not affect the results.
- `ThreadPoolExecutor` parallelism is modelled sequentially, in input order. So is the source's mutation of the shared graph inside the parallel map.
- The `lru_cache` on `get_shortest_path` is not modelled. It memoises a pure result.
- Nearest-node search, geodesic distance and the shortest-path routine are parameters. Their contracts are stated as predicates (`NearestOk`, `RouteOk`). Their floating-point geometry is not modelled.
- The spherical trigonometry of `interpolate_milestones.py` is not modelled. Nor are its line sorting, merging and milestone interpolation. These are floating-point geometry mixed with file reads.
- The regular expression of `parse_condi_discribe` is a parameter (`findall`). Only the side dispatch is modelled.
- The row loop of `processing_mission_data.py` (lines 117-164), which builds the mission dictionary from the sheet, is not modelled. It is spreadsheet parsing.
- `get_maintenance_recommendation` and `load_preprocessings` are not modelled. They read a spreadsheet; their cell is the `preprocessing` parameter.
- In the mission script, the per-section distress mapping and the choice of `min_MR_tuple` among sections are not modelled. These are lines 226-269, which read a spreadsheet. Nor are the `line_num` and milestone-coordinate lookups (lines 143-177), which are spreadsheet reads. Zones arrive with these values.
- Pandas NaN is modelled only as a missing cell. Numeric strings that `to_numeric` would parse are not modelled. `int()` truncation of the indices is not modelled: the cascade takes integers.
- Floats are modelled as exact reals. Rounding is not modelled.
- `RoadNetwork.CollectPointPairs`: states which point indices get coordinates and which keys get nodes, not their values after the double loop. The values are stated per pair of zones by `RoadNetwork.CollectOne`.
- `RoadNetwork.ShortestPath`: the routine is a parameter whose contract says only that an answer is a walk from start to end. It does not promise that the walk is shortest, nor that no walk exists when it answers none.
- `RoadNetwork.BuildPointTopology`: states the depot's coordinate key, not the coordinate values.
- `SegmentGrouping.ParseCondition`: returns a new dictionary, with its key order. The source updates the `ori_dic` it is given in place, and the model does not capture that aliasing.
- `MissionPreparation.ColumnTerm`: a column of valid values summing to zero gives `None`, which makes the processing time `None`. The source divides numpy floats there, which gives `inf` (or `nan` for 0/0) without raising; the model does not carry those values.
- `SegmentMetrics.MatchAsWritten`: a route whose rows all lack a start milestone fails in `idxmin`, with a ValueError rather than a KeyError. Both are modelled as the one failure outcome.

## Findings

| source | as written | input that shows it | evidently intended | confidence | as-written member | corrected member |
|---|---|---|---|---|---|---|
| Match_Segments_And_Performance_Metrics.py:62 | when the route has no row, `filtered_data` becomes `pd.DataFrame()`, a frame with no columns, and the column selection at line 81 raises KeyError | a sheet with every column but no row on route "G206" (`AbsentRouteExample`) | an empty match: no rows, zero totals and no indicator values | not executed | `SegmentMetrics.MatchAsWritten` (`SegmentMetrics.AbsentRouteFails`) | `SegmentMetrics.Match` (`SegmentMetrics.MatchRows`, `SegmentMetrics.EmptyMatchRecord`) |
