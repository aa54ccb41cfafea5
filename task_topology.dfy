/**
 * The task-to-task travel-time table handed to the vehicle-routing model.
 *
 * Every maintenance task has an origin and a destination point, a side of the
 * road and a processing time. The table has an entry from the depot (task 0)
 * to every task, from every task back to the depot, and between every two
 * distinct tasks. A point-topology length in metres is turned into time by
 * dividing by 60 and by 1000; a missing point pair counts as 0 m. Between two
 * tasks the direction of the lookup follows the side of the first task: on the
 * right side from its destination to the other task's origin, on the left
 * side the reverse; any other side gives no value (`None`).
 *
 * Two scripts build the table. The mission script, and `generating_topology.py`
 * with its flag set to False, add processing time on the depot leg and between
 * tasks (`ProcessingTimeIncluded`); `generating_topology.py` as shipped, with
 * `processing_time_considered = True`, adds none (`ProcessingTimeExcluded`).
 */
module TaskTopology {
  import opened Common

  /** The fields of an `MR_info` entry the table reads. */
  datatype TaskInfo = TaskInfo(
    oriPointIndex: nat, desPointIndex: nat, side: string, processingTime: real,
    oriLon: real, oriLat: real)

  datatype Policy = ProcessingTimeIncluded | ProcessingTimeExcluded

  /** `processing_time_considered` in `generating_topology.py`. */
  const PROCESSING_TIME_CONSIDERED: bool := true

  /** The depot's key in the task table and its index in the point table. */
  const DEPOT: nat := 0

  /** Which variant `generating_topology.py` builds for a value of its flag:
      a true flag removes processing time. */
  function GeneratingTopologyPolicy(considered: bool): Policy
  {
    if considered then ProcessingTimeExcluded else ProcessingTimeIncluded
  }

  /** `topology_dict.get(key, 0) / 60 / 1000`. */
  function Minutes(topology: map<(nat, nat), ExtReal>, key: (nat, nat)): ExtReal
  {
    if key in topology then
      match topology[key]
      case Finite(m) => Finite(m / 60.0 / 1000.0)
      case Inf => Inf
    else Finite(0.0)
  }

  function AddTime(policy: Policy, t: ExtReal, processingTime: real): ExtReal
  {
    if policy == ProcessingTimeIncluded then Plus(t, processingTime) else t
  }

  /** Depot to task: towards the task's destination point. */
  function DepotToTask(policy: Policy, topology: map<(nat, nat), ExtReal>, a: TaskInfo): ExtReal
  {
    AddTime(policy, Minutes(topology, (DEPOT, a.desPointIndex)), a.processingTime)
  }

  /** Task to depot: from the task's destination point, never with processing time. */
  function TaskToDepot(topology: map<(nat, nat), ExtReal>, a: TaskInfo): ExtReal
  {
    Minutes(topology, (a.desPointIndex, DEPOT))
  }

  /** From task `a` to task `b`, by the side of `a`. */
  function Between(policy: Policy, topology: map<(nat, nat), ExtReal>, a: TaskInfo, b: TaskInfo): Option<ExtReal>
  {
    if a.side == "right" then
      Some(AddTime(policy, Minutes(topology, (a.desPointIndex, b.oriPointIndex)), b.processingTime))
    else if a.side == "left" then
      Some(AddTime(policy, Minutes(topology, (b.oriPointIndex, a.desPointIndex)), a.processingTime))
    else None
  }

  /** A key of the table: depot to task, task to depot, or task to task. */
  predicate IsEntryKey(tasks: set<nat>, key: (nat, nat))
  {
    (key.0 == DEPOT && key.1 in tasks) || (key.0 in tasks && (key.1 == DEPOT || (key.1 in tasks && key.1 != key.0)))
  }

  /** The value the table holds under a key. */
  function Entry(policy: Policy, topology: map<(nat, nat), ExtReal>, infos: map<nat, TaskInfo>, key: (nat, nat))
    : Option<ExtReal>
    requires DEPOT !in infos && IsEntryKey(infos.Keys, key)
  {
    if key.0 == DEPOT then Some(DepotToTask(policy, topology, infos[key.1]))
    else if key.1 == DEPOT then Some(TaskToDepot(topology, infos[key.0]))
    else Between(policy, topology, infos[key.0], infos[key.1])
  }

  predicate Distinct(s: seq<nat>)
  {
    forall i, j :: 0 <= i < j < |s| ==> s[i] != s[j]
  }

  /** A key written once the tasks of `rows` have had their turn. */
  predicate WrittenFor(rows: seq<nat>, tasks: set<nat>, key: (nat, nat))
  {
    (key.0 == DEPOT && key.1 in rows) || (key.0 in rows && (key.1 == DEPOT || (key.1 in tasks && key.1 != key.0)))
  }

  /** The module-level loop of `generating_topology.py` (and lines 356-400 of
      the mission script), over the tasks in dictionary order. */
  method BuildTaskTopology(order: seq<nat>, infos: map<nat, TaskInfo>, topology: map<(nat, nat), ExtReal>,
                           depotCoord: (real, real), policy: Policy)
    returns (topologyMR: map<(nat, nat), Option<ExtReal>>, coordsMR: map<nat, (real, real)>)
    requires Distinct(order) && (forall k :: k in order <==> k in infos) && DEPOT !in infos
    ensures forall k :: k in coordsMR <==> k == DEPOT || k in infos
    ensures coordsMR[DEPOT] == depotCoord
    ensures forall k :: k in infos ==> coordsMR[k] == (infos[k].oriLon, infos[k].oriLat)
    ensures forall k :: k in topologyMR <==> IsEntryKey(infos.Keys, k)
    ensures forall k :: k in infos ==> (DEPOT, k) in topologyMR && (k, DEPOT) in topologyMR && (k, k) !in topologyMR
    ensures forall k :: k in topologyMR ==> topologyMR[k] == Entry(policy, topology, infos, k)
  {
    topologyMR := map[];
    coordsMR := map[DEPOT := depotCoord];
    for i := 0 to |order|
      invariant forall k :: k in coordsMR <==> k == DEPOT || k in order[..i]
      invariant coordsMR[DEPOT] == depotCoord
      invariant forall k :: k in order[..i] ==> coordsMR[k] == (infos[k].oriLon, infos[k].oriLat)
      invariant RowsWritten(order[..i], infos, topology, policy, topologyMR)
    {
      var a := order[i];
      var infoA := infos[a];
      assert order[..i + 1] == order[..i] + [a];
      coordsMR := coordsMR[a := (infoA.oriLon, infoA.oriLat)];
      ghost var before := topologyMR;
      topologyMR := FillTask(topologyMR, a, order, infos, topology, policy);
      RowsWrittenStep(order[..i], a, infos, topology, policy, before, topologyMR);
    }
    assert order[..|order|] == order;
  }

  /** The table holds exactly the keys written for the tasks of `rows`, each
      with its entry. */
  ghost predicate RowsWritten(rows: seq<nat>, infos: map<nat, TaskInfo>, topology: map<(nat, nat), ExtReal>,
                              policy: Policy, t: map<(nat, nat), Option<ExtReal>>)
    requires DEPOT !in infos
  {
    && (forall k :: k in t <==> WrittenFor(rows, infos.Keys, k))
    && (forall k :: k in t ==> IsEntryKey(infos.Keys, k) && t[k] == Entry(policy, topology, infos, k))
  }

  lemma RowsWrittenStep(rows: seq<nat>, a: nat, infos: map<nat, TaskInfo>, topology: map<(nat, nat), ExtReal>,
                        policy: Policy, before: map<(nat, nat), Option<ExtReal>>, after: map<(nat, nat), Option<ExtReal>>)
    requires DEPOT !in infos && a in infos
    requires RowsWritten(rows, infos, topology, policy, before)
    requires forall k :: k in after <==> k in before || k == (DEPOT, a) || k == (a, DEPOT)
                                         || (k.0 == a && k.1 in infos && k.1 != a)
    requires forall k :: k in after ==> IsEntryKey(infos.Keys, k) && after[k] == Entry(policy, topology, infos, k)
    ensures RowsWritten(rows + [a], infos, topology, policy, after)
  {
    forall k ensures k in after <==> WrittenFor(rows + [a], infos.Keys, k) {
      assert k.0 in rows + [a] <==> k.0 in rows || k.0 == a;
      assert k.1 in rows + [a] <==> k.1 in rows || k.1 == a;
    }
  }

  /** One turn of the outer loop: the depot legs of task `a` and its row. */
  method FillTask(topologyMR: map<(nat, nat), Option<ExtReal>>, a: nat, order: seq<nat>, infos: map<nat, TaskInfo>,
                  topology: map<(nat, nat), ExtReal>, policy: Policy)
    returns (r: map<(nat, nat), Option<ExtReal>>)
    requires (forall k :: k in order <==> k in infos) && DEPOT !in infos && a in infos
    requires forall k :: k in topologyMR ==>
               IsEntryKey(infos.Keys, k) && topologyMR[k] == Entry(policy, topology, infos, k)
    ensures forall k :: k in r <==> k in topologyMR || k == (DEPOT, a) || k == (a, DEPOT)
                                    || (k.0 == a && k.1 in infos && k.1 != a)
    ensures forall k :: k in r ==> IsEntryKey(infos.Keys, k) && r[k] == Entry(policy, topology, infos, k)
  {
    r := topologyMR[(DEPOT, a) := Some(DepotToTask(policy, topology, infos[a]))];
    r := r[(a, DEPOT) := Some(TaskToDepot(topology, infos[a]))];
    r := FillRow(r, a, order, infos, topology, policy);
  }

  /** The inner loop: the entries from task `a` to every other task. */
  method FillRow(topologyMR: map<(nat, nat), Option<ExtReal>>, a: nat, order: seq<nat>, infos: map<nat, TaskInfo>,
                 topology: map<(nat, nat), ExtReal>, policy: Policy)
    returns (r: map<(nat, nat), Option<ExtReal>>)
    requires (forall k :: k in order <==> k in infos) && DEPOT !in infos && a in infos
    requires forall k :: k in topologyMR ==>
               IsEntryKey(infos.Keys, k) && topologyMR[k] == Entry(policy, topology, infos, k)
    ensures forall k :: k in r <==> k in topologyMR || (k.0 == a && k.1 in infos && k.1 != a)
    ensures forall k :: k in r ==> IsEntryKey(infos.Keys, k) && r[k] == Entry(policy, topology, infos, k)
  {
    r := topologyMR;
    for j := 0 to |order|
      invariant forall k :: k in r <==> k in topologyMR || (k.0 == a && k.1 in order[..j] && k.1 != a)
      invariant forall k :: k in r ==> IsEntryKey(infos.Keys, k) && r[k] == Entry(policy, topology, infos, k)
    {
      var b := order[j];
      assert order[..j + 1] == order[..j] + [b];
      if a != b {
        r := r[(a, b) := Between(policy, topology, infos[a], infos[b])];
      }
    }
    assert order[..|order|] == order;
  }

  /** The two variants differ exactly by processing time: the depot leg by
      the task's own, a right-side pair by the second task's, a left-side pair
      by the first task's; the return leg and other-side pairs not at all. */
  lemma VariantsDifferByProcessingTime(topology: map<(nat, nat), ExtReal>, a: TaskInfo, b: TaskInfo)
    ensures DepotToTask(ProcessingTimeIncluded, topology, a)
         == Plus(DepotToTask(ProcessingTimeExcluded, topology, a), a.processingTime)
    ensures a.side == "right" ==>
              Between(ProcessingTimeIncluded, topology, a, b).value
              == Plus(Between(ProcessingTimeExcluded, topology, a, b).value, b.processingTime)
    ensures a.side == "left" ==>
              Between(ProcessingTimeIncluded, topology, a, b).value
              == Plus(Between(ProcessingTimeExcluded, topology, a, b).value, a.processingTime)
    ensures a.side != "right" && a.side != "left" ==>
              Between(ProcessingTimeIncluded, topology, a, b) == None
              && Between(ProcessingTimeExcluded, topology, a, b) == None
  {
  }

  /** `generating_topology.py` as shipped builds the variant without
      processing time: every entry is a plain travel time. */
  lemma ShippedFlagExcludesProcessingTime(topology: map<(nat, nat), ExtReal>, a: TaskInfo, b: TaskInfo)
    ensures var p := GeneratingTopologyPolicy(PROCESSING_TIME_CONSIDERED);
      && DepotToTask(p, topology, a) == Minutes(topology, (DEPOT, a.desPointIndex))
      && (a.side == "right" ==> Between(p, topology, a, b) == Some(Minutes(topology, (a.desPointIndex, b.oriPointIndex))))
      && (a.side == "left" ==> Between(p, topology, a, b) == Some(Minutes(topology, (b.oriPointIndex, a.desPointIndex))))
  {
  }

  predicate NonNegative(topology: map<(nat, nat), ExtReal>)
  {
    forall k :: k in topology ==> Le(Finite(0.0), topology[k])
  }

  lemma MinutesNonNegative(topology: map<(nat, nat), ExtReal>, key: (nat, nat))
    requires NonNegative(topology)
    ensures Le(Finite(0.0), Minutes(topology, key))
  {
    if key in topology && topology[key].Finite? {
      var m := topology[key].value;
      assert m >= 0.0;
      assert m / 60.0 >= 0.0;
      assert m / 60.0 / 1000.0 >= 0.0;
    }
  }

  /** With non-negative lengths and processing times, no entry of either
      variant is negative. */
  lemma EntriesNonNegative(policy: Policy, topology: map<(nat, nat), ExtReal>, infos: map<nat, TaskInfo>, key: (nat, nat))
    requires NonNegative(topology) && DEPOT !in infos && IsEntryKey(infos.Keys, key)
    requires forall k :: k in infos ==> infos[k].processingTime >= 0.0
    ensures Entry(policy, topology, infos, key).Some? ==> Le(Finite(0.0), Entry(policy, topology, infos, key).value)
  {
    if key.0 == DEPOT {
      MinutesNonNegative(topology, (DEPOT, infos[key.1].desPointIndex));
    } else if key.1 == DEPOT {
      MinutesNonNegative(topology, (infos[key.0].desPointIndex, DEPOT));
    } else {
      var a, b := infos[key.0], infos[key.1];
      MinutesNonNegative(topology, (a.desPointIndex, b.oriPointIndex));
      MinutesNonNegative(topology, (b.oriPointIndex, a.desPointIndex));
    }
  }
}
