/**
 * The two document transforms that prepare hierarchical cluster YAMLs.
 *
 * A multi-document YAML file is loaded as a list; each transform walks that
 * list and updates the mapping documents in place. Node documents gain
 * `rack-<i // servers_per_rack>` and `srv-<i % servers_per_rack>` labels
 * derived from their position i; pod documents gain `spec.schedulerName`.
 * Neither transform overwrites a value that is already present.
 *
 * A document that is not a mapping is skipped. A `metadata`, `labels` or
 * `spec` value that is present but is not a mapping makes Python raise,
 * which ends the walk; the documents already visited stay updated.
 */
module HierarchicalYamls {
  import opened Wrappers
  import opened PythonInt

  const RackKey: string := "rack"
  const ServerKey: string := "server"

  /** The exception Python raises while updating one document. */
  datatype Exception =
    | ZeroDivisionError        // `idx // servers_per_rack` with servers_per_rack == 0
    | AttributeError(key: string) // `setdefault` on a present value that is not a mapping
    | TypeError(key: string)      // `in` or item assignment on labels that are not a mapping

  /** The exception and the list index of the document that raised it. */
  datatype Raised = Raised(index: nat, exception: Exception)

  // ---------------------------------------------------------------- nodes

  /** The `labels` entry of a node's metadata. Values are kept as their YAML text. */
  datatype Labels =
    | LabelsAbsent
    | LabelMap(entries: map<string, string>)
    | LabelsNotMapping(text: string)

  /** The `metadata` entry of a node; `rest` holds its keys other than `labels`. */
  datatype Metadata =
    | MetadataAbsent
    | MetadataMap(labels: Labels, rest: map<string, string>)
    | MetadataNotMapping(text: string)

  /** One node document; `rest` holds its top-level keys other than `metadata`. */
  datatype NodeDoc =
    | NodeNotDict(text: string)
    | NodeDict(metadata: Metadata, rest: map<string, string>)

  /** The f-string `rack-{idx // servers_per_rack}`: the prefix, then text that reads back as the rack index. */
  function RackLabel(idx: nat, serversPerRack: int): (r: string)
    requires serversPerRack != 0
    ensures |r| > 5 && r[..5] == "rack-"
    ensures ParseInt(r[5..]) == Some(FloorDiv(idx, serversPerRack))
  {
    var text := Str(FloorDiv(idx, serversPerRack));
    StrRoundTrip(FloorDiv(idx, serversPerRack));
    assert ("rack-" + text)[5..] == text;
    "rack-" + text
  }

  /** The f-string `srv-{idx % servers_per_rack}`: the prefix, then text that reads back as the server index. */
  function ServerLabel(idx: nat, serversPerRack: int): (r: string)
    requires serversPerRack != 0
    ensures |r| > 4 && r[..4] == "srv-"
    ensures ParseInt(r[4..]) == Some(FloorMod(idx, serversPerRack))
  {
    var text := Str(FloorMod(idx, serversPerRack));
    StrRoundTrip(FloorMod(idx, serversPerRack));
    assert ("srv-" + text)[4..] == text;
    "srv-" + text
  }

  /** Adds the rack and server labels for position idx, keeping any already present. */
  function WithHierarchy(labels: map<string, string>, idx: nat, serversPerRack: int): (r: map<string, string>)
    requires serversPerRack != 0
    ensures r.Keys == labels.Keys + {RackKey, ServerKey}
    ensures forall key | key in labels :: r[key] == labels[key]
  {
    var withRack := if RackKey in labels then labels else labels[RackKey := RackLabel(idx, serversPerRack)];
    if ServerKey in withRack then withRack else withRack[ServerKey := ServerLabel(idx, serversPerRack)]
  }

  /** The update the loop body makes to the document at position idx. */
  function AnnotateNode(node: NodeDoc, idx: nat, serversPerRack: int): (r: Result<NodeDoc, Exception>)
    ensures node.NodeNotDict? ==> r == Ok(node)
    ensures r.Err? ==> node.NodeDict?
    ensures node.NodeDict? && serversPerRack == 0 ==> r == Err(ZeroDivisionError)
    ensures r.Ok? && node.NodeDict? ==> HasHierarchy(r.value) && r.value.rest == node.rest
  {
    match node
    case NodeNotDict(_) => Ok(node)
    case NodeDict(metadata, rest) =>
      if serversPerRack == 0 then Err(ZeroDivisionError)
      else
        match metadata
        case MetadataNotMapping(_) => Err(AttributeError("metadata"))
        case MetadataAbsent =>
          Ok(NodeDict(MetadataMap(LabelMap(WithHierarchy(map[], idx, serversPerRack)), map[]), rest))
        case MetadataMap(labels, metaRest) =>
          match labels
          case LabelsNotMapping(_) => Err(TypeError("labels"))
          case LabelsAbsent =>
            Ok(NodeDict(MetadataMap(LabelMap(WithHierarchy(map[], idx, serversPerRack)), metaRest), rest))
          case LabelMap(entries) =>
            Ok(NodeDict(MetadataMap(LabelMap(WithHierarchy(entries, idx, serversPerRack)), metaRest), rest))
  }

  /** The labels of a node document, empty when it has none. */
  function LabelsOf(node: NodeDoc): map<string, string>
  {
    if node.NodeDict? && node.metadata.MetadataMap? && node.metadata.labels.LabelMap?
    then node.metadata.labels.entries else map[]
  }

  /** A mapping node that carries both hierarchy labels. */
  predicate HasHierarchy(node: NodeDoc)
  {
    node.NodeDict? && node.metadata.MetadataMap? && node.metadata.labels.LabelMap?
    && RackKey in node.metadata.labels.entries && ServerKey in node.metadata.labels.entries
  }

  /** Whether every document of the list can be updated without an exception. */
  predicate NodesAnnotatable(nodes: seq<NodeDoc>, serversPerRack: int)
  {
    forall i | 0 <= i < |nodes| :: AnnotateNode(nodes[i], i, serversPerRack).Ok?
  }

  /** The list after the whole walk, when no document raises. */
  function AnnotateAll(nodes: seq<NodeDoc>, serversPerRack: int): (r: seq<NodeDoc>)
    requires NodesAnnotatable(nodes, serversPerRack)
    ensures |r| == |nodes|
    ensures forall i | 0 <= i < |nodes| :: r[i] == AnnotateNode(nodes[i], i, serversPerRack).value
  {
    seq(|nodes|, i requires 0 <= i < |nodes| => AnnotateNode(nodes[i], i, serversPerRack).value)
  }

  /**
   * annotate_nodes_with_hierarchy: updates the list in place. On success every
   * document is replaced by its annotated form; when the document at index k
   * raises, documents before k are annotated and the rest are untouched.
   */
  method AnnotateNodesWithHierarchy(nodes: array<NodeDoc>, serversPerRack: int)
    returns (raised: Option<Raised>)
    modifies nodes
    ensures raised.None? ==>
      NodesAnnotatable(old(nodes[..]), serversPerRack)
      && nodes[..] == AnnotateAll(old(nodes[..]), serversPerRack)
    ensures raised.Some? ==>
      var k := raised.value.index;
      && k < nodes.Length
      && NodesAnnotatable(old(nodes[..k]), serversPerRack)
      && AnnotateNode(old(nodes[k]), k, serversPerRack) == Err(raised.value.exception)
      && nodes[..] == AnnotateAll(old(nodes[..k]), serversPerRack) + old(nodes[k..])
  {
    var i := 0;
    while i < nodes.Length
      invariant 0 <= i <= nodes.Length
      invariant forall k | 0 <= k < i ::
        AnnotateNode(old(nodes[k]), k, serversPerRack).Ok?
        && nodes[k] == AnnotateNode(old(nodes[k]), k, serversPerRack).value
      invariant forall k | i <= k < nodes.Length :: nodes[k] == old(nodes[k])
    {
      var step := AnnotateNode(nodes[i], i, serversPerRack);
      if step.Err? {
        raised := Some(Raised(i, step.error));
        assert nodes[..] == AnnotateAll(old(nodes[..i]), serversPerRack) + old(nodes[i..]);
        return;
      }
      nodes[i] := step.value;
      i := i + 1;
    }
    raised := None;
    assert nodes[..] == AnnotateAll(old(nodes[..]), serversPerRack);
  }

  /**
   * With a non-zero servers_per_rack every document can be annotated unless
   * a mapping node has a metadata or labels value that is not a mapping.
   */
  lemma AnnotateNodeFails(node: NodeDoc, idx: nat, serversPerRack: int)
    requires serversPerRack != 0
    ensures AnnotateNode(node, idx, serversPerRack).Err? <==>
      node.NodeDict? &&
      (node.metadata.MetadataNotMapping? || (node.metadata.MetadataMap? && node.metadata.labels.LabelsNotMapping?))
  {
  }

  /**
   * With a positive servers_per_rack, the labels for position idx are
   * rack-(idx / spr) and srv-(idx % spr) in plain decimal, and the server
   * index lies in [0, spr).
   */
  lemma HierarchyLabelsPositive(idx: nat, serversPerRack: int)
    requires serversPerRack > 0
    ensures RackLabel(idx, serversPerRack) == "rack-" + NatToDecimal(idx / serversPerRack)
    ensures ServerLabel(idx, serversPerRack) == "srv-" + NatToDecimal(idx % serversPerRack)
    ensures 0 <= idx % serversPerRack < serversPerRack
  {
    FloorMatchesEuclidean(idx, serversPerRack);
    var q, r := idx / serversPerRack, idx % serversPerRack;
    assert q >= 0 && r >= 0;
    assert Str(q) == NatToDecimal(q);
    assert Str(r) == NatToDecimal(r);
  }

  /**
   * The two conditional assignments never overwrite: afterwards both
   * hierarchy keys are present, present rack and server labels keep their
   * values, and every other label is kept.
   */
  lemma WithHierarchyKeepsLabels(before: map<string, string>, idx: nat, serversPerRack: int)
    requires serversPerRack != 0
    ensures var after := WithHierarchy(before, idx, serversPerRack);
      && after.Keys == before.Keys + {RackKey, ServerKey}
      && (RackKey in before ==> after[RackKey] == before[RackKey])
      && (ServerKey in before ==> after[ServerKey] == before[ServerKey])
      && (forall key | key in before && key != RackKey && key != ServerKey :: after[key] == before[key])
  {
    assert RackKey != ServerKey by { assert RackKey[0] != ServerKey[0]; }
  }

  /**
   * A missing rack label becomes RackLabel(idx, spr) and a missing server
   * label ServerLabel(idx, spr); HierarchyLabelsPositive gives their text.
   */
  lemma WithHierarchyNewLabels(before: map<string, string>, idx: nat, serversPerRack: int)
    requires serversPerRack != 0
    ensures var after := WithHierarchy(before, idx, serversPerRack);
      && (RackKey !in before ==> after[RackKey] == RackLabel(idx, serversPerRack))
      && (ServerKey !in before ==> after[ServerKey] == ServerLabel(idx, serversPerRack))
  {
    assert RackKey != ServerKey by { assert RackKey[0] != ServerKey[0]; }
  }

  /**
   * Annotating a mapping node replaces its labels by WithHierarchy of the old
   * ones (an absent metadata or labels entry counting as empty), so it carries
   * both hierarchy labels afterwards; the other metadata keys and the other
   * top-level keys are kept.
   */
  lemma AnnotateNodeLabels(node: NodeDoc, idx: nat, serversPerRack: int)
    requires serversPerRack != 0 && node.NodeDict?
    requires AnnotateNode(node, idx, serversPerRack).Ok?
    ensures var r := AnnotateNode(node, idx, serversPerRack).value;
      && HasHierarchy(r)
      && LabelsOf(r) == WithHierarchy(LabelsOf(node), idx, serversPerRack)
      && r.rest == node.rest
      && (node.metadata.MetadataMap? ==> r.metadata.rest == node.metadata.rest)
      && (node.metadata.MetadataAbsent? ==> r.metadata.rest == map[])
  {
    WithHierarchyKeepsLabels(LabelsOf(node), idx, serversPerRack);
  }

  /** Documents that are not mappings are left as they are, whatever their index. */
  lemma AnnotateAllSkipsNonDicts(nodes: seq<NodeDoc>, serversPerRack: int, i: nat)
    requires NodesAnnotatable(nodes, serversPerRack)
    requires i < |nodes| && nodes[i].NodeNotDict?
    ensures AnnotateAll(nodes, serversPerRack)[i] == nodes[i]
  {
  }

  /** After a successful walk every mapping node carries both hierarchy labels. */
  lemma AnnotateAllLabelsEveryDict(nodes: seq<NodeDoc>, serversPerRack: int)
    requires serversPerRack != 0
    requires NodesAnnotatable(nodes, serversPerRack)
    ensures forall i | 0 <= i < |nodes| ::
      (AnnotateAll(nodes, serversPerRack)[i].NodeDict? <==> nodes[i].NodeDict?)
      && (nodes[i].NodeDict? ==> HasHierarchy(AnnotateAll(nodes, serversPerRack)[i]))
  {
    forall i | 0 <= i < |nodes| && nodes[i].NodeDict?
      ensures HasHierarchy(AnnotateAll(nodes, serversPerRack)[i])
    {
      AnnotateNodeLabels(nodes[i], i, serversPerRack);
    }
  }

  /** Annotating an annotated node again changes nothing. */
  lemma AnnotateNodeIdempotent(node: NodeDoc, idx: nat, serversPerRack: int)
    requires AnnotateNode(node, idx, serversPerRack).Ok?
    ensures var r := AnnotateNode(node, idx, serversPerRack).value;
      AnnotateNode(r, idx, serversPerRack) == Ok(r)
  {
  }

  /** Running the whole walk a second time changes nothing. */
  lemma AnnotateAllIdempotent(nodes: seq<NodeDoc>, serversPerRack: int)
    requires NodesAnnotatable(nodes, serversPerRack)
    ensures NodesAnnotatable(AnnotateAll(nodes, serversPerRack), serversPerRack)
    ensures AnnotateAll(AnnotateAll(nodes, serversPerRack), serversPerRack) == AnnotateAll(nodes, serversPerRack)
  {
    var once := AnnotateAll(nodes, serversPerRack);
    forall i | 0 <= i < |once|
      ensures AnnotateNode(once[i], i, serversPerRack) == Ok(once[i])
    {
      AnnotateNodeIdempotent(nodes[i], i, serversPerRack);
    }
  }

  /**
   * Two positions get the same rack label exactly when they fall in the same
   * block of servers_per_rack nodes, and no two positions get the same
   * (rack, server) pair.
   */
  lemma HierarchyLabelsDistinct(i: nat, j: nat, serversPerRack: int)
    requires serversPerRack != 0
    ensures RackLabel(i, serversPerRack) == RackLabel(j, serversPerRack) <==>
      FloorDiv(i, serversPerRack) == FloorDiv(j, serversPerRack)
    ensures ServerLabel(i, serversPerRack) == ServerLabel(j, serversPerRack) <==>
      FloorMod(i, serversPerRack) == FloorMod(j, serversPerRack)
    ensures i != j ==>
      RackLabel(i, serversPerRack) != RackLabel(j, serversPerRack)
      || ServerLabel(i, serversPerRack) != ServerLabel(j, serversPerRack)
  {
    var qi, qj := FloorDiv(i, serversPerRack), FloorDiv(j, serversPerRack);
    var ri, rj := FloorMod(i, serversPerRack), FloorMod(j, serversPerRack);
    StrInjective(qi, qj);
    StrInjective(ri, rj);
    if RackLabel(i, serversPerRack) == RackLabel(j, serversPerRack) {
      assert Str(qi) == RackLabel(i, serversPerRack)[5..];
      assert Str(qj) == RackLabel(j, serversPerRack)[5..];
    }
    if ServerLabel(i, serversPerRack) == ServerLabel(j, serversPerRack) {
      assert Str(ri) == ServerLabel(i, serversPerRack)[4..];
      assert Str(rj) == ServerLabel(j, serversPerRack)[4..];
    }
    if qi == qj && ri == rj {
      FloorDivModDetermine(i, j, serversPerRack);
    }
  }

  // ----------------------------------------------------------------- pods

  /** The `spec` entry of a pod; `rest` holds its keys other than `schedulerName`. */
  datatype Spec =
    | SpecAbsent
    | SpecMap(schedulerName: Option<string>, rest: map<string, string>)
    | SpecNotMapping(text: string)

  /** One pod document; `rest` holds its top-level keys other than `spec`. */
  datatype PodDoc =
    | PodNotDict(text: string)
    | PodDict(spec: Spec, rest: map<string, string>)

  /** The update the loop body makes to one pod document. */
  function SetDefaultScheduler(pod: PodDoc, schedulerName: string): (r: Result<PodDoc, Exception>)
    ensures r.Err? <==> pod.PodDict? && pod.spec.SpecNotMapping?
    ensures r.Ok? && pod.PodDict? ==>
      r.value.PodDict? && r.value.spec.SpecMap? && r.value.spec.schedulerName.Some? && r.value.rest == pod.rest
  {
    match pod
    case PodNotDict(_) => Ok(pod)
    case PodDict(spec, rest) =>
      match spec
      case SpecNotMapping(_) => Err(AttributeError("spec"))
      case SpecAbsent => Ok(PodDict(SpecMap(Some(schedulerName), map[]), rest))
      case SpecMap(existing, specRest) =>
        Ok(PodDict(SpecMap(if existing.Some? then existing else Some(schedulerName), specRest), rest))
  }

  predicate PodsUpdatable(pods: seq<PodDoc>, schedulerName: string)
  {
    forall i | 0 <= i < |pods| :: SetDefaultScheduler(pods[i], schedulerName).Ok?
  }

  /** The list after the whole walk, when no document raises. */
  function UpdateAll(pods: seq<PodDoc>, schedulerName: string): (r: seq<PodDoc>)
    requires PodsUpdatable(pods, schedulerName)
    ensures |r| == |pods|
    ensures forall i | 0 <= i < |pods| :: r[i] == SetDefaultScheduler(pods[i], schedulerName).value
  {
    seq(|pods|, i requires 0 <= i < |pods| => SetDefaultScheduler(pods[i], schedulerName).value)
  }

  /**
   * update_pods_with_scheduler: updates the list in place; on an exception at
   * index k the pods before k are updated and the rest are untouched.
   */
  method UpdatePodsWithScheduler(pods: array<PodDoc>, schedulerName: string)
    returns (raised: Option<Raised>)
    modifies pods
    ensures raised.None? ==>
      PodsUpdatable(old(pods[..]), schedulerName)
      && pods[..] == UpdateAll(old(pods[..]), schedulerName)
    ensures raised.Some? ==>
      var k := raised.value.index;
      && k < pods.Length
      && PodsUpdatable(old(pods[..k]), schedulerName)
      && SetDefaultScheduler(old(pods[k]), schedulerName) == Err(raised.value.exception)
      && pods[..] == UpdateAll(old(pods[..k]), schedulerName) + old(pods[k..])
  {
    var i := 0;
    while i < pods.Length
      invariant 0 <= i <= pods.Length
      invariant forall k | 0 <= k < i ::
        SetDefaultScheduler(old(pods[k]), schedulerName).Ok?
        && pods[k] == SetDefaultScheduler(old(pods[k]), schedulerName).value
      invariant forall k | i <= k < pods.Length :: pods[k] == old(pods[k])
    {
      var step := SetDefaultScheduler(pods[i], schedulerName);
      if step.Err? {
        raised := Some(Raised(i, step.error));
        assert pods[..] == UpdateAll(old(pods[..i]), schedulerName) + old(pods[i..]);
        return;
      }
      pods[i] := step.value;
      i := i + 1;
    }
    raised := None;
    assert pods[..] == UpdateAll(old(pods[..]), schedulerName);
  }

  /**
   * The contract for one pod: it raises exactly when it is a mapping whose
   * spec is present but not a mapping; otherwise a mapping pod ends with a
   * schedulerName, the old one if there was one and the given name if not,
   * and nothing else changes; other documents are untouched.
   */
  lemma SetDefaultSchedulerContract(pod: PodDoc, schedulerName: string)
    ensures var r := SetDefaultScheduler(pod, schedulerName);
      && (r.Err? <==> pod.PodDict? && pod.spec.SpecNotMapping?)
      && (pod.PodNotDict? ==> r == Ok(pod))
      && (r.Ok? && pod.PodDict? ==>
            && r.value.PodDict? && r.value.spec.SpecMap? && r.value.spec.schedulerName.Some?
            && r.value.rest == pod.rest
            && (pod.spec.SpecMap? && pod.spec.schedulerName.Some? ==>
                  r.value.spec.schedulerName == pod.spec.schedulerName)
            && (pod.spec.SpecMap? ==> r.value.spec.rest == pod.spec.rest)
            && (!(pod.spec.SpecMap? && pod.spec.schedulerName.Some?) ==>
                  r.value.spec.schedulerName == Some(schedulerName)))
  {
  }

  /** Running the walk a second time changes nothing. */
  lemma UpdateAllIdempotent(pods: seq<PodDoc>, schedulerName: string)
    requires PodsUpdatable(pods, schedulerName)
    ensures PodsUpdatable(UpdateAll(pods, schedulerName), schedulerName)
    ensures UpdateAll(UpdateAll(pods, schedulerName), schedulerName) == UpdateAll(pods, schedulerName)
  {
    var once := UpdateAll(pods, schedulerName);
    forall i | 0 <= i < |once|
      ensures SetDefaultScheduler(once[i], schedulerName) == Ok(once[i])
    {
    }
  }
}
