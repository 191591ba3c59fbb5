/**
 * The RL scheduler score plugin: a scheduler-framework plugin that asks an
 * external scoring service for one score per candidate node during PreScore,
 * caches the answer in the scheduling cycle's key/value store, and serves
 * per-node lookups from that cache during Score.
 *
 * The HTTP/JSON exchange (marshal, request construction, send, decode) is one
 * abstract function `transport`, whose result is either the decoded score map
 * or the stage that failed.
 */
module RLSchedulerScore {
  import Wrappers

  /** Go's int64, the type of every score. */
  newtype int64 = x: int | -0x8000_0000_0000_0000 <= x < 0x8000_0000_0000_0000

  /** The cycle-state key under which PreScore stores the scores. */
  const RlScoreStateKey: string := "PreScore-RLSchedulerScorePlugin"

  /** The scoring endpoint used when none is configured. */
  const DefaultEndpoint: string := "http://localhost:5000/score"

  /** The scheduler framework's lowest node score. */
  const MinNodeScore: int64 := 0

  /** The pod being placed and a candidate node, as opaque values. */
  datatype Pod = Pod(namespace: string, name: string, uid: string)
  datatype Node = Node(name: string)

  /** The body PreScore sends: a copy of the pod and one node per candidate. */
  datatype ScoreRequest = ScoreRequest(pod: Pod, nodes: seq<Node>)

  /** The step of the HTTP/JSON exchange that failed. */
  datatype Stage = Marshal | NewRequest | Send | Decode

  /** What the exchange with the scoring service produced. */
  datatype TransportResult = Ok(scores: map<string, int64>) | Err(stage: Stage)

  datatype Error =
    | TransportFailed(stage: Stage)          // PreScore: any step of the exchange
    | NotFound(key: string)                  // CycleState.Read: no value under the key
    | ReadingState(key: string, cause: Error) // Score: the read of the cached scores failed
    | NotAnRlScoreState                      // Score: the cached value has another type

  /** A framework status; the nil status PreScore returns on success is Success too. */
  datatype Status = Success | Failed(error: Error)

  /** What Score returns: a score and a status. */
  datatype ScoreOutcome = ScoreOutcome(score: int64, status: Status)

  /** A value kept in the cycle state: this plugin's scores, or data some other plugin stored. */
  datatype StateData =
    | RlScoreState(scores: map<string, int64>)
    | OtherPluginState(owner: string)
  {
    /** The clone of this plugin's state is the state itself, sharing its score map. */
    function Clone(): (c: StateData)
      requires RlScoreState?
      ensures c.RlScoreState? && c.scores == scores
    {
      this
    }
  }

  /** The per-cycle key/value store the framework hands to every callback. */
  class CycleState {
    var storage: map<string, StateData>

    constructor ()
      ensures storage == map[]
    {
      storage := map[];
    }

    function Read(key: string): (r: Wrappers.Result<StateData, Error>)
      reads this
      ensures r.Ok? <==> key in storage
      ensures r.Ok? ==> r.value == storage[key]
      ensures r.Err? ==> r.error == NotFound(key)
    {
      if key in storage then Wrappers.Ok(storage[key]) else Wrappers.Err(NotFound(key))
    }

    method Write(key: string, value: StateData)
      modifies this
      ensures storage == old(storage)[key := value]
    {
      storage := storage[key := value];
    }
  }

  /** The plugin's configuration: the scoring endpoint. */
  datatype Plugin = Plugin(endpoint: string)

  /**
   * Builds the plugin from the value of the endpoint environment variable
   * (the empty string when the variable is unset).
   */
  function NewRLSchedulerScorePlugin(configuredEndpoint: string): (p: Plugin)
    ensures configuredEndpoint == "" ==> p.endpoint == DefaultEndpoint
    ensures configuredEndpoint != "" ==> p.endpoint == configuredEndpoint
  {
    Plugin(if configuredEndpoint == "" then DefaultEndpoint else configuredEndpoint)
  }

  /** The endpoint is never empty, and rebuilding from it changes nothing. */
  lemma EndpointNeverEmpty(configuredEndpoint: string)
    ensures NewRLSchedulerScorePlugin(configuredEndpoint).endpoint != ""
    ensures var p := NewRLSchedulerScorePlugin(configuredEndpoint);
            NewRLSchedulerScorePlugin(p.endpoint) == p
  {
  }

  /** Copies the pod and appends each candidate node, in order. */
  method BuildRequest(pod: Pod, nodes: seq<Node>) returns (req: ScoreRequest)
    ensures req.pod == pod
    ensures |req.nodes| == |nodes|
    ensures forall i | 0 <= i < |nodes| :: req.nodes[i] == nodes[i]
  {
    req := ScoreRequest(pod, []);
    for i := 0 to |nodes|
      invariant req.pod == pod
      invariant req.nodes == nodes[..i]
    {
      req := req.(nodes := req.nodes + [nodes[i]]);
    }
  }

  /**
   * Sends one request for all candidates; only when the exchange succeeds
   * does it store the decoded scores under RlScoreStateKey.
   */
  method PreScore(
    plugin: Plugin, state: CycleState, pod: Pod, nodes: seq<Node>,
    transport: (string, ScoreRequest) -> TransportResult)
    returns (status: Status)
    modifies state
    ensures match transport(plugin.endpoint, ScoreRequest(pod, nodes))
      case Err(stage) =>
        status == Failed(TransportFailed(stage)) && state.storage == old(state.storage)
      case Ok(scores) =>
        status == Success && state.storage == old(state.storage)[RlScoreStateKey := RlScoreState(scores)]
  {
    var req := BuildRequest(pod, nodes);
    assert req == ScoreRequest(pod, nodes);
    var response := transport(plugin.endpoint, req);
    match response {
      case Err(stage) =>
        status := Failed(TransportFailed(stage));
      case Ok(scores) =>
        state.Write(RlScoreStateKey, RlScoreState(scores));
        status := Success;
    }
  }

  /** Looks up one node's score in the cached response. */
  function Score(state: CycleState, nodeName: string): (r: ScoreOutcome)
    reads state
    ensures RlScoreStateKey !in state.storage ==>
      r == ScoreOutcome(0, Failed(ReadingState(RlScoreStateKey, NotFound(RlScoreStateKey))))
    ensures RlScoreStateKey in state.storage && !state.storage[RlScoreStateKey].RlScoreState? ==>
      r == ScoreOutcome(0, Failed(NotAnRlScoreState))
    ensures r.status.Success? <==>
      RlScoreStateKey in state.storage && state.storage[RlScoreStateKey].RlScoreState?
    ensures r.status.Success? ==>
      var scores := state.storage[RlScoreStateKey].scores;
      r.score == if nodeName in scores then scores[nodeName] else MinNodeScore
  {
    match state.Read(RlScoreStateKey)
    case Err(e) => ScoreOutcome(0, Failed(ReadingState(RlScoreStateKey, e)))
    case Ok(data) =>
      match data
      case OtherPluginState(_) => ScoreOutcome(0, Failed(NotAnRlScoreState))
      case RlScoreState(scores) =>
        if nodeName in scores then ScoreOutcome(scores[nodeName], Success)
        else ScoreOutcome(MinNodeScore, Success)
  }

  /** Replacing the cached state by its clone changes no Score answer. */
  lemma ScoreSeesThroughClone(state: CycleState, clone: CycleState, nodeName: string)
    requires RlScoreStateKey in state.storage && state.storage[RlScoreStateKey].RlScoreState?
    requires clone.storage == state.storage[RlScoreStateKey := state.storage[RlScoreStateKey].Clone()]
    ensures Score(clone, nodeName) == Score(state, nodeName)
  {
  }

  /**
   * One scheduling cycle on a fresh cycle state: PreScore, then Score for one
   * node. Scores the service returned are served exactly, nodes it left out
   * get MinNodeScore, and after a failed exchange Score fails on the state read.
   */
  method PreScoreThenScore(
    plugin: Plugin, pod: Pod, nodes: seq<Node>,
    transport: (string, ScoreRequest) -> TransportResult, nodeName: string)
    returns (preStatus: Status, scored: ScoreOutcome)
    ensures match transport(plugin.endpoint, ScoreRequest(pod, nodes))
      case Ok(scores) =>
        && preStatus == Success
        && scored == ScoreOutcome(if nodeName in scores then scores[nodeName] else MinNodeScore, Success)
      case Err(stage) =>
        && preStatus == Failed(TransportFailed(stage))
        && scored == ScoreOutcome(0, Failed(ReadingState(RlScoreStateKey, NotFound(RlScoreStateKey))))
  {
    var state := new CycleState();
    preStatus := PreScore(plugin, state, pod, nodes, transport);
    scored := Score(state, nodeName);
  }

  /**
   * The two-node example: the service scores n1 at 80 and omits n2, so
   * Score gives 80 for n1 and MinNodeScore for n2, both with Success.
   */
  method PartialResponseExample() returns (n1: ScoreOutcome, n2: ScoreOutcome)
    ensures n1 == ScoreOutcome(80, Success)
    ensures n2 == ScoreOutcome(MinNodeScore, Success)
  {
    var plugin := NewRLSchedulerScorePlugin("");
    var state := new CycleState();
    var pod := Pod("default", "p1", "uid-p1");
    var status := PreScore(plugin, state, pod, [Node("n1"), Node("n2")],
                           (endpoint, req) => Ok(map["n1" := 80]));
    n1 := Score(state, "n1");
    n2 := Score(state, "n2");
  }
}
