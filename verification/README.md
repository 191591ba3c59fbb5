# RL scheduler score plugin and hierarchical YAML transforms, in Dafny

This project models two parts of the pytorch-rl-scheduler repository.

1. **The RL scheduler score plugin** (`pkg/simulator/plugin/rl_scheduler_score.go`).
   This is a scheduler-framework plugin. In PreScore it sends the pod and the list of candidate nodes to an
   external scoring service. It stores the returned `node name -> int64` map in the scheduling cycle's
   key/value store, under the key `PreScore-RLSchedulerScorePlugin`. In Score it looks up one node in that map.
   - A missing key or a value of the wrong type is an error status.
   - A node the service left out gets `MinNodeScore`.
   - The whole HTTP/JSON exchange (marshal, request construction, send, decode) is one function parameter,
     `transport(endpoint, request)`. It yields either the decoded map or the stage that failed. PreScore's
     contract therefore names the exact request and endpoint it sends.
   - The cycle state is a class whose `storage` map PreScore updates through `Write`.
   - Score is a function that reads the cycle state, so it cannot change it.
2. **The YAML annotation transforms** (`create_hierarchical_yamls.py`).
   - `annotate_nodes_with_hierarchy` labels each mapping node at list position `i` with
     `rack-<i // servers_per_rack>` and `srv-<i % servers_per_rack>`.
   - `update_pods_with_scheduler` sets `spec.schedulerName` on each mapping pod.
   - Neither overwrites a value that is already there, and both skip documents that are not mappings.
   - The list is an `array` updated in place, as the Python list is.
   - Python's floor `//` and `%` and `str(int)` are written out in `python_int.dfy`.
   - A present `metadata`, `labels` or `spec` value that is not a mapping makes Python raise. That ends the
     walk, and the documents already visited stay updated. The model returns the exception and its index.

Files: `wrappers.dfy` (Option, Result), `python_int.dfy` (module `PythonInt`),
`rl_scheduler_score.dfy` (module `RLSchedulerScore`), `hierarchical_yamls.dfy` (module `HierarchicalYamls`).

## Model

| member | source | states |
|---|---|---|
| `RLSchedulerScore.NewRLSchedulerScorePlugin` | pkg/simulator/plugin/rl_scheduler_score.go:39-49 | an empty configured endpoint gives `http://localhost:5000/score`; any other value is used unchanged |
| `RLSchedulerScore.EndpointNeverEmpty` | pkg/simulator/plugin/rl_scheduler_score.go:40-43 | the resolved endpoint is never empty, and resolving it again changes nothing |
| `RLSchedulerScore.BuildRequest` | pkg/simulator/plugin/rl_scheduler_score.go:69-72 | the request holds the pod and exactly one node per candidate, in the input order |
| `RLSchedulerScore.CycleState.Write` | pkg/simulator/plugin/rl_scheduler_score.go:96 | the store afterwards is the old store with only the written key set to the value |
| `RLSchedulerScore.CycleState.Read` | pkg/simulator/plugin/rl_scheduler_score.go:102-105 | a read succeeds exactly when the key is present, returns the stored value, and otherwise returns a not-found error |
| `RLSchedulerScore.PreScore` | pkg/simulator/plugin/rl_scheduler_score.go:68-98 | it sends `ScoreRequest(pod, nodes)` to the plugin's endpoint; on a failed stage it returns that failure and leaves the cycle state unchanged; on success it returns Success and writes exactly the decoded map under the plugin key, changing no other key |
| `RLSchedulerScore.Score` | pkg/simulator/plugin/rl_scheduler_score.go:101-114 | a missing key gives score 0 with a read error; a value of another type gives score 0 with a conversion error; it succeeds exactly when the plugin's state is stored; it then returns the cached score, or MinNodeScore when the node is absent |
| `RLSchedulerScore.StateData.Clone` | pkg/simulator/plugin/rl_scheduler_score.go:35-36 | the clone is this plugin's state with the same score map |
| `RLSchedulerScore.ScoreSeesThroughClone` | pkg/simulator/plugin/rl_scheduler_score.go:35-36 | replacing the stored state by its clone changes no Score answer |
| `RLSchedulerScore.PreScoreThenScore` | pkg/simulator/plugin/rl_scheduler_score.go:74-113 | in one cycle, after a successful exchange Score returns each returned score exactly and MinNodeScore for omitted nodes, both with Success; after a failed exchange PreScore reports that stage and Score fails on the state read with score 0 |
| `RLSchedulerScore.PartialResponseExample` | pkg/simulator/plugin/rl_scheduler_score.go:110-113 | with candidates n1 and n2 and a response scoring only n1 at 80, Score gives 80 for n1 and MinNodeScore for n2 |
| `PythonInt.FloorDiv` | create_hierarchical_yamls.py:80 | `idx // spr` is the floor of the rational quotient, for positive and negative divisors |
| `PythonInt.FloorMod` | create_hierarchical_yamls.py:81 | `idx % spr` completes `idx == spr * (idx // spr) + idx % spr` and lies in [0, spr) for spr > 0 and in (spr, 0] for spr < 0 |
| `PythonInt.FloorMatchesEuclidean` | create_hierarchical_yamls.py:80-81 | for a positive divisor Python's `//` and `%` agree with Dafny's `/` and `%` |
| `PythonInt.FloorDivModDetermine` | create_hierarchical_yamls.py:80-81 | two positions with the same quotient and remainder are the same position |
| `PythonInt.NatToDecimal` | create_hierarchical_yamls.py:86-88 | `str(n)` for n >= 0 is a non-empty digit string without leading zeros |
| `PythonInt.DecimalRoundTrip` | create_hierarchical_yamls.py:86-88 | reading back the digits of `str(n)` gives n |
| `PythonInt.StrRoundTrip` | create_hierarchical_yamls.py:86-88 | parsing `str(i)` gives i for every integer, negative ones included |
| `PythonInt.StrInjective` | create_hierarchical_yamls.py:86-88 | `str(i) == str(j)` exactly when i == j |
| `PythonInt.Str` | create_hierarchical_yamls.py:86-88 | `str(i)` is non-empty, starts with '-' exactly when i < 0, and is otherwise digits without a leading zero; StrRoundTrip proves it reads back to i |
| `HierarchicalYamls.RackLabel` | create_hierarchical_yamls.py:80-86 | the rack label is `rack-` followed by text that parses back to `idx // spr` |
| `HierarchicalYamls.ServerLabel` | create_hierarchical_yamls.py:81-88 | the server label is `srv-` followed by text that parses back to `idx % spr` |
| `HierarchicalYamls.WithHierarchy` | create_hierarchical_yamls.py:84-88 | the labels gain exactly the keys `rack` and `server`, and every label already present keeps its value; WithHierarchyNewLabels gives the values of the added keys |
| `HierarchicalYamls.AnnotateNode` | create_hierarchical_yamls.py:78-88 | a non-mapping document is returned unchanged; only mapping documents raise, and with spr == 0 they raise ZeroDivisionError; an updated mapping carries both hierarchy labels and keeps its other top-level keys; AnnotateNodeFails gives the exact raising condition |
| `HierarchicalYamls.SetDefaultScheduler` | create_hierarchical_yamls.py:108-113 | a pod raises exactly when it is a mapping whose spec is present but not a mapping; an updated mapping pod has a mapping spec with a schedulerName and keeps its other top-level keys; SetDefaultSchedulerContract says which name |
| `HierarchicalYamls.AnnotateAll` | create_hierarchical_yamls.py:77-89 | a walk without exceptions keeps the list length, and the document at each position is updated using that position as its index |
| `HierarchicalYamls.AnnotateNodesWithHierarchy` | create_hierarchical_yamls.py:57-89 | without an exception the array becomes AnnotateAll of its old contents; when the document at k raises, the documents before k are annotated and those from k on are untouched |
| `HierarchicalYamls.AnnotateNodeFails` | create_hierarchical_yamls.py:78-83 | with spr != 0 a document raises exactly when it is a mapping whose metadata, or whose labels, is present but not a mapping |
| `HierarchicalYamls.HierarchyLabelsPositive` | create_hierarchical_yamls.py:80-88 | with spr > 0 the labels for position idx are `"rack-" + str(idx / spr)` and `"srv-" + str(idx % spr)`, and the server index lies in [0, spr) |
| `HierarchicalYamls.WithHierarchyKeepsLabels` | create_hierarchical_yamls.py:84-88 | afterwards both `rack` and `server` are present; present rack and server values are kept; every other label is kept with its value |
| `HierarchicalYamls.WithHierarchyNewLabels` | create_hierarchical_yamls.py:85-88 | a missing `rack` label becomes the rack label of the position and a missing `server` label the server label of the position |
| `HierarchicalYamls.AnnotateNodeLabels` | create_hierarchical_yamls.py:82-88 | for any spr != 0, negative ones included, an annotated mapping node has both hierarchy labels, its labels are the old ones (absent counting as empty) with the hierarchy added, and its other metadata keys and top-level keys are unchanged |
| `HierarchicalYamls.AnnotateAllSkipsNonDicts` | create_hierarchical_yamls.py:77-79 | a document that is not a mapping is unchanged, though it still occupies its index |
| `HierarchicalYamls.AnnotateAllLabelsEveryDict` | create_hierarchical_yamls.py:77-89 | for any spr != 0, after a walk without exceptions, exactly the mapping documents are mappings, and each carries both `rack` and `server` |
| `HierarchicalYamls.AnnotateNodeIdempotent` | create_hierarchical_yamls.py:84-88 | annotating an annotated document again returns it unchanged |
| `HierarchicalYamls.AnnotateAllIdempotent` | create_hierarchical_yamls.py:77-89 | a second walk raises nothing and changes nothing |
| `HierarchicalYamls.HierarchyLabelsDistinct` | create_hierarchical_yamls.py:80-88 | two positions share a rack label exactly when they share `idx // spr`, and a server label exactly when they share `idx % spr`; distinct positions never share both |
| `HierarchicalYamls.UpdateAll` | create_hierarchical_yamls.py:107-114 | a walk without exceptions keeps the list length and updates each pod in its place |
| `HierarchicalYamls.UpdatePodsWithScheduler` | create_hierarchical_yamls.py:92-114 | without an exception the array becomes UpdateAll of its old contents; when the pod at k raises, the pods before k are updated and those from k on are untouched |
| `HierarchicalYamls.SetDefaultSchedulerContract` | create_hierarchical_yamls.py:107-113 | a pod raises exactly when it is a mapping whose spec is present but not a mapping; a pod that is not a mapping is unchanged; otherwise the pod ends with a schedulerName, which is the old one when there was one and the given name when not, with all other keys kept |
| `HierarchicalYamls.UpdateAllIdempotent` | create_hierarchical_yamls.py:107-114 | a second walk raises nothing and changes nothing |

## Left out

- Bind: `rl_scheduler_score.go` defines no Bind callback, so no binding is modelled.
- `Name()` returns a constant defined in a package that is not part of this model.
- `ScoreExtensions()` returns nil. The model applies no normalization step, which matches that.
- The HTTP client, `http.NewRequestWithContext`, the `Content-Type` header, JSON marshalling and decoding, and closing the response body are network I/O and library calls. All of them together are the `transport` parameter. A JSON score outside int64 is a decode failure in Go, so it is a `Decode` stage failure here.
- `pod.DeepCopy()` and the copy of each `*corev1.Node`: pods and nodes are immutable values here, so copying is identity. Only namespace, name and uid (pods) and name (nodes) are kept.
- The `RL_SCHEDULER_ENDPOINT` environment variable becomes the `configuredEndpoint` parameter. The empty string stands for "unset", as `os.Getenv` reports it.
- The framework handle and `framework.Status` codes: a nil status and `framework.Success` are both `Success`; `framework.AsStatus(err)` is `Failed(error)`.
- `MinNodeScore` is the framework's constant 0. Its definition is not part of this model.
- Context cancellation, and the framework's locking and concurrent Score calls. A cancelled context shows up as a `Send` failure.
- `process_directory` and `main`: directory traversal, YAML loading and dumping, argparse, printing.
- All of `example/pytorch-rl/rl_service.py`: the Flask endpoint, the neural network, and the floating-point feature parsing.
- Label values, other keys and scalar documents are kept as opaque strings. The transforms only test keys, so apart from the sharing described in the next line no result depends on the values. YAML dumping sorts keys, so dict insertion order is not modelled.
- A mapping shared between two places is not modelled: documents are values here, while Python updates the shared dict objects in place. With a YAML anchor such as `labels: &l {zone: a}` and `annotations: *l` in one node, `annotations` gains `rack` and `server` too, whereas AnnotateNodeLabels keeps the other metadata keys unchanged. With the same dict at two list positions, Python keeps the labels of the first position, while the model gives the second position its own labels.
- HierarchicalYamls.AnnotateNode: a present `labels` value that is not a mapping always raises `TypeError` here. In Python a string, list or YAML `!!set` value that already contains both `rack` and `server` would pass unchanged.
- The Python functions also return the list they mutated. That is the same object as their argument, so the methods return only the exception, if any.
