# Center point node, modelled in Dafny

The repository is a plugin for a 3D animation host. It adds one
dependency-graph node, `centerPoint`. The node has an array input of world
matrices (`input`) and a 3-double output (`outputPosition`). When the host asks
for the output, the node does four things:

- it reads every populated element of the input array, in the order the
  host's array handle visits them;
- it takes the world-space translation of each matrix;
- it averages those translations;
- it writes the mean to the output and marks the output plug clean.

The node checks the status of five host calls: getting the input array handle
(`CenterPointNode.cpp:24`), jumping to the first element (line 31), reading an
element's value (line 40), taking its translation (line 49) and getting the
output handle (line 62). When any of these fails, the evaluation ends with a
failure and nothing is written. A failing `next()` (line 58) is not an error:
it ends the traversal. The status of `setClean` (line 71) is not checked.

This project models that evaluation and proves what it computes.

- `wrappers.dfy`: `Option` and `Result`, for host calls that can fail.
- `vectors.dfy` (module `Vectors`): the host's vector type as `Vec3`, a triple of
  exact reals. It also holds the running sum `Sum` (accumulated in list order
  from (0, 0, 0)), a per-axis reference sum `Total`, the mean `Mean`, and the
  lemmas about them.
- `center_point_node.dfy` (module `CenterPoint`):
  - the gate `IsDirty`, which is true exactly when the requested plug is
    `outputPosition` (`CenterPointNode.cpp:97-100`);
  - the reading of one element, `Read`, and of the whole array in order,
    `Gather`;
  - a pure description of one evaluation, `Evaluate`, and the lemmas about it;
  - the class `CenterPointNode`. Its fields are the output value and whether
    the output plug is clean. It has the methods `FindCenterPoint` (a loop
    proved to compute `Mean`) and `Compute`. `Compute` keeps the source's
    early returns and its do-while traversal, and is proved to change the node
    exactly as `Evaluate` says.
- `center_point_tests.dfy` (module `CenterPointTests`):
  - the unit test's four positions and their exact mean;
  - an extra example of a single input, (2, -3, 7);
  - client methods that drive `Compute` on a node.

How the host's data block appears in the model. Each of these is an argument
to `Compute`:

- `input: Option<seq<Element>>`. `None` means the input array handle could
  not be obtained. `Some(elements)` lists the array's populated elements in
  the order `next()` visits them, starting at the first populated element,
  which is what `jumpToArrayElement(0)` reaches.
- Each element is `Option<Matrix>`. `None` means its value could not be read.
- `decompose: Matrix -> Option<Vec3>` stands for the host's
  `MTransformationMatrix::getTranslation`. It is an arbitrary function, and
  `None` means it reported a failure. Every lemma holds for every such
  function.
- `outputAvailable: bool` tells whether the output handle could be obtained.

The source returns one failure status for every error path. The model's
`Status.Failure` also carries which error path was taken: one `Error` per
diagnostic message the node displays.

Two points where the code behaves differently from what a reader might
expect of a dependency-graph node:

- Gate. One would expect evaluation to be a no-op unless the requested plug
  is the output *and* that output is stale. The code's `isDirty` only compares
  the plug with the output attribute. It never looks at a dirty bit
  (`CenterPointNode.cpp:97-100`). So `Compute` recomputes every time the host
  asks for the output, clean or not. With the same inputs it writes the same
  value again. `EvaluateSample` shows this. The comparison is with the
  `outputPosition` plug itself, so a request for one of its children
  (`outputPositionX`, `Y` or `Z`) is not recomputed either: the model's
  `OutputChild` plugs are skipped like any other plug, as
  `EvaluateChildPlug` shows.
- Order of steps. The code computes the mean before it asks for the output
  handle. Only afterwards does it find out that the handle is unavailable
  (`CenterPointNode.cpp:60-67`). Nothing is written in that case, so the
  order cannot be observed, and `Evaluate` reports `OutputUnavailable`.

## Model

| member | source | states |
|---|---|---|
| `Vectors.Mean` | CenterPointNode.cpp:111 | the mean of a non-empty list, multiplied by the number of positions, is their sum; the list must be non-empty because the code divides by its size |
| `Vectors.MeanIsUnique` | CenterPointNode.cpp:111 | a vector is the mean exactly when, multiplied by the count, it gives the sum (both directions) |
| `Vectors.SumIsComponentwise` | CenterPointNode.cpp:104-109 | each coordinate of the sum, accumulated in list order from (0,0,0), equals the plain sum of that coordinate over the list |
| `Vectors.MeanIsComponentwise` | CenterPointNode.cpp:102-114 | each coordinate of the mean is that coordinate's total divided by the number of positions |
| `Vectors.SumPermutation` | CenterPointNode.cpp:106-109 | two lists with the same elements (as multisets) have the same sum, whatever the order of accumulation |
| `Vectors.MeanPermutation` | CenterPointNode.cpp:104-111 | reordering the positions changes neither their count nor their mean |
| `Vectors.MeanOfSingleton` | CenterPointNode.cpp:104-111 | the mean of a single position is that position exactly |
| `CenterPoint.Gather` | CenterPointNode.cpp:38-58 | when every element is read, there is one translation per element, and each is the translation of the element at the same position |
| `CenterPoint.GatherSucceeds` | CenterPointNode.cpp:38-58 | when every element's value and translation can be obtained, reading the array succeeds |
| `CenterPoint.GatherStopsAtFirstFailure` | CenterPointNode.cpp:40-54 | reading the array fails with the error of the first element whose value or translation cannot be obtained; later elements do not matter |
| `CenterPoint.GatherIs` | CenterPointNode.cpp:38-58 | when the elements read as exactly the given positions, reading the array yields exactly those positions, in traversal order |
| `CenterPoint.OtherPlugIsSkipped` | CenterPointNode.cpp:16-19 | for a plug other than the output, including a child of the output, evaluation is skipped and reports success |
| `CenterPoint.MissingInputFails` | CenterPointNode.cpp:24-36 | for the output plug, a missing input array handle fails with InputUnavailable, and an array with no first element fails with NoFirstElement |
| `CenterPoint.ElementFailureStopsEvaluation` | CenterPointNode.cpp:38-58 | the first element whose value or translation cannot be obtained ends the evaluation with its error; no mean is written, even when the output handle is available |
| `CenterPoint.OutputUnavailableFails` | CenterPointNode.cpp:60-67 | when every element was read but the output handle cannot be obtained, evaluation fails with OutputUnavailable and writes nothing |
| `CenterPoint.EvaluationWritesMean` | CenterPointNode.cpp:60-73 | when every step succeeds, the output written is the mean of the translations of exactly the visited elements, in traversal order |
| `CenterPoint.WrittenOnlyWhenEveryStepSucceeds` | CenterPointNode.cpp:14-74 | the output is written if and only if the output plug was requested, the input handle exists, the array has at least one element, every element can be read and the output handle exists; the value written is the mean of one translation per element |
| `CenterPoint.WrittenOutputIgnoresOrder` | CenterPointNode.cpp:38-60 | two arrays whose translations are the same multiset give the same written output |
| `CenterPoint.CenterPointNode.constructor` | CenterPointNode.cpp:129 | a new node's output is at the attribute's default (0,0,0), the default value `numericAttrFn.create` gives it; starting with the plug not clean is a modelling choice, and `Compute` never reads it |
| `CenterPoint.CenterPointNode.FindCenterPoint` | CenterPointNode.cpp:102-114 | the accumulation loop over a non-empty list returns its mean |
| `CenterPoint.CenterPointNode.Compute` | CenterPointNode.cpp:14-74 | returns the status of Evaluate; when Evaluate writes, the output becomes the mean and the plug is clean; on every other path, the output and the clean state are unchanged |
| `CenterPointTests.SampleMean` | center_point_cpp_tests/center_point_cpp_tests.cpp:11-29 | the mean of (0,0,0), (0.5,10.3,50.8), (-15.5,-8.0,-30.0), (34.4,56.66,-45.0) is exactly (4.85, 14.74, -6.05) |
| `CenterPointTests.SingleInputMean` | CenterPointNode.cpp:102-114 | an extra example, not from the repository's test: the mean of the single position (2,-3,7) is exactly (2,-3,7) |

## Left out

- Floating point: vectors are exact reals. The code sums and divides IEEE
  doubles, so its results can differ from the model's by rounding. The unit
  test compares within 0.01 for that reason. Over reals the expected centre
  is exact.
- Matrix decomposition: `MTransformationMatrix::getTranslation` is host
  library code. Here it is the arbitrary, possibly failing function
  `decompose`. Nothing in the model depends on how it works.
- Sparse array indices: the model sees the populated elements in the order
  the host's `next()` visits them, not as a map from logical index to
  element. The host's index bookkeeping is not modelled.
- Host dirty propagation: the output is marked dirty when the input changes
  (`attributeAffects`), but the host's evaluator does that, not the node.
  The model has no operation for it. `Compute` only cleans the plug.
- Compute: the source ignores the status `data.setClean(plug)` returns
  (`CenterPointNode.cpp:71`) and reports success after the output is
  written; the model assumes `setClean` always succeeds, so it cannot
  represent an output that is written while the plug stays unclean.
- Diagnostics: `MGlobal::displayError` writes to the host's log. The model
  keeps only which error path was taken.
- Attribute definition and registration: `defineAttributes`, `Initialize`,
  `Creator`, `GetTypeId` and `GetTypeName` (`CenterPointNode.cpp:76-95`,
  `116-137`) register attributes and constants with the host. The plugin
  entry points in `main.cpp` and the scripts `load_plugin.py` and
  `unload_plugin.py` load and unload the plugin. All of this is host
  plumbing that computes nothing.
- An empty list passed to `findCenterPoint` would divide by zero. In the model
  `FindCenterPoint` requires a non-empty list. `Compute`'s only call site
  cannot pass an empty list, because its do-while loop visits at least one
  element before the call.
