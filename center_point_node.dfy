/**
 * The center point node: a dependency-graph node whose output position is the
 * mean of the world-space translations of the matrices wired into its input
 * array.
 *
 * The host's data block is given to Compute as values: whether the input array
 * handle could be obtained, the array's populated elements in the order the
 * host's `next()` visits them, the host's matrix decomposition, and whether
 * the output handle could be obtained.
 */
module CenterPoint {
  import opened Wrappers
  import opened Vectors

  /** A world matrix, row-major; only the host's decomposition looks inside it. */
  type Matrix = seq<real>

  /**
   * One populated element of the input array: None when the host cannot
   * supply its value, otherwise the matrix stored there.
   */
  type Element = Option<Matrix>

  /**
   * The host's matrix decomposition: the world-space translation of a
   * matrix, or None when the host reports a failed status.
   */
  type Decomposition = Matrix -> Option<Vec3>

  /** A plug the host may ask the node to evaluate. */
  datatype Plug =
    | InputObjects          // the "input" matrix array
    | OutputPosition        // the "outputPosition" 3-double
    | OutputChild(axis: Axis)  // one of its children, outputPositionX, Y or Z
    | Inherited(name: string)  // any other attribute, such as those every node has from the host

  /** Why an evaluation gave up; each names the diagnostic the node displays. */
  datatype Error =
    | InputUnavailable        // no input array handle
    | NoFirstElement          // no populated first element (empty array)
    | ValueUnavailable        // an element's value could not be read
    | TranslationUnavailable  // an element's matrix could not be decomposed
    | OutputUnavailable       // no output handle

  /** The status Compute returns to the host. */
  datatype Status = Success | Failure(error: Error)

  /** What one evaluation does to the node. */
  datatype Outcome =
    | Skipped              // the plug is not the node's business
    | Failed(error: Error) // nothing written, plug left as it was
    | Written(centre: Vec3)  // output set to centre, plug cleaned

  function StatusOf(o: Outcome): Status
  {
    match o
    case Skipped => Success
    case Failed(e) => Failure(e)
    case Written(_) => Success
  }

  /**
   * The node recomputes exactly when the requested plug is its output; a
   * child of the output is a different plug and is not recomputed.
   */
  predicate IsDirty(plug: Plug)
  {
    plug == OutputPosition
  }

  /** Reading one element: its value first, then its translation. */
  function Read(e: Element, decompose: Decomposition): Result<Vec3, Error>
  {
    match e
    case None => Err(ValueUnavailable)
    case Some(m) =>
      match decompose(m)
      case None => Err(TranslationUnavailable)
      case Some(t) => Ok(t)
  }

  /**
   * The translations of all elements, in order, stopping at the first element
   * that cannot be read. On success there is one translation per element,
   * each the translation of the element at the same position.
   */
  function Gather(elements: seq<Element>, decompose: Decomposition): (r: Result<seq<Vec3>, Error>)
    ensures r.Ok? ==> |r.value| == |elements|
    ensures r.Ok? ==> forall k :: 0 <= k < |elements| ==> Read(elements[k], decompose) == Ok(r.value[k])
  {
    if elements == [] then Ok([])
    else
      match Read(elements[0], decompose)
      case Err(e) => Err(e)
      case Ok(t) =>
        match Gather(elements[1..], decompose)
        case Err(e) => Err(e)
        case Ok(ts) => Ok([t] + ts)
  }

  /** If every element can be read, Gather succeeds. */
  lemma {:induction false} GatherSucceeds(elements: seq<Element>, decompose: Decomposition)
    requires forall k :: 0 <= k < |elements| ==> Read(elements[k], decompose).Ok?
    ensures Gather(elements, decompose).Ok?
  {
    if elements != [] {
      GatherSucceeds(elements[1..], decompose);
    }
  }

  /** Gather fails with the error of the first element that cannot be read. */
  lemma {:induction false} GatherStopsAtFirstFailure(elements: seq<Element>, decompose: Decomposition, k: nat)
    requires k < |elements|
    requires forall j :: 0 <= j < k ==> Read(elements[j], decompose).Ok?
    requires Read(elements[k], decompose).Err?
    ensures Gather(elements, decompose) == Err(Read(elements[k], decompose).error)
  {
    if k > 0 {
      assert Read(elements[0], decompose).Ok?;
      GatherStopsAtFirstFailure(elements[1..], decompose, k - 1);
    }
  }

  /** Gather's result is determined by the translations it promises. */
  lemma GatherIs(elements: seq<Element>, decompose: Decomposition, positions: seq<Vec3>)
    requires |positions| == |elements|
    requires forall k :: 0 <= k < |elements| ==> Read(elements[k], decompose) == Ok(positions[k])
    ensures Gather(elements, decompose) == Ok(positions)
  {
    GatherSucceeds(elements, decompose);
    var ps := Gather(elements, decompose).value;
    assert forall k :: 0 <= k < |elements| ==> ps[k] == positions[k];
    assert ps == positions;
  }

  /**
   * One evaluation of the node, as a value: the gate, the input handle, the
   * first element, each visited element in turn, then the output handle.
   */
  function Evaluate(plug: Plug, input: Option<seq<Element>>, decompose: Decomposition, outputAvailable: bool): Outcome
  {
    if !IsDirty(plug) then Skipped
    else if input.None? then Failed(InputUnavailable)
    else if |input.value| == 0 then Failed(NoFirstElement)
    else
      match Gather(input.value, decompose)
      case Err(e) => Failed(e)
      case Ok(positions) =>
        if outputAvailable then Written(Mean(positions)) else Failed(OutputUnavailable)
  }

  /** A plug other than the output is reported done and nothing changes. */
  lemma OtherPlugIsSkipped(plug: Plug, input: Option<seq<Element>>, decompose: Decomposition, outputAvailable: bool)
    requires !IsDirty(plug)
    ensures Evaluate(plug, input, decompose, outputAvailable) == Skipped
    ensures StatusOf(Evaluate(plug, input, decompose, outputAvailable)) == Success
  {
  }

  /** Without an input array handle, or without a first element, evaluation fails. */
  lemma MissingInputFails(input: Option<seq<Element>>, decompose: Decomposition, outputAvailable: bool)
    requires input.None? || input.value == []
    ensures Evaluate(OutputPosition, input, decompose, outputAvailable)
         == Failed(if input.None? then InputUnavailable else NoFirstElement)
  {
  }

  /**
   * The first element that cannot be read ends the evaluation with its error,
   * whatever follows it and whether or not the output could be written.
   */
  lemma ElementFailureStopsEvaluation(elements: seq<Element>, decompose: Decomposition, outputAvailable: bool, k: nat)
    requires k < |elements|
    requires forall j :: 0 <= j < k ==> Read(elements[j], decompose).Ok?
    requires Read(elements[k], decompose).Err?
    ensures Evaluate(OutputPosition, Some(elements), decompose, outputAvailable)
         == Failed(Read(elements[k], decompose).error)
  {
    GatherStopsAtFirstFailure(elements, decompose, k);
  }

  /**
   * When every element was read but the output handle cannot be obtained,
   * evaluation fails and the mean it computed is dropped.
   */
  lemma OutputUnavailableFails(elements: seq<Element>, decompose: Decomposition)
    requires |elements| > 0
    requires forall k :: 0 <= k < |elements| ==> Read(elements[k], decompose).Ok?
    ensures Evaluate(OutputPosition, Some(elements), decompose, false) == Failed(OutputUnavailable)
  {
    GatherSucceeds(elements, decompose);
  }

  /**
   * When every step succeeds, the output written is the mean of the
   * translations of exactly the visited elements, in visiting order.
   */
  lemma EvaluationWritesMean(elements: seq<Element>, decompose: Decomposition, positions: seq<Vec3>)
    requires |elements| > 0
    requires |positions| == |elements|
    requires forall k :: 0 <= k < |elements| ==> Read(elements[k], decompose) == Ok(positions[k])
    ensures Evaluate(OutputPosition, Some(elements), decompose, true) == Written(Mean(positions))
  {
    GatherIs(elements, decompose, positions);
  }

  /**
   * The output is written only when the output plug was requested, the input
   * array had at least one element, every element could be read and the
   * output handle was available; and then it is the mean of the translations.
   */
  lemma WrittenOnlyWhenEveryStepSucceeds(plug: Plug, input: Option<seq<Element>>, decompose: Decomposition, outputAvailable: bool)
    ensures Evaluate(plug, input, decompose, outputAvailable).Written?
        <==> IsDirty(plug) && input.Some? && |input.value| > 0 && outputAvailable
             && forall k :: 0 <= k < |input.value| ==> Read(input.value[k], decompose).Ok?
    ensures Evaluate(plug, input, decompose, outputAvailable).Written? ==>
              var positions := Gather(input.value, decompose).value;
              |positions| == |input.value|
              && (forall k :: 0 <= k < |positions| ==> Read(input.value[k], decompose) == Ok(positions[k]))
              && Evaluate(plug, input, decompose, outputAvailable).centre == Mean(positions)
  {
    if IsDirty(plug) && input.Some? && |input.value| > 0
       && forall k :: 0 <= k < |input.value| ==> Read(input.value[k], decompose).Ok?
    {
      GatherSucceeds(input.value, decompose);
    }
  }

  /** Reordering the array's elements does not change a written output. */
  lemma WrittenOutputIgnoresOrder(elements: seq<Element>, reordered: seq<Element>, decompose: Decomposition,
                                  positions: seq<Vec3>, repositioned: seq<Vec3>)
    requires |elements| > 0
    requires |positions| == |elements| && |repositioned| == |reordered|
    requires forall k :: 0 <= k < |elements| ==> Read(elements[k], decompose) == Ok(positions[k])
    requires forall k :: 0 <= k < |reordered| ==> Read(reordered[k], decompose) == Ok(repositioned[k])
    requires multiset(positions) == multiset(repositioned)
    ensures Evaluate(OutputPosition, Some(elements), decompose, true)
         == Evaluate(OutputPosition, Some(reordered), decompose, true)
  {
    MeanPermutation(positions, repositioned);
    EvaluationWritesMean(elements, decompose, positions);
    EvaluationWritesMean(reordered, decompose, repositioned);
  }

  /**
   * The node. Its output position and whether that output is clean live in
   * the host's data block; they are fields here because Compute updates them.
   */
  class CenterPointNode {
    var output: Vec3
    var clean: bool

    /** A new node: the output at its attribute's default and not yet clean. */
    constructor ()
      ensures output == Zero && !clean
    {
      output := Zero;
      clean := false;
    }

    /** The mean of a non-empty list of positions, accumulated in list order. */
    method FindCenterPoint(positions: seq<Vec3>) returns (centre: Vec3)
      requires |positions| > 0
      ensures centre == Mean(positions)
    {
      var sum := Zero;
      for i := 0 to |positions|
        invariant sum == Sum(positions[..i])
      {
        assert positions[..i + 1][..i] == positions[..i];
        sum := Add(sum, positions[i]);
      }
      assert positions[..|positions|] == positions;
      centre := Div(sum, |positions| as real);
    }

    /**
     * Evaluates `plug`. The output is written and the plug cleaned only when
     * every step succeeds; on every other path both are left as they were.
     */
    method Compute(plug: Plug, input: Option<seq<Element>>, decompose: Decomposition, outputAvailable: bool)
      returns (status: Status)
      modifies this
      ensures status == StatusOf(Evaluate(plug, input, decompose, outputAvailable))
      ensures Evaluate(plug, input, decompose, outputAvailable).Written? ==>
                output == Evaluate(plug, input, decompose, outputAvailable).centre && clean
      ensures !Evaluate(plug, input, decompose, outputAvailable).Written? ==>
                output == old(output) && clean == old(clean)
    {
      if !IsDirty(plug) {
        return Success;
      }
      if input.None? {
        return Failure(InputUnavailable);
      }
      var elements := input.value;
      // jumpToArrayElement(0): the first populated element
      if |elements| == 0 {
        return Failure(NoFirstElement);
      }
      var positions: seq<Vec3> := [];
      var i := 0;
      var more := true;
      // do { ... } while (next() succeeds)
      while more
        invariant 0 <= i <= |elements|
        invariant more <==> i < |elements|
        invariant |positions| == i
        invariant forall k :: 0 <= k < i ==> Read(elements[k], decompose) == Ok(positions[k])
        decreases |elements| - i
      {
        var element := elements[i];
        if element.None? {
          GatherStopsAtFirstFailure(elements, decompose, i);
          return Failure(ValueUnavailable);
        }
        var translation := decompose(element.value);
        if translation.None? {
          GatherStopsAtFirstFailure(elements, decompose, i);
          return Failure(TranslationUnavailable);
        }
        positions := positions + [translation.value];
        i := i + 1;
        more := i < |elements|;
      }
      GatherIs(elements, decompose, positions);
      var centre := FindCenterPoint(positions);
      if !outputAvailable {
        return Failure(OutputUnavailable);
      }
      output := centre;
      clean := true;
      return Success;
    }
  }
}
