/**
 * The repository's unit test of findCenterPoint, stated over exact reals so
 * that the expected centre holds exactly rather than within 0.01, an extra
 * single-input example, and a client of the node.
 */
module CenterPointTests {
  import opened Wrappers
  import opened Vectors
  import opened CenterPoint

  /** The four positions of the unit test of findCenterPoint. */
  const Sample: seq<Vec3> := [
    Vec3(0.0, 0.0, 0.0),
    Vec3(0.5, 10.3, 50.8),
    Vec3(-15.5, -8.0, -30.0),
    Vec3(34.4, 56.66, -45.0)
  ]

  /** The centre that test expects. */
  const SampleCentre: Vec3 := Vec3(4.85, 14.74, -6.05)

  /** The test's expected centre is the exact mean of its positions. */
  lemma SampleMean()
    ensures Mean(Sample) == SampleCentre
  {
    // the running sums of the accumulation loop, one element at a time
    assert Sum(Sample[..1]) == Sample[0] by {
      assert Sample[..1] == [Sample[0]];
      SumOfSingleton(Sample[0]);
    }
    assert Sum(Sample[..2]) == Vec3(0.5, 10.3, 50.8) by {
      assert Sample[..2][..1] == Sample[..1];
    }
    assert Sum(Sample[..3]) == Vec3(-15.0, 2.3, 20.8) by {
      assert Sample[..3][..2] == Sample[..2];
    }
    assert Sum(Sample) == Vec3(19.4, 58.96, -24.2) by {
      assert Sample[..3] == Sample[..|Sample| - 1];
    }
  }

  /** An extra example: a single input gives its own translation back exactly. */
  lemma SingleInputMean()
    ensures Mean([Vec3(2.0, -3.0, 7.0)]) == Vec3(2.0, -3.0, 7.0)
  {
    MeanOfSingleton(Vec3(2.0, -3.0, 7.0));
  }

  /** A row-major world matrix that only translates, by `t`, in the last row. */
  function Translate(t: Vec3): Matrix
  {
    [1.0, 0.0, 0.0, 0.0,
     0.0, 1.0, 0.0, 0.0,
     0.0, 0.0, 1.0, 0.0,
     t.x, t.y, t.z, 1.0]
  }

  /** A stand-in for the host's decomposition that reads the last row. */
  function LastRow(m: Matrix): Option<Vec3>
  {
    if |m| == 16 then Some(Vec3(m[12], m[13], m[14])) else None
  }

  /**
   * A client of the node: evaluating the test's four positions writes their
   * mean and cleans the plug; evaluating again with the same inputs changes
   * nothing; an unreadable element afterwards fails without touching the
   * output; a plug other than the output is left alone.
   */
  method EvaluateSample()
  {
    var node := new CenterPointNode();
    var elements := [Some(Translate(Sample[0])), Some(Translate(Sample[1])),
                     Some(Translate(Sample[2])), Some(Translate(Sample[3]))];
    assert forall k :: 0 <= k < 4 ==> Read(elements[k], LastRow) == Ok(Sample[k]);
    EvaluationWritesMean(elements, LastRow, Sample);
    SampleMean();

    var status := node.Compute(OutputPosition, Some(elements), LastRow, true);
    assert status == Success && node.output == SampleCentre && node.clean;

    status := node.Compute(OutputPosition, Some(elements), LastRow, true);
    assert status == Success && node.output == SampleCentre && node.clean;

    var broken := elements + [None];
    ElementFailureStopsEvaluation(broken, LastRow, true, 4);
    status := node.Compute(OutputPosition, Some(broken), LastRow, true);
    assert status == Failure(ValueUnavailable) && node.output == SampleCentre;

    status := node.Compute(Inherited("message"), None, LastRow, false);
    assert status == Success && node.output == SampleCentre && node.clean;
  }

  /**
   * A request for a child of the output, outputPositionX, is not the output
   * plug: it reports success without computing, even though the array here
   * could not be read, and the node keeps its output and clean state.
   */
  method EvaluateChildPlug()
  {
    var node := new CenterPointNode();
    var status := node.Compute(OutputChild(X), Some([None]), LastRow, true);
    assert status == Success && node.output == Zero && !node.clean;
  }
}
