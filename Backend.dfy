/**
 * The prediction service's own logic around its two models: the class
 * chosen from the classifier's scores, and the severity read off the
 * segmentation mask when the leaf is not healthy.
 */
module Backend {

  /** The classifier's output positions, in order. */
  const ClassNames: seq<string> := ["Blight", "Common_Rust", "Gray_Leaf_Spot", "Healthy"]

  const HealthyClass: string := "Healthy"

  /** A mask entry counts as diseased strictly above this value. */
  const Threshold: real := 0.5

  /** The number of diseased entries of the (flattened) mask. */
  function CountDiseased(mask: seq<real>): (n: nat)
    ensures n <= |mask|
  {
    if mask == [] then 0
    else CountDiseased(mask[..|mask| - 1]) + (if mask[|mask| - 1] > Threshold then 1 else 0)
  }

  /** The positions of the diseased entries. */
  function DiseasedIndices(mask: seq<real>): set<nat>
  {
    set i: nat | i < |mask| && mask[i] > Threshold
  }

  /** The count is the number of positions strictly above the threshold. */
  lemma {:induction false} CountDiseasedIsCardinality(mask: seq<real>)
    ensures CountDiseased(mask) == |DiseasedIndices(mask)|
  {
    if mask != [] {
      var n := |mask| - 1;
      CountDiseasedIsCardinality(mask[..n]);
      var before := DiseasedIndices(mask[..n]);
      assert n !in before;
      if mask[n] > Threshold {
        assert DiseasedIndices(mask) == before + {n};
      } else {
        assert DiseasedIndices(mask) == before;
      }
    }
  }

  /**
   * The severity percentage: diseased entries over all entries, times 100,
   * and 0 for an empty mask. It is a share, so it lies between 0 and 100.
   */
  function Severity(mask: seq<real>): (r: real)
    ensures 0.0 <= r <= 100.0
    ensures |mask| == 0 ==> r == 0.0
  {
    if |mask| == 0 then 0.0
    else
      var diseased, total := CountDiseased(mask) as real, |mask| as real;
      assert diseased / total <= 1.0 by {
        assert diseased <= total;
      }
      (diseased / total) * 100.0
  }

  /** No entry is diseased exactly when none lies above the threshold. */
  lemma {:induction false} NoneDiseasedIff(mask: seq<real>)
    ensures CountDiseased(mask) == 0 <==> forall i :: 0 <= i < |mask| ==> mask[i] <= Threshold
  {
    if mask != [] {
      var n := |mask| - 1;
      NoneDiseasedIff(mask[..n]);
      assert forall i :: 0 <= i < n ==> mask[..n][i] == mask[i];
    }
  }

  /** Every entry is diseased exactly when all lie above the threshold. */
  lemma {:induction false} AllDiseasedIff(mask: seq<real>)
    ensures CountDiseased(mask) == |mask| <==> forall i :: 0 <= i < |mask| ==> mask[i] > Threshold
  {
    if mask != [] {
      var n := |mask| - 1;
      AllDiseasedIff(mask[..n]);
      assert forall i :: 0 <= i < n ==> mask[..n][i] == mask[i];
    }
  }

  /** Severity is 0 exactly when no entry exceeds 0.5; entries equal to 0.5 do not count. */
  lemma SeverityZeroIff(mask: seq<real>)
    ensures Severity(mask) == 0.0 <==> forall i :: 0 <= i < |mask| ==> mask[i] <= Threshold
  {
    NoneDiseasedIff(mask);
    if |mask| > 0 && CountDiseased(mask) > 0 {
      assert Severity(mask) > 0.0 by {
        assert CountDiseased(mask) as real / |mask| as real > 0.0;
      }
    }
  }

  /** Severity is 100 exactly for a non-empty mask whose every entry exceeds 0.5. */
  lemma SeverityFullIff(mask: seq<real>)
    ensures Severity(mask) == 100.0 <==> |mask| > 0 && forall i :: 0 <= i < |mask| ==> mask[i] > Threshold
  {
    AllDiseasedIff(mask);
    if |mask| > 0 && CountDiseased(mask) < |mask| {
      assert Severity(mask) < 100.0 by {
        assert CountDiseased(mask) as real / |mask| as real < 1.0;
      }
    }
  }

  /** Multiplied back by the mask's size, the percentage gives 100 times the cardinality of the diseased set. */
  lemma SeverityIsShareOfDiseased(mask: seq<real>)
    requires |mask| > 0
    ensures Severity(mask) * (|mask| as real) == 100.0 * (|DiseasedIndices(mask)| as real)
  {
    CountDiseasedIsCardinality(mask);
  }

  /** An entry of exactly 0.5 next to one of 0.75 gives a severity of 50. */
  lemma StrictThresholdExample()
    ensures Severity([0.5, 0.75]) == 50.0
  {
    assert [0.5, 0.75][..1] == [0.5];
    assert [0.5][..0] == [];
  }

  /** numpy's argmax over one row of scores: a maximal position, the first one on ties. */
  function Argmax(scores: seq<real>): (i: nat)
    requires |scores| > 0
    ensures i < |scores|
    ensures forall k :: 0 <= k < |scores| ==> scores[k] <= scores[i]
    ensures forall k :: 0 <= k < i ==> scores[k] < scores[i]
  {
    if |scores| == 1 then 0
    else
      var n := |scores| - 1;
      var j := Argmax(scores[..n]);
      assert forall k :: 0 <= k < n ==> scores[..n][k] == scores[k];
      if scores[n] > scores[j] then n else j
  }

  /** The two model invocations, in the order they happen. */
  datatype ModelCall = Classify | Segment

  /** Errors numpy and Python raise before a response is built. */
  datatype Raised = EmptyArgmax | ClassIndexOutOfRange

  /** The handler's outcome: the three-key response, or an exception. */
  datatype PredictOutcome =
    | Responded(prediction: string, confidence: real, severityPercentage: real)
    | Failed(error: Raised)

  /**
   * The handler after the image is decoded: `scores` is the classifier's
   * row of class scores and `mask` the segmentation model's mask, which is
   * looked at only when the segmentation model is invoked.
   */
  method Predict(scores: seq<real>, mask: seq<real>) returns (out: PredictOutcome, calls: seq<ModelCall>)
    ensures |scores| == 0 ==> out == Failed(EmptyArgmax) && calls == [Classify]
    ensures |scores| > 0 && Argmax(scores) >= |ClassNames| ==> out == Failed(ClassIndexOutOfRange) && calls == [Classify]
    // a classifier with at most four outputs always yields a response
    ensures 0 < |scores| <= |ClassNames| ==> out.Responded?
    ensures out.Responded? ==>
      && |scores| > 0 && Argmax(scores) < |ClassNames|
      && out.prediction in ClassNames && out.prediction == ClassNames[Argmax(scores)]
      // the confidence is the highest score
      && (forall k :: 0 <= k < |scores| ==> scores[k] <= out.confidence)
      && out.confidence in scores
    // Healthy: no segmentation, severity 0
    ensures out.Responded? && out.prediction == HealthyClass ==> out.severityPercentage == 0.0 && calls == [Classify]
    // any other class: segmentation runs once, after classification
    ensures out.Responded? && out.prediction != HealthyClass ==>
      out.severityPercentage == Severity(mask) && calls == [Classify, Segment]
  {
    calls := [Classify];
    if |scores| == 0 {
      return Failed(EmptyArgmax), calls;
    }
    var index := Argmax(scores);
    if index >= |ClassNames| {
      return Failed(ClassIndexOutOfRange), calls;
    }
    var name := ClassNames[index];
    var confidence := scores[index];
    var severity := 0.0;
    if name != HealthyClass {
      calls := calls + [Segment];
      severity := Severity(mask);
    }
    out := Responded(name, confidence, severity);
  }

  /** Ties go to the earlier class: equal top scores for Blight and Healthy give Blight. */
  lemma TieGoesToFirstClass()
    ensures ClassNames[Argmax([0.5, 0.0, 0.0, 0.5])] == "Blight"
  {
    var s := [0.5, 0.0, 0.0, 0.5];
    assert Argmax(s) == 0 by {
      assert s[0] == 0.5;
    }
  }
}
