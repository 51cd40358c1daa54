/**
 * The upload widget: five pieces of component state changed by three
 * handlers, plus the rules that decide what the widget shows.
 */
module ImageUploader {
  import opened Common
  import opened Text

  /** The one message the widget shows when an analysis fails, whatever the cause. */
  const AnalyzeFailedNotice: string := "Failed to analyze image. Please try again."

  /** A file chosen in the file input. */
  datatype File = File(name: string, content: seq<bv8>)

  /** The request the Analyze handler sends: the chosen file as the form's "file" entry. */
  datatype PredictRequest = PredictRequest(endpoint: string, file: File)

  datatype Icon = CheckCircle | AlertTriangle

  class Uploader {
    var file: Option<File>
    var preview: Option<string>
    var result: Option<AnalysisResult>
    var isLoading: bool
    var error: Option<string>

    /** Every value ever given to `isLoading`, oldest first. */
    ghost var loadingWrites: seq<bool>

    /**
     * What the handlers keep true: a preview exactly when a file is chosen, no
     * error while an analysis is in flight, and only the fixed failure message
     * as an error.
     */
    ghost predicate Valid()
      reads this
    {
      && (file.Some? <==> preview.Some?)
      && (isLoading ==> error.None?)
      && (error.Some? ==> error.value == AnalyzeFailedNotice)
    }

    /** The initial state of the component. */
    constructor ()
      ensures Valid()
      ensures file == None && preview == None && result == None && !isLoading && error == None
      ensures loadingWrites == []
    {
      file, preview, result, isLoading, error := None, None, None, false, None;
      loadingWrites := [];
    }

    /**
     * A change of the file input. `selected` is the first chosen file (none for
     * an empty selection); `objectUrl` is the preview URL made for it.
     */
    method HandleFileChange(selected: Option<File>, objectUrl: string)
      requires Valid()
      modifies this
      ensures Valid()
      ensures selected.None? ==> unchanged(this)
      ensures selected.Some? ==>
        && file == selected && preview == Some(objectUrl) && result == None && error == None
        && isLoading == old(isLoading) && loadingWrites == old(loadingWrites)
      // a file chosen while nothing is in flight enables the button
      ensures selected.Some? && !old(isLoading) ==> AnalyzeEnabled()
    {
      if selected.Some? {
        file := selected;
        preview := Some(objectUrl);
        result := None;
        error := None;
      }
    }

    /** The clear button: resets four fields and leaves `isLoading` alone. */
    method HandleClear()
      requires Valid()
      modifies this
      ensures Valid()
      ensures file == None && preview == None && result == None && error == None
      ensures isLoading == old(isLoading) && loadingWrites == old(loadingWrites)
      // with no file the button is disabled
      ensures !AnalyzeEnabled()
    {
      file := None;
      preview := None;
      result := None;
      error := None;
    }

    /**
     * The first, synchronous part of the Analyze handler: with no file it does
     * nothing; otherwise it sets `isLoading`, clears the error and yields the
     * request to send.
     */
    method BeginAnalyze() returns (request: Option<PredictRequest>)
      requires Valid()
      modifies this
      ensures Valid()
      ensures old(file).None? ==> request == None && unchanged(this)
      ensures old(file).Some? ==>
        && request == Some(PredictRequest(PredictEndpoint, old(file).value))
        && isLoading && error == None
        && file == old(file) && preview == old(preview) && result == old(result)
        && loadingWrites == old(loadingWrites) + [true]
      // no double submit: once a request is on its way the button is disabled
      ensures old(file).Some? ==> !AnalyzeEnabled()
    {
      if file.None? {
        return None;
      }
      isLoading := true;
      loadingWrites := loadingWrites + [true];
      error := None;
      request := Some(PredictRequest(PredictEndpoint, file.value));
    }

    /**
     * The part after the awaited fetch: a delivered body becomes the result;
     * a rejected fetch, a reply that is not ok or a body that does not parse
     * sets the fixed error and keeps the old result; either way `isLoading`
     * ends false.
     */
    method FinishAnalyze(response: FetchOutcome)
      requires Valid()
      modifies this
      ensures Valid()
      ensures !isLoading && loadingWrites == old(loadingWrites) + [false]
      ensures Delivered(response) ==> result == Some(response.body.result) && error == old(error)
      ensures !Delivered(response) ==> result == old(result) && error == Some(AnalyzeFailedNotice)
      ensures file == old(file) && preview == old(preview)
      // the button comes back exactly when a file is still chosen
      ensures AnalyzeEnabled() == file.Some?
    {
      if Delivered(response) {
        result := Some(response.body.result);
      } else {
        error := Some(AnalyzeFailedNotice);
      }
      isLoading := false;
      loadingWrites := loadingWrites + [false];
    }

    /**
     * The whole Analyze handler when nothing else happens while the request is
     * away: with a file, `isLoading` goes true then false and the outcome is
     * applied; without one, nothing changes and nothing is sent.
     */
    method HandleAnalyze(response: FetchOutcome) returns (request: Option<PredictRequest>)
      requires Valid()
      modifies this
      ensures Valid()
      ensures old(file).None? ==> request == None && unchanged(this)
      ensures old(file).Some? ==>
        && request == Some(PredictRequest(PredictEndpoint, old(file).value))
        && loadingWrites == old(loadingWrites) + [true, false] && !isLoading
        && file == old(file) && preview == old(preview)
        && (Delivered(response) ==> result == Some(response.body.result) && error == None)
        && (!Delivered(response) ==> result == old(result) && error == Some(AnalyzeFailedNotice))
        && AnalyzeEnabled()
    {
      request := BeginAnalyze();
      if request.Some? {
        FinishAnalyze(response);
      }
    }

    /** Whether the Analyze button is enabled: a file is chosen and no analysis is in flight. */
    function AnalyzeEnabled(): bool
      reads this
    {
      file.Some? && !isLoading
    }
  }

  /** The shown prediction: the label with its first "_" turned into a space. */
  function DisplayLabel(prediction: string): string
  {
    ReplaceFirst(prediction, '_', ' ')
  }

  /** The result icon: the check mark for a result whose prediction is exactly "Healthy". */
  function ResultIcon(result: Option<AnalysisResult>): Icon
  {
    if result.Some? && result.value.prediction == "Healthy" then CheckCircle else AlertTriangle
  }

  function ResultColor(result: Option<AnalysisResult>): string
  {
    if result.Some? && result.value.prediction == "Healthy" then "text-green-500" else "text-orange-500"
  }

  /** The check mark and green go together, exactly for a "Healthy" prediction. */
  lemma HealthyIconIff(result: Option<AnalysisResult>)
    ensures ResultIcon(result) == CheckCircle <==> result.Some? && result.value.prediction == "Healthy"
    ensures ResultColor(result) == "text-green-500" <==> ResultIcon(result) == CheckCircle
  {
  }

  /**
   * The label keeps its length, a label without "_" is shown as it is, and
   * otherwise exactly the first "_" becomes a space.
   */
  lemma DisplayLabelFirstUnderscore(prediction: string)
    ensures |DisplayLabel(prediction)| == |prediction|
    ensures '_' !in prediction ==> DisplayLabel(prediction) == prediction
    ensures '_' in prediction ==>
      var i := IndexOfChar(prediction, '_');
      DisplayLabel(prediction) == prediction[..i] + " " + prediction[i + 1..]
  {
    if '_' in prediction {
      ReplaceFirstAt(prediction, '_', ' ', IndexOfChar(prediction, '_'));
    } else {
      ReplaceFirstAbsent(prediction, '_', ' ');
    }
  }

  /** "Common_Rust" is shown as "Common Rust". */
  lemma DisplayedCommonRust()
    ensures DisplayLabel("Common" + "_" + "Rust") == "Common" + " " + "Rust"
  {
    ReplaceFirstSplit("Common", "Rust", '_', ' ');
  }

  /** "Gray_Leaf_Spot" is shown as "Gray Leaf_Spot": its second "_" stays. */
  lemma DisplayedGrayLeafSpot()
    ensures DisplayLabel("Gray" + "_" + "Leaf_Spot") == "Gray" + " " + "Leaf_Spot"
    ensures '_' in DisplayLabel("Gray" + "_" + "Leaf_Spot")
  {
    ReplaceFirstSplit("Gray", "Leaf_Spot", '_', ' ');
    assert ("Gray" + " " + "Leaf_Spot")[9] == '_';
  }

  /** "Blight" and "Healthy" are shown as they are. */
  lemma DisplayedPlainLabels()
    ensures DisplayLabel("Blight") == "Blight" && DisplayLabel("Healthy") == "Healthy"
  {
    ReplaceFirstAbsent("Blight", '_', ' ');
    ReplaceFirstAbsent("Healthy", '_', ' ');
  }

  /** The label the widget evidently means to show: every "_" as a space. */
  function IntendedLabel(prediction: string): (r: string)
    ensures |r| == |prediction| && '_' !in r
  {
    ReplaceAllRemovesEvery(prediction, '_', ' ');
    ReplaceAll(prediction, '_', ' ')
  }

  /** True when the label holds "_" at two places or more. */
  predicate TwoUnderscores(p: string)
  {
    exists i, j :: 0 <= i < j < |p| && p[i] == '_' && p[j] == '_'
  }

  /**
   * The label shown and the label intended agree exactly on predictions with
   * at most one "_"; "Gray_Leaf_Spot", with two, is where they part.
   */
  lemma {:induction false} DisplayMatchesIntendedIff(p: string)
    ensures DisplayLabel(p) == IntendedLabel(p) <==> !TwoUnderscores(p)
  {
    var shown, meant := DisplayLabel(p), IntendedLabel(p);
    if '_' !in p {
      ReplaceFirstAbsent(p, '_', ' ');
      assert meant == p by {
        forall m | 0 <= m < |p| ensures meant[m] == p[m] { assert p[m] in p; }
      }
    } else {
      var k := IndexOfChar(p, '_');
      ReplaceFirstAt(p, '_', ' ', k);
      assert forall m :: 0 <= m < k ==> p[m] != '_' by {
        forall m | 0 <= m < k ensures p[m] != '_' { assert p[..k][m] == p[m]; }
      }
      if TwoUnderscores(p) {
        var i, j :| 0 <= i < j < |p| && p[i] == '_' && p[j] == '_';
        assert shown[j] == '_' && meant[j] == ' ';
      } else {
        forall m | 0 <= m < |p| ensures shown[m] == meant[m] {
          if m > k { assert p[m] != '_'; }
        }
      }
    }
  }

  /** The discrepancy on the one class name that shows it. */
  lemma GrayLeafSpotDiffers()
    ensures DisplayLabel("Gray_Leaf_Spot") != IntendedLabel("Gray_Leaf_Spot")
  {
    assert "Gray_Leaf_Spot"[4] == '_' && "Gray_Leaf_Spot"[9] == '_';
    DisplayMatchesIntendedIff("Gray_Leaf_Spot");
  }
}
