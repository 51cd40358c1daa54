/**
 * Types and constants shared by the web client, the edge function and the
 * inference backend of the crop-leaf disease detector.
 */
module Common {

  datatype Option<+T> = None | Some(value: T)

  /** The storage bucket that holds uploaded leaf images. */
  const ImageBucket: string := "maize-images"

  /** The table of past analyses: written by the edge function, read by the history panel. */
  const AnalysesTable: string := "analyses"

  /** The inference endpoint, written as a literal in both of its callers. */
  const PredictEndpoint: string := "http://127.0.0.1:8000/predict"

  /**
   * The body of a successful `/predict` reply, as a JavaScript caller sees it
   * after `response.json()`: the confidence arrives already formatted as text.
   */
  datatype AnalysisResult = AnalysisResult(prediction: string, confidence: string, severityPercentage: real)

  /** What `response.json()` does with the reply body. */
  datatype ParseOutcome = Parsed(result: AnalysisResult) | Unparseable(message: string)

  /**
   * What an awaited `fetch` to the inference endpoint yields: either the
   * promise rejects (network failure), or a reply arrives with an `ok` flag
   * (status 200-299) and a body that may or may not parse.
   */
  datatype FetchOutcome = FetchThrew(message: string) | Replied(ok: bool, body: ParseOutcome)

  /** True when the reply was ok and its body parsed. */
  predicate Delivered(outcome: FetchOutcome)
  {
    outcome.Replied? && outcome.ok && outcome.body.Parsed?
  }
}
