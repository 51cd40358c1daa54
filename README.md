# Maize leaf disease detection: a Dafny model of its core logic

The application lets a signed-in user upload a photo of a maize leaf. A
prediction service classifies the leaf (Blight, Common Rust, Gray Leaf Spot
or Healthy) and estimates how much of it is diseased. The result is stored
with the image and listed in a history panel. Around the hosted services
(authentication, storage, database, the ML models) there are five pieces of
logic. This project models each of them in Dafny and proves what the code
promises.

- `Middleware` (pure): the route guard. `Decide` chooses a redirect to
  "/login", a redirect to "/dashboard" or pass-through from whether a user is
  signed in and the path. `Matches` is the configured path filter, and `Route`
  records that the guard refreshes the session before it looks up the user.
- `AnalyzeImage` (imperative): the analyze-image edge function. `Handle`
  answers OPTIONS pre-flights. Every other request runs the six stages in
  order: user lookup, form read, upload, public URL, prediction request,
  insert. Each stage runs only when all earlier ones succeeded. `Handle`
  records a trace of the collaborator calls, and any failure becomes one
  400 answer. The storage key `userId/timestamp_filename` is proved to
  determine its parts. Every outcome of the hosted services is a field of an
  `Env` value given to the method.
- `ImageUploader` (imperative): the upload widget, as the class `Uploader`.
  Its fields are `file`, `preview`, `result`, `isLoading` and `error`. Its
  methods are the three handlers, with Analyze split at its `await`. It also
  holds the rules for the button, the label, the icon and the colour.
- `HistorySidebar` (mixed): the class `Sidebar` (`history`, `loading`) with
  `FetchHistory`. The per-item map that attaches signed URLs is a pure
  function, and so is the "N/A" label rule.
- `Backend` (mixed): the prediction service. It picks a class with numpy's
  first-maximum argmax over the four labels and computes the severity
  percentage of a segmentation mask. A Healthy prediction skips segmentation
  and keeps severity 0.
- `Common` and `Text` hold the shared values and the string operations the
  code relies on. Among them is JavaScript's `replace` with a string pattern,
  which replaces only the first occurrence.

Where the code differs from the intended design, the model follows the code:

- The edge function stores the public URL in `image_url`
  (frontend/supabase/functions/analyze-image/index.ts:58). The history panel
  signs `image_path`, so rows written by the edge function get no thumbnail
  (`HistorySidebar.HasImage` is false for them).
- An insert failure returns 400 with the insert error, not the prediction.
- The backend's reply has only `prediction`, `confidence` and
  `severity_percentage`: no severity label and no mask.
- A null user without a lookup error, or a missing `file` form entry, makes
  the edge function throw a TypeError (at `user.id` / `file.name`). The model
  gives V8's messages for these. A text value in place of a file gives the
  file name "undefined".
- The matcher pattern's `.` in "favicon.ico" is a regular-expression
  wildcard, so "/faviconXico" is skipped as well.

## Model

| member | source | states |
|---|---|---|
| Middleware.Decide | frontend/src/middleware.js:15-23 | the redirect decision; it has no contract of its own: its properties are the lemmas `UnauthenticatedDashboardGoesToLogin`, `AuthenticatedLoginGoesToDashboard`, `OtherwisePassThrough`, `RedirectBranchesExclusive` and `NoRedirectLoop` |
| Middleware.Matches | frontend/src/middleware.js:27 | the matcher pattern over a whole path; it has no contract of its own: its properties are the lemmas `ExcludedPrefixesSkipped`, `FaviconDotIsWildcard` and `GuardedPages`, and `Route` ties it to the guard |
| Middleware.FaviconAhead | frontend/src/middleware.js:27 | the "favicon.ico" lookahead with its `.` as a wildcard; no contract of its own: `ExcludedPrefixesSkipped` and `FaviconDotIsWildcard` state what it accepts |
| Middleware.Route | frontend/src/middleware.js:26-28 | the guard runs exactly on the paths the matcher accepts; every other request is skipped |
| Middleware.UnauthenticatedDashboardGoesToLogin | frontend/src/middleware.js:15-17 | with no user, every path starting "/dashboard" (including "/dashboard/analysis/{id}") redirects to "/login" |
| Middleware.AuthenticatedLoginGoesToDashboard | frontend/src/middleware.js:19-21 | with a user, every path starting "/login" redirects to "/dashboard" |
| Middleware.OtherwisePassThrough | frontend/src/middleware.js:15-23 | the guard passes the refreshed response through if and only if neither redirect condition holds; "/" always passes |
| Middleware.RedirectBranchesExclusive | frontend/src/middleware.js:15-21 | on every redirect exactly one of the two redirect conditions holds, and the redirect goes to "/login" exactly when there is no user |
| Middleware.NoRedirectLoop | frontend/src/middleware.js:15-23 | every redirect target is a guarded path, and for the same user state the guard passes it through |
| Middleware.SessionRefreshPrecedesLookup | frontend/src/middleware.js:8-13 | every guarded request makes exactly two session calls: the session refresh, then the user lookup |
| Middleware.ExcludedPrefixesSkipped | frontend/src/middleware.js:27 | paths starting "/_next/static", "/_next/image" or "/favicon.ico" never reach the guard |
| Middleware.FaviconDotIsWildcard | frontend/src/middleware.js:27 | the `.` in the pattern matches any character, so "/faviconXico" is skipped, while "/favicon" is guarded |
| Middleware.GuardedPages | frontend/src/middleware.js:27 | "/", "/login", "/dashboard" and every "/dashboard/analysis/{id}" reach the guard |
| AnalyzeImage.Handle | frontend/supabase/functions/analyze-image/index.ts:4-76 | OPTIONS gets "ok" with CORS headers and makes no call; any other method satisfies `Pipeline`: stages in the fixed order, each only after all earlier ones succeeded, 200 with the analysis exactly when every stage succeeded, else 400 with the failing stage's message |
| AnalyzeImage.Serve | frontend/supabase/functions/analyze-image/index.ts:10-75 | the try block with its catch satisfies `Pipeline` for every combination of outcomes, including a null user and a missing file |
| AnalyzeImage.StoreAnalyzeRecord | frontend/supabase/functions/analyze-image/index.ts:33-69 | the stages from the upload on: one key for both the upload and the public URL, the form forwarded to the prediction endpoint, the row built from the caller and the analysis, early exit at the first failure |
| AnalyzeImage.Failure | frontend/supabase/functions/analyze-image/index.ts:70-74 | a failure answers 400 with a JSON body holding only the message |
| AnalyzeImage.FileName | frontend/supabase/functions/analyze-image/index.ts:34 | `file.name` of the form entry: the file's name, or "undefined" for a text value; no contract of its own, and `Serve` routes a missing entry to the TypeError instead |
| AnalyzeImage.StorageKey | frontend/supabase/functions/analyze-image/index.ts:34 | the key `userId + "/" + Date.now() + "_" + name`; no contract of its own: `StorageKeyInjective` and `StorageKeyOwnerPrefix` state its properties, and `StoreAnalyzeRecord` uses it for both the upload and the public URL |
| AnalyzeImage.StorageKeyInjective | frontend/supabase/functions/analyze-image/index.ts:34 | for owner ids without "/", equal storage keys have equal owner, timestamp and file name |
| AnalyzeImage.StorageKeyOwnerPrefix | frontend/supabase/functions/analyze-image/index.ts:34 | the key starts with the owner id and "/", and its first "/" ends the owner id |
| AnalyzeImage.LookupFailureStopsEverything | frontend/supabase/functions/analyze-image/index.ts:23-27 | when the user lookup errors, the lookup is the only call and the answer is 400 with its message |
| AnalyzeImage.UploadFailureStopsPrediction | frontend/supabase/functions/analyze-image/index.ts:35-38 | when the upload fails, neither the prediction request nor the insert is issued, and the answer is 400 |
| AnalyzeImage.PredictionFailureStopsInsert | frontend/supabase/functions/analyze-image/index.ts:46-51 | when the analysis is not delivered (fetch rejected, reply not ok, body not JSON), no insert is issued and the answer is 400; no cleanup call exists |
| AnalyzeImage.InsertFailureHidesPrediction | frontend/supabase/functions/analyze-image/index.ts:54-63 | when only the insert fails, all six stages ran and the answer is 400 with the insert error, without the analysis |
| AnalyzeImage.SuccessRecordsCallerAnalysis | frontend/supabase/functions/analyze-image/index.ts:54-69 | on 200 the inserted row is owned by the caller and points at the public URL of the uploaded key; it copies prediction, confidence and severity; the body is exactly the analysis |
| AnalyzeImage.FailuresCarryOnlyMessage | frontend/supabase/functions/analyze-image/index.ts:70-74 | every answer other than 200 is 400 with JSON headers and an error-only body |
| AnalyzeImage.EachStageAtMostOnce | frontend/supabase/functions/analyze-image/index.ts:23-63 | no stage is called twice, and at most the six stages are called |
| ImageUploader.Uploader.constructor | frontend/src/components/ImageUploader.js:11-15 | the widget starts with no file, preview, result or error and not loading |
| ImageUploader.Uploader.HandleFileChange | frontend/src/components/ImageUploader.js:17-25 | a selected file sets `file` and `preview` and clears `result` and `error`; an empty selection changes nothing; a file chosen while nothing is in flight enables the Analyze button |
| ImageUploader.Uploader.HandleClear | frontend/src/components/ImageUploader.js:27-32 | `file`, `preview`, `result` and `error` become null and `isLoading` is untouched; the Analyze button is then disabled |
| ImageUploader.Uploader.BeginAnalyze | frontend/src/components/ImageUploader.js:34-42 | with no file nothing happens and nothing is sent; otherwise `isLoading` becomes true, `error` null, the file goes to the prediction endpoint, and the Analyze button is disabled (no double submit) |
| ImageUploader.Uploader.FinishAnalyze | frontend/src/components/ImageUploader.js:44-61 | a delivered body becomes `result`; any failure sets the fixed message and keeps the old result; `isLoading` ends false, and the Analyze button is enabled exactly when a file is still chosen |
| ImageUploader.Uploader.HandleAnalyze | frontend/src/components/ImageUploader.js:34-63 | the whole handler: a no-op without a file; otherwise `isLoading` is written true and then false, the outcome is applied as above, and the Analyze button is enabled again |
| ImageUploader.Uploader.AnalyzeEnabled | frontend/src/components/ImageUploader.js:110 | the button rule `!file \|\| isLoading` negated; no contract of its own: the handlers' contracts state how each one leaves the button |
| ImageUploader.ResultIcon | frontend/src/components/ImageUploader.js:65-66 | the icon choice; no contract of its own: `HealthyIconIff` states it |
| ImageUploader.ResultColor | frontend/src/components/ImageUploader.js:67-68 | the colour choice; no contract of its own: `HealthyIconIff` ties it to the icon |
| ImageUploader.HealthyIconIff | frontend/src/components/ImageUploader.js:65-68 | the check icon and the green colour are chosen exactly when the prediction equals "Healthy" |
| ImageUploader.DisplayLabel | frontend/src/components/ImageUploader.js:138 | the shown label; no contract of its own: `DisplayLabelFirstUnderscore` and the `Displayed…` lemmas state it |
| ImageUploader.DisplayLabelFirstUnderscore | frontend/src/components/ImageUploader.js:138 | the shown label keeps its length; it is unchanged without "_"; otherwise only the first "_" becomes a space |
| ImageUploader.DisplayedCommonRust | frontend/src/components/ImageUploader.js:138 | "Common_Rust" is shown as "Common Rust" |
| ImageUploader.DisplayedGrayLeafSpot | frontend/src/components/ImageUploader.js:138 | "Gray_Leaf_Spot" is shown as "Gray Leaf_Spot", with a "_" left |
| ImageUploader.DisplayedPlainLabels | frontend/src/components/ImageUploader.js:138 | "Blight" and "Healthy" are shown unchanged |
| ImageUploader.IntendedLabel | frontend/src/components/ImageUploader.js:138 | the label with every "_" as a space: same length, no "_" left |
| ImageUploader.DisplayMatchesIntendedIff | frontend/src/components/ImageUploader.js:138 | the shown label equals the intended one exactly when the prediction has at most one "_" |
| ImageUploader.GrayLeafSpotDiffers | frontend/src/components/ImageUploader.js:138 | for "Gray_Leaf_Spot" the shown and the intended label differ |
| HistorySidebar.SignedUrlFor | frontend/src/components/HistorySidebar.js:49-59 | one item's signed URL; no contract of its own: `AttachSignedUrls` states its three cases for every item |
| HistorySidebar.AttachSignedUrls | frontend/src/components/HistorySidebar.js:47-61 | same length and order as the query result, and every row kept whole; no image gives no URL, a signing error gives no URL for that item only, otherwise the item gets the returned URL |
| HistorySidebar.SigningCalls | frontend/src/components/HistorySidebar.js:51-53 | no more signing calls than items, each on bucket "maize-images" with a 3600-second lifetime |
| HistorySidebar.SignsEveryImagePath | frontend/src/components/HistorySidebar.js:49-53 | every item with an image has its own path signed |
| HistorySidebar.SigningCallsInItemOrder | frontend/src/components/HistorySidebar.js:47-53 | the calls for a concatenation of items are the first part's calls followed by the second's, and one item gives its own call exactly when it has an image: the calls are the image items' calls, in item order |
| HistorySidebar.SignsOnlyImagePaths | frontend/src/components/HistorySidebar.js:49-53 | every signing call is for the path of an item that has an image |
| HistorySidebar.OneSigningCallPerImage | frontend/src/components/HistorySidebar.js:49-53 | there are exactly as many signing calls as items with an image, so an item without one triggers none |
| HistorySidebar.Sidebar.constructor | frontend/src/components/HistorySidebar.js:25-26 | the panel starts with an empty history, loading |
| HistorySidebar.Sidebar.FetchHistory | frontend/src/components/HistorySidebar.js:29-66 | `loading` is written true first and false last; with no user there is no query and `history` is unchanged; a query error empties it; otherwise it is the signed-URL map of the rows, from the owner's newest-first query |
| HistorySidebar.HistoryLabel | frontend/src/components/HistorySidebar.js:105 | the item label; no contract of its own: `HistoryLabelRule` states it |
| HistorySidebar.HistoryLabelRule | frontend/src/components/HistorySidebar.js:105 | a missing or empty prediction shows "N/A"; any other shows its first "_" as a space; "N/A" appears only for those or for a prediction "N/A" |
| HistorySidebar.Thumbnail | frontend/src/components/HistorySidebar.js:92-101 | the thumbnail or the "No Image" placeholder; no contract of its own: `ThumbnailShownIff` and `SigningFailureShowsPlaceholder` state it |
| HistorySidebar.ThumbnailShownIff | frontend/src/components/HistorySidebar.js:47-101 | an item shows a thumbnail exactly when it has an image and its signing call returned a non-empty URL, and the thumbnail is that URL |
| HistorySidebar.SigningFailureShowsPlaceholder | frontend/src/components/HistorySidebar.js:55-58 | a failed signature leaves that item's row intact and shows the "No Image" placeholder |
| Backend.CountDiseased | backend/main.py:69-72 | the diseased count never exceeds the number of mask entries |
| Backend.CountDiseasedIsCardinality | backend/main.py:69-72 | the count equals the number of positions strictly above 0.5 |
| Backend.Severity | backend/main.py:66-79 | the severity lies between 0 and 100, and it is 0 for an empty mask |
| Backend.NoneDiseasedIff | backend/main.py:69-72 | the count is 0 exactly when no entry exceeds 0.5 |
| Backend.AllDiseasedIff | backend/main.py:69-72 | the count is the whole mask exactly when every entry exceeds 0.5 |
| Backend.SeverityZeroIff | backend/main.py:69-78 | the unrounded severity is 0 exactly when no entry exceeds 0.5 (an empty mask included) |
| Backend.SeverityFullIff | backend/main.py:69-78 | the unrounded severity is 100 exactly for a non-empty mask whose every entry exceeds 0.5 |
| Backend.SeverityIsShareOfDiseased | backend/main.py:72-78 | severity times the mask size equals 100 times the number of diseased positions |
| Backend.StrictThresholdExample | backend/main.py:69 | an entry equal to 0.5 is not diseased: [0.5, 0.75] has severity 50 |
| Backend.Argmax | backend/main.py:94 | the chosen index holds a maximal score, and no earlier index holds an equal one |
| Backend.Predict | backend/main.py:88-110 | empty scores raise and an index past the table raises; with at most four scores there is always a response; its class is the argmax label and one of the four; its confidence is the top score; Healthy gives severity 0 and no segmentation call, any other class gives the mask's severity after one segmentation call |
| Backend.TieGoesToFirstClass | backend/main.py:94-95 | on a tie between Blight and Healthy, Blight is chosen |

## Left out

- Hosted services: Supabase auth, storage and database calls, the `fetch` to
  the prediction service, JSON parsing and CORS header contents. Each is an
  outcome given to the model (`Env`, `FetchOutcome`, `QueryOutcome`,
  `Signer`), not a protocol.
- Clocks and browser APIs: `Date.now()`, `URL.createObjectURL` and
  `toLocaleDateString` are parameters or are not modelled. The timestamp is a
  natural number rendered in decimal.
- Backend.Predict: the confidence is the raw top score; the `f"{confidence:.2%}"`
  percentage string is not modelled.
- Backend.Severity: the exact ratio, without `round(..., 2)`; floating-point
  rounding is not modelled. The rounded value the program returns does not
  keep the two if-and-only-if lemmas: with more than 20 000 entries (a
  224×224 mask has 50 176), one diseased entry rounds to 0.0 and one healthy
  entry rounds to 100.0. `SeverityZeroIff` and `SeverityFullIff` hold for the
  unrounded share only.
- Backend.Predict: mask and scores are flat sequences of reals. Image decoding,
  resizing and normalisation, TensorFlow inference and `load_models` are
  foreign code; the models' outputs are parameters.
- The backend's CORS set-up and its root endpoint are configuration and a
  constant greeting, not core logic.
- HistorySidebar.AttachSignedUrls: the signing calls run one after another
  here. `Promise.all` runs them concurrently, and only the order and length
  of the result matter.
- React re-rendering, the skeleton loader, and any interleaving of handlers
  while a request is in flight. `HandleAnalyze` assumes nothing else runs
  between its two halves; `BeginAnalyze` and `FinishAnalyze` model them
  separately.
- Other matcher behaviour of the web framework (data routes, base path,
  locales): only the pattern over the path is modelled.
- Design-level behaviour the code does not have: severity labels, mask
  images, a detail-view lookup by id, and returning the prediction after an
  insert failure.
- The login, logout, navbar, layout and dashboard pages: UI and single
  authentication calls, not part of this model.

## Findings

| source | as written | input that shows it | evidently intended | confidence | as-written member | corrected member |
|---|---|---|---|---|---|---|
| frontend/src/components/ImageUploader.js:138 | `prediction.replace("_", " ")` replaces only the first "_" (a string pattern in JavaScript); HistorySidebar.js:105 does the same | prediction "Gray_Leaf_Spot" is shown as "Gray Leaf_Spot" | every "_" shown as a space: "Gray Leaf Spot" | not executed; high, from JavaScript's `String.prototype.replace` semantics | ImageUploader.DisplayMatchesIntendedIff | ImageUploader.IntendedLabel |
