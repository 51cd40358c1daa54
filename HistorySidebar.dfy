/**
 * The history panel: it loads the caller's past analyses, attaches a
 * short-lived signed URL to each one that has a stored image, and shows a
 * label per item.
 */
module HistorySidebar {
  import opened Common
  import opened Text

  /** Lifetime, in seconds, of every signed image URL the panel requests. */
  const SignedUrlTtl: nat := 3600

  /** One row of the analyses table as the query returns it; absent columns are `None`. */
  datatype Row = Row(
    id: string,
    userId: string,
    imagePath: Option<string>,
    prediction: Option<string>,
    confidence: Option<string>,
    severityPercentage: Option<real>,
    createdAt: string)

  /** A row with the signed URL attached: every field of the row, plus `signedImageUrl`. */
  datatype Entry = Entry(row: Row, signedImageUrl: Option<string>)

  datatype SignOutcome = Signed(url: string) | SignFailed(message: string)

  /** The outcome of the owner's query, newest first as the query asks. */
  datatype QueryOutcome = QueryFailed(message: string) | Rows(rows: seq<Row>)

  /** The panel's collaborator calls. */
  datatype Call =
    | GetUser
    | SelectByOwner(table: string, userId: string, orderColumn: string, ascending: bool)
    | CreateSignedUrl(bucket: string, path: string, ttl: nat)

  /** The storage service's answer to the signing call for item `i` with path `path`. */
  type Signer = (nat, string) -> SignOutcome

  /** An item has an image when its path is present and not empty (a truthy string). */
  predicate HasImage(row: Row)
  {
    row.imagePath.Some? && row.imagePath.value != ""
  }

  /** The signed URL for item `i`: none without an image or on a signing error. */
  function SignedUrlFor(row: Row, i: nat, signer: Signer): Option<string>
  {
    if !HasImage(row) then None
    else match signer(i, row.imagePath.value)
      case Signed(url) => Some(url)
      case SignFailed(_) => None
  }

  /**
   * The per-item map: same length and order as the query result, every row
   * kept whole, and each signed URL decided by that item alone.
   */
  function AttachSignedUrls(rows: seq<Row>, signer: Signer): (r: seq<Entry>)
    ensures |r| == |rows|
    ensures forall i :: 0 <= i < |rows| ==> r[i].row == rows[i]
    ensures forall i :: 0 <= i < |rows| && !HasImage(rows[i]) ==> r[i].signedImageUrl == None
    ensures forall i :: 0 <= i < |rows| && HasImage(rows[i]) && signer(i, rows[i].imagePath.value).SignFailed? ==>
      r[i].signedImageUrl == None
    ensures forall i :: 0 <= i < |rows| && HasImage(rows[i]) && signer(i, rows[i].imagePath.value).Signed? ==>
      r[i].signedImageUrl == Some(signer(i, rows[i].imagePath.value).url)
  {
    if rows == [] then []
    else
      var n := |rows| - 1;
      AttachSignedUrls(rows[..n], signer) + [Entry(rows[n], SignedUrlFor(rows[n], n, signer))]
  }

  /**
   * The signing calls the map issues, in item order: one per item with an
   * image, on the images bucket with the one-hour lifetime.
   */
  function SigningCalls(rows: seq<Row>): (calls: seq<Call>)
    ensures |calls| <= |rows|
    ensures forall k :: 0 <= k < |calls| ==>
      calls[k].CreateSignedUrl? && calls[k].bucket == ImageBucket && calls[k].ttl == SignedUrlTtl
  {
    if rows == [] then []
    else
      var n := |rows| - 1;
      SigningCalls(rows[..n]) + (if HasImage(rows[n]) then [SignCall(rows[n])] else [])
  }

  /** The signing call for some item of `rows` that has an image. */
  predicate SignsImageOf(rows: seq<Row>, c: Call)
  {
    exists i :: 0 <= i < |rows| && HasImage(rows[i]) && c == SignCall(rows[i])
  }

  /** Every signing call is for the path of an item that has an image. */
  lemma {:induction false} SignsOnlyImagePaths(rows: seq<Row>)
    ensures forall k :: 0 <= k < |SigningCalls(rows)| ==> SignsImageOf(rows, SigningCalls(rows)[k])
  {
    if rows != [] {
      var n := |rows| - 1;
      var before := SigningCalls(rows[..n]);
      SignsOnlyImagePaths(rows[..n]);
      var tail := if HasImage(rows[n]) then [SignCall(rows[n])] else [];
      assert SigningCalls(rows) == before + tail;
      forall k | 0 <= k < |SigningCalls(rows)|
        ensures SignsImageOf(rows, SigningCalls(rows)[k])
      {
        if k < |before| {
          var i :| 0 <= i < n && HasImage(rows[..n][i])
            && before[k] == SignCall(rows[..n][i]);
          assert rows[..n][i] == rows[i];
        } else {
          assert SigningCalls(rows)[k] == tail[0];
        }
      }
    }
  }

  /** The signing call for one item. */
  function SignCall(row: Row): Call
    requires HasImage(row)
  {
    CreateSignedUrl(ImageBucket, row.imagePath.value, SignedUrlTtl)
  }

  /** Every item with an image has its own path signed. */
  lemma {:induction false} SignsEveryImagePath(rows: seq<Row>)
    ensures forall i :: 0 <= i < |rows| && HasImage(rows[i]) ==> SignCall(rows[i]) in SigningCalls(rows)
  {
    if rows != [] {
      var n := |rows| - 1;
      SignsEveryImagePath(rows[..n]);
      forall i | 0 <= i < |rows| && HasImage(rows[i])
        ensures SignCall(rows[i]) in SigningCalls(rows)
      {
        if i < n {
          assert rows[..n][i] == rows[i];
          assert SignCall(rows[..n][i]) in SigningCalls(rows[..n]);
        } else {
          assert SigningCalls(rows) == SigningCalls(rows[..n]) + [SignCall(rows[n])];
        }
      }
    }
  }

  /**
   * The calls follow the items: the calls for a concatenation are those for
   * its first part followed by those for the second, and one item gives its
   * own call exactly when it has an image. Together these fix every call and
   * its place.
   */
  lemma {:induction false} SigningCallsInItemOrder(a: seq<Row>, b: seq<Row>)
    ensures SigningCalls(a + b) == SigningCalls(a) + SigningCalls(b)
    ensures |a| == 1 ==> SigningCalls(a) == (if HasImage(a[0]) then [SignCall(a[0])] else [])
    decreases |b|
  {
    if b != [] {
      var n := |b| - 1;
      SigningCallsInItemOrder(a, b[..n]);
      assert (a + b)[..|a + b| - 1] == a + b[..n];
      assert (a + b)[|a + b| - 1] == b[n];
    } else {
      assert a + b == a;
    }
    if |a| == 1 {
      assert a[..0] == [];
    }
  }

  /** The positions of the items that have an image. */
  function ImageIndices(rows: seq<Row>): set<nat>
  {
    set i: nat | i < |rows| && HasImage(rows[i])
  }

  /** Exactly one signing call per item with an image: items without one trigger none. */
  lemma {:induction false} OneSigningCallPerImage(rows: seq<Row>)
    ensures |SigningCalls(rows)| == |ImageIndices(rows)|
  {
    if rows != [] {
      var n := |rows| - 1;
      OneSigningCallPerImage(rows[..n]);
      var before := ImageIndices(rows[..n]);
      assert n !in before;
      if HasImage(rows[n]) {
        assert ImageIndices(rows) == before + {n};
      } else {
        assert ImageIndices(rows) == before;
      }
    }
  }

  class Sidebar {
    var history: seq<Entry>
    var loading: bool

    /** Every value ever given to `loading`, oldest first. */
    ghost var loadingWrites: seq<bool>

    /** The initial state: an empty history, shown as loading. */
    constructor ()
      ensures history == [] && loading && loadingWrites == []
    {
      history, loading := [], true;
      loadingWrites := [];
    }

    /**
     * The fetch: `user` is the result of the user lookup, `query` the owner's
     * query outcome and `signer` the storage service's signing answers.
     */
    method FetchHistory(user: Option<string>, query: QueryOutcome, signer: Signer) returns (calls: seq<Call>)
      modifies this
      // loading is set first and cleared last, whatever the outcome
      ensures !loading && loadingWrites == old(loadingWrites) + [true, false]
      // no user: no query, history as it was
      ensures user.None? ==> history == old(history) && calls == [GetUser]
      // a query error empties the history
      ensures user.Some? && query.QueryFailed? ==>
        history == [] && calls == [GetUser, SelectByOwner(AnalysesTable, user.value, "created_at", false)]
      // otherwise the history is the query result with signed URLs attached
      ensures user.Some? && query.Rows? ==>
        && history == AttachSignedUrls(query.rows, signer)
        && calls == [GetUser, SelectByOwner(AnalysesTable, user.value, "created_at", false)] + SigningCalls(query.rows)
    {
      loading := true;
      loadingWrites := loadingWrites + [true];
      calls := [GetUser];
      if user.Some? {
        calls := calls + [SelectByOwner(AnalysesTable, user.value, "created_at", false)];
        match query
        case QueryFailed(_) =>
          history := [];
        case Rows(rows) =>
          history := AttachSignedUrls(rows, signer);
          calls := calls + SigningCalls(rows);
      }
      loading := false;
      loadingWrites := loadingWrites + [false];
    }
  }

  /** The item label: the prediction with its first "_" as a space, or "N/A" when that is empty or missing. */
  function HistoryLabel(prediction: Option<string>): string
  {
    if prediction.None? then "N/A"
    else
      var shown := ReplaceFirst(prediction.value, '_', ' ');
      if shown == "" then "N/A" else shown
  }

  /** "N/A" stands exactly for a missing or empty prediction, or a prediction that reads "N/A" itself. */
  lemma HistoryLabelRule(prediction: Option<string>)
    ensures prediction.None? || prediction == Some("") ==> HistoryLabel(prediction) == "N/A"
    ensures prediction.Some? && prediction.value != "" ==>
      HistoryLabel(prediction) == ReplaceFirst(prediction.value, '_', ' ')
    ensures HistoryLabel(prediction) == "N/A" ==>
      prediction.None? || prediction == Some("") || prediction == Some("N/A")
  {
    if prediction.Some? && HistoryLabel(prediction) == "N/A" && prediction.value != "" {
      var p := prediction.value;
      assert ReplaceFirst(p, '_', ' ') == "N/A";
      ReplaceFirstWithoutTarget(p, '_', ' ');
      assert ' ' !in "N/A";
      ReplaceFirstAbsent(p, '_', ' ');
    }
  }

  /** The thumbnail: the signed URL when it is a non-empty string, else the "No Image" placeholder. */
  function Thumbnail(entry: Entry): Option<string>
  {
    if entry.signedImageUrl.Some? && entry.signedImageUrl.value != "" then entry.signedImageUrl else None
  }

  /** A failed signature degrades that item alone to the placeholder. */
  lemma SigningFailureShowsPlaceholder(rows: seq<Row>, signer: Signer, i: nat)
    requires i < |rows| && HasImage(rows[i]) && signer(i, rows[i].imagePath.value).SignFailed?
    ensures Thumbnail(AttachSignedUrls(rows, signer)[i]) == None
    ensures AttachSignedUrls(rows, signer)[i].row == rows[i]
  {
  }

  /**
   * An item shows a thumbnail exactly when it has an image and its signing
   * call returned a non-empty URL; the thumbnail is that URL.
   */
  lemma ThumbnailShownIff(rows: seq<Row>, signer: Signer, i: nat)
    requires i < |rows|
    ensures Thumbnail(AttachSignedUrls(rows, signer)[i]).Some? <==>
      HasImage(rows[i]) && signer(i, rows[i].imagePath.value).Signed? && signer(i, rows[i].imagePath.value).url != ""
    ensures Thumbnail(AttachSignedUrls(rows, signer)[i]).Some? ==>
      Thumbnail(AttachSignedUrls(rows, signer)[i]).value == signer(i, rows[i].imagePath.value).url
  {
  }
}
