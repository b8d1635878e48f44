/** The model wrapper's side of the contract: the fixed column list the
    classifier was trained on, and the column selection that `predict`
    performs before handing the row to the (opaque) preprocessor and model. */
module Estimator {
  import opened Wrappers
  import opened Collections

  /** The training columns, in the order the classifier expects them. */
  const FeatureColumns: seq<string> := [
    "having_IP_Address", "URL_Length", "Shortining_Service", "having_At_Symbol",
    "double_slash_redirecting", "Prefix_Suffix", "having_Sub_Domain", "SSLfinal_State",
    "Domain_registeration_length", "Favicon", "port", "HTTPS_token", "Request_URL",
    "URL_of_Anchor", "Links_in_tags", "SFH", "Submitting_to_email", "Abnormal_URL",
    "Redirect", "on_mouseover", "RightClick", "popUpWidnow", "Iframe", "age_of_domain",
    "DNSRecord", "web_traffic", "Page_Rank", "Google_Index", "Links_pointing_to_page",
    "Statistical_report"
  ]

  /** Thirty columns, none named twice. */
  lemma FeatureColumnsShape()
    ensures |FeatureColumns| == 30
    ensures Distinct(FeatureColumns)
    ensures |Elements(FeatureColumns)| == 30
  {
    DistinctElements(FeatureColumns);
  }

  /** Why a prediction failed: the row lacks some requested columns (the
      indexing error), or the preprocessor or model raised. */
  datatype Cause = MissingColumns(columns: seq<string>) | ModelFailure(reason: string)

  /** Every failure inside `predict` is re-raised wrapped in this exception. */
  datatype NetworkSecurityException = NetworkSecurityException(cause: Cause)

  /** The requested columns the row does not have, in request order. */
  function Missing(x: map<string, int>, cols: seq<string>): (r: seq<string>)
    ensures |r| <= |cols|
    ensures forall c :: c in r <==> c in cols && c !in x
  {
    if cols == [] then []
    else
      var rest := Missing(x, cols[1..]);
      assert forall c :: c in cols <==> c == cols[0] || c in cols[1..];
      (if cols[0] in x then [] else [cols[0]]) + rest
  }

  /** The row's values under `cols`, in the order of `cols`. */
  function Row(x: map<string, int>, cols: seq<string>): (row: seq<int>)
    requires forall c :: c in cols ==> c in x
    ensures |row| == |cols|
    ensures forall i :: 0 <= i < |cols| ==> row[i] == x[cols[i]]
  {
    if cols == [] then []
    else [x[cols[0]]] + Row(x, cols[1..])
  }

  /** `x[cols]`: the values under the requested columns, reordered to the
      order of `cols` and with every other key dropped; the indexing fails,
      naming the absent columns, unless all are present. */
  function Select(x: map<string, int>, cols: seq<string>): (r: Result<seq<int>, Cause>)
    ensures r.Success? <==> forall c :: c in cols ==> c in x
    ensures r.Success? ==> |r.value| == |cols|
    ensures r.Success? ==> forall i :: 0 <= i < |cols| ==> cols[i] in x && r.value[i] == x[cols[i]]
    ensures r.Failure? ==> r.error.MissingColumns? && r.error.columns != []
    ensures r.Failure? ==> forall c :: c in r.error.columns <==> c in cols && c !in x
  {
    var missing := Missing(x, cols);
    if missing == [] then Success(Row(x, cols))
    else
      assert missing[0] in missing;
      Failure(MissingColumns(missing))
  }

  /** The missing-column list depends only on which requested columns the
      row has. */
  lemma {:induction false} MissingSameColumns(x: map<string, int>, y: map<string, int>, cols: seq<string>)
    requires forall c :: c in cols ==> (c in x <==> c in y)
    ensures Missing(x, cols) == Missing(y, cols)
  {
    if cols != [] {
      assert forall c :: c in cols[1..] ==> c in cols;
      MissingSameColumns(x, y, cols[1..]);
    }
  }

  /** Keys outside the requested columns play no part in the selection:
      two rows that agree on the requested columns select the same. */
  lemma SelectIgnoresExtraKeys(x: map<string, int>, y: map<string, int>, cols: seq<string>)
    requires forall c :: c in cols ==> (c in x <==> c in y)
    requires forall c :: c in cols && c in x ==> x[c] == y[c]
    ensures Select(x, cols) == Select(y, cols)
  {
    MissingSameColumns(x, y, cols);
    if Missing(x, cols) == [] {
      var a := Select(x, cols).value;
      var b := Select(y, cols).value;
      assert |a| == |b|;
      forall i | 0 <= i < |a|
        ensures a[i] == b[i]
      {
        assert cols[i] in cols;
      }
      assert a == b;
    }
  }

  /** `NetworkModel.predict` for one row: select the training columns, then
      run the preprocessor and model, given here as one opaque function that
      may raise. Any failure comes back wrapped. */
  function Predict(x: map<string, int>, classify: seq<int> -> Result<int, string>): (r: Result<int, NetworkSecurityException>)
    ensures (exists c :: c in FeatureColumns && c !in x) ==>
      r.Failure? && r.error.cause.MissingColumns?
    ensures r.Success? ==>
      (forall c :: c in FeatureColumns ==> c in x)
      && classify(Row(x, FeatureColumns)) == Success(r.value)
    ensures (forall c :: c in FeatureColumns ==> c in x) && classify(Row(x, FeatureColumns)).Failure? ==>
      r == Failure(NetworkSecurityException(ModelFailure(classify(Row(x, FeatureColumns)).error)))
  {
    match Select(x, FeatureColumns)
    case Failure(cause) => Failure(NetworkSecurityException(cause))
    case Success(row) =>
      match classify(row)
      case Failure(reason) => Failure(NetworkSecurityException(ModelFailure(reason)))
      case Success(prediction) => Success(prediction)
  }

  /** On a row that has every training column, prediction can fail only
      through the classifier, and succeeds exactly when the classifier does
      on the selected row. */
  lemma PredictWithAllColumns(x: map<string, int>, classify: seq<int> -> Result<int, string>)
    requires forall c :: c in FeatureColumns ==> c in x
    ensures var out := Predict(x, classify);
      && (out.Failure? ==> out.error.cause.ModelFailure?)
      && (out.Success? <==> classify(Row(x, FeatureColumns)).Success?)
  {
    assert Select(x, FeatureColumns) == Success(Row(x, FeatureColumns));
  }
}
