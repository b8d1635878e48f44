/** The two halves put together: the extractor's keys are exactly the
    classifier's columns, so the column selection in `predict` is total on
    extractor output and only reorders. */
module Pipeline {
  import opened Wrappers
  import opened Scores
  import opened Collections
  import opened Lexical
  import opened Extraction
  import opened Estimator

  /** Each training column is among the extracted names. */
  lemma ColumnsExtracted()
    ensures forall c :: c in FeatureColumns ==> c in ExtractedNames
  {
  }

  /** Each extracted name is a training column. */
  lemma ExtractedAreColumns()
    ensures forall k :: k in ExtractedNames ==> k in FeatureColumns
  {
  }

  /** The extracted names and the training columns are the same set. */
  lemma SameNames()
    ensures Elements(ExtractedNames) == Elements(FeatureColumns)
  {
    ColumnsExtracted();
    ExtractedAreColumns();
    ElementsAreMembers(ExtractedNames);
    ElementsAreMembers(FeatureColumns);
  }

  /** The extractor produces exactly the training columns as keys, whatever
      the lookups returned. */
  lemma KeysAreColumns(url: string, p: Parsed, net: Lookups)
    requires PortValid(p)
    ensures Features(url, p, net).Keys == Elements(FeatureColumns)
  {
    FeatureKeys(url, p, net);
    SameNames();
  }

  /** Selecting the training columns from extractor output always succeeds
      and yields 30 values, each the extracted value under the column at
      that position and each -1, 0 or 1. */
  lemma SelectionTotal(url: string, p: Parsed, net: Lookups)
    requires PortValid(p)
    ensures var r := Features(url, p, net);
      var s := Select(r, FeatureColumns);
      && s.Success?
      && |s.value| == 30
      && (forall i :: 0 <= i < 30 ==> MapsTo(r, FeatureColumns[i], s.value[i]))
      && (forall i :: 0 <= i < 30 ==> -1 <= s.value[i] <= 1)
  {
    KeysAreColumns(url, p, net);
    FeatureValues(url, p, net);
    ElementsAreMembers(FeatureColumns);
  }

  /** The six unmeasured features land at their training positions: the
      selected row holds 1 at positions 9, 27 and 29 and 0 at 25, 26 and 28. */
  lemma DefaultsInSelectedRow(url: string, p: Parsed, net: Lookups)
    requires PortValid(p)
    ensures var s := Select(Features(url, p, net), FeatureColumns);
      && s.Success? && |s.value| == 30
      && s.value[9] == 1 && s.value[27] == 1 && s.value[29] == 1
      && s.value[25] == 0 && s.value[26] == 0 && s.value[28] == 0
  {
    SelectionTotal(url, p, net);
    StaticDefaultValues(url, p, net);
    DefaultsAtColumns(Features(url, p, net));
  }

  /** Where the selection puts the six defaulted features of any row that
      has all training columns. */
  lemma DefaultsAtColumns(r: map<string, int>)
    requires Select(r, FeatureColumns).Success?
    requires MapsTo(r, "web_traffic", 0) && MapsTo(r, "Page_Rank", 0) && MapsTo(r, "Links_pointing_to_page", 0)
    requires MapsTo(r, "Favicon", 1) && MapsTo(r, "Google_Index", 1) && MapsTo(r, "Statistical_report", 1)
    ensures var s := Select(r, FeatureColumns);
      && |s.value| == 30
      && s.value[9] == 1 && s.value[27] == 1 && s.value[29] == 1
      && s.value[25] == 0 && s.value[26] == 0 && s.value[28] == 0
  {
  }

  /** Prediction on extractor output never fails for a missing column: it
      fails only when the classifier does, and otherwise returns what the
      classifier makes of the selected row. */
  lemma PredictOnExtracted(url: string, p: Parsed, net: Lookups, classify: seq<int> -> Result<int, string>)
    requires PortValid(p)
    ensures var x := Features(url, p, net);
      var out := Predict(x, classify);
      (forall c :: c in FeatureColumns ==> c in x)
      && (out.Failure? ==> out.error.cause.ModelFailure?)
      && (out.Success? <==> classify(Row(x, FeatureColumns)).Success?)
  {
    SelectionTotal(url, p, net);
    PredictWithAllColumns(Features(url, p, net), classify);
  }
}
