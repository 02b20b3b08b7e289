/**
 * The validation that the listing form of src/components/CreateListingPage.tsx
 * performs: its brand list and feature checkboxes come from the allow-lists,
 * each checkbox toggle re-validates the selection, and submission checks
 * the brand and then a non-empty feature selection.
 */
module ListingForm {
  import opened JsValues
  import opened Validations
  import opened DataValidation

  /** `motorcycleBrands`: the brands the form offers are the allowed brands. */
  const MOTORCYCLE_BRANDS: seq<string> := ALLOWED_BRANDS

  /** Every brand the form offers passes `validateBrand` without a report. */
  lemma OfferedBrandsPass()
    ensures forall i :: 0 <= i < |MOTORCYCLE_BRANDS| ==> ValidateBrand(JsStr(MOTORCYCLE_BRANDS[i])) == Checked(true, [])
  {
  }

  /** `s.filter(f => f !== x)`. */
  function Without(s: seq<string>, x: string): (r: seq<string>)
    ensures x !in r
    ensures forall y :: y != x ==> (y in r <==> y in s)
    ensures |r| <= |s|
  {
    if s == [] then []
    else if s[0] == x then Without(s[1..], x)
    else [s[0]] + Without(s[1..], x)
  }

  /** The new selection after a checkbox toggle, and what validating it reported. */
  datatype Toggled = Toggled(features: seq<string>, check: Checked)

  /**
   * `handleFeatureToggle`: a selected feature is removed (every copy), an
   * unselected one is appended; the new selection is then validated and the
   * answer ignored.
   */
  function ToggleFeature(features: seq<string>, feature: string): (t: Toggled)
    ensures feature in t.features <==> feature !in features
    ensures forall y :: y != feature ==> (y in t.features <==> y in features)
    ensures t.check.valid <==> AllAllowed(t.features)
    ensures t.check.reports == (if t.check.valid then [] else [INVALID_FEATURES])
  {
    var newFeatures := if feature in features then Without(features, feature) else features + [feature];
    SelectionCheck(newFeatures);
    Toggled(newFeatures, ValidateFeatures(StrArray(newFeatures)))
  }

  /** A selection, as the array of its names, passes `validateFeatures` iff every name is allowed. */
  lemma SelectionCheck(features: seq<string>)
    ensures ValidateFeatures(StrArray(features)) ==
      Checked(AllAllowed(features), if AllAllowed(features) then [] else [INVALID_FEATURES])
  {
    var arr := StrArray(features);
    assert forall y :: y in features ==> JsStr(y) in arr.elems;
  }

  /** The selection after a series of checkbox clicks. */
  function ToggleAll(features: seq<string>, clicks: seq<string>): seq<string>
    decreases |clicks|
  {
    if clicks == [] then features else ToggleAll(ToggleFeature(features, clicks[0]).features, clicks[1..])
  }

  /** Every feature listed is an allowed one. */
  predicate AllAllowed(features: seq<string>) {
    forall y :: y in features ==> y in ALLOWED_FEATURES
  }

  /**
   * The checkboxes offer only allowed features, so whatever the user clicks,
   * the selection stays within the allow-list and validates without a report.
   */
  lemma {:induction false} ClickedSelectionValidates(features: seq<string>, clicks: seq<string>)
    requires AllAllowed(features) && AllAllowed(clicks)
    ensures AllAllowed(ToggleAll(features, clicks))
    ensures ValidateFeatures(StrArray(ToggleAll(features, clicks))) == Checked(true, [])
    decreases |clicks|
  {
    if clicks == [] {
      var arr := StrArray(features);
      forall i | 0 <= i < |arr.elems|
        ensures arr.elems[i].JsStr? && arr.elems[i].s in ALLOWED_FEATURES
      {
        assert features[i] in features;
      }
    } else {
      assert clicks[0] in clicks;
      ClickedSelectionValidates(ToggleFeature(features, clicks[0]).features, clicks[1..]);
    }
  }

  /** Clicking the same checkbox twice restores which features are selected. */
  lemma ToggleTwiceRestoresSelection(features: seq<string>, feature: string)
    ensures forall y :: y in ToggleAll(features, [feature, feature]) <==> y in features
  {
    var once := ToggleFeature(features, feature).features;
    assert [feature, feature][1..] == [feature];
    assert ToggleAll(features, [feature, feature]) == ToggleAll(once, [feature]);
    assert ToggleAll(once, [feature]) == ToggleFeature(once, feature).features;
  }

  datatype SubmitOutcome = BrandRefused | FeaturesRefused | Proceed

  /** The submission gate's decision and the kinds it reported. */
  datatype Submission = Submission(outcome: SubmitOutcome, reports: seq<string>)

  /**
   * The checks in `handleSubmit` before the listing is built: the brand must
   * pass `validateBrand`; then, when features are selected, they must pass
   * `validateFeatures`.
   */
  function SubmitCheck(brand: string, features: seq<string>): (s: Submission)
    ensures s.outcome == BrandRefused <==> brand !in ALLOWED_BRANDS
    ensures s.outcome == FeaturesRefused <==> (
      && brand in ALLOWED_BRANDS
      && exists i :: 0 <= i < |features| && features[i] !in ALLOWED_FEATURES)
    ensures s.outcome == Proceed ==> s.reports == []
    ensures brand == "" ==> s == Submission(BrandRefused, [])
    ensures s.outcome == BrandRefused && brand != "" ==> s.reports == [INVALID_BRAND]
    ensures s.outcome == FeaturesRefused ==> s.reports == [INVALID_FEATURES]
  {
    var b := ValidateBrand(JsStr(brand));
    if !b.valid then Submission(BrandRefused, b.reports)
    else if |features| > 0 then
      var arr := StrArray(features);
      var f := ValidateFeatures(arr);
      if !f.valid then Submission(FeaturesRefused, f.reports) else Submission(Proceed, [])
    else Submission(Proceed, [])
  }

  /** An allowed brand with allowed features gets through without a report. */
  lemma AllowedChoicesProceed(brand: string, features: seq<string>)
    requires brand in ALLOWED_BRANDS
    requires AllAllowed(features)
    ensures SubmitCheck(brand, features) == Submission(Proceed, [])
  {
    assert forall i :: 0 <= i < |features| ==> features[i] in features;
  }

  /** A brand chosen from the list and features chosen with the checkboxes always get through. */
  lemma FormChoicesProceed(brand: string, clicks: seq<string>)
    requires brand in MOTORCYCLE_BRANDS
    requires AllAllowed(clicks)
    ensures SubmitCheck(brand, ToggleAll([], clicks)) == Submission(Proceed, [])
  {
    ClickedSelectionValidates([], clicks);
    AllowedChoicesProceed(brand, ToggleAll([], clicks));
  }
}
