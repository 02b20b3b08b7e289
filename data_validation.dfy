/**
 * The data validators of src/lib/dataValidation.ts. Each returns its boolean
 * together with the report kinds it passed to `triggerError`, in order; the
 * console messages are left out.
 */
module DataValidation {
  import opened Wrappers
  import opened JsValues
  import opened Validations
  import AllowLists
  import FooterProtection

  const INVALID_FEATURES: string := "INVALID_FEATURES"
  const INVALID_BRAND: string := "INVALID_BRAND"
  const INVALID_CATEGORY: string := "INVALID_CATEGORY"
  const INVALID_CATEGORIES: string := "INVALID_CATEGORIES"
  const INVALID_LISTING_PROPS: string := "INVALID_LISTING_PROPS"
  const INVALID_PROFILE_PROPS: string := "INVALID_PROFILE_PROPS"
  const INVALID_USER_PROPS: string := "INVALID_USER_PROPS"

  /** Every kind a validator can report. */
  const VALIDATION_KINDS: set<string> := {
    INVALID_FEATURES, INVALID_BRAND, INVALID_CATEGORY, INVALID_CATEGORIES,
    INVALID_LISTING_PROPS, INVALID_PROFILE_PROPS, INVALID_USER_PROPS}

  const LISTING_PROPS: seq<string> :=
    ["title", "price", "year", "mileage", "location", "category", "brand", "model", "engine_capacity"]
  const PROFILE_PROPS: seq<string> := ["name", "email"]
  const USER_PROPS: seq<string> := ["id", "email"]

  /** A validator's answer and the kinds it reported, in order. */
  datatype Checked = Checked(valid: bool, reports: seq<string>)

  /** Passing `!v || typeof v !== 'object'`: an array or a plain object. */
  predicate IsObjectLike(v: JsValue) {
    Truthy(v) && TypeOf(v) == "object"
  }

  /** `validateFeatures`: every element is an allowed feature; `[]` passes. */
  function ValidateFeatures(features: JsValue): (c: Checked)
    ensures !features.JsArray? ==> c == Checked(false, [])
    ensures c.valid <==> (
      && features.JsArray?
      && forall i :: 0 <= i < |features.elems| ==> features.elems[i].JsStr? && features.elems[i].s in ALLOWED_FEATURES)
    ensures features.JsArray? ==> (c.reports == [INVALID_FEATURES] <==> !c.valid)
    ensures c.reports == [] || c.reports == [INVALID_FEATURES]
    ensures features == JsArray([]) ==> c == Checked(true, [])
  {
    if !Truthy(features) || !IsArray(features) then Checked(false, [])
    else
      var isValid := Every(features.elems, (f: JsValue) => IncludesStr(ALLOWED_FEATURES, f));
      Checked(isValid, if isValid then [] else [INVALID_FEATURES])
  }

  /**
   * `validateBrand`: an allowed brand name. An empty or non-string brand is
   * refused without a report; a non-empty string that is not listed is
   * refused with one.
   */
  function ValidateBrand(brand: JsValue): (c: Checked)
    ensures c.valid <==> brand.JsStr? && brand.s in ALLOWED_BRANDS
    ensures !(brand.JsStr? && brand.s != "") ==> c == Checked(false, [])
    ensures c.reports == [INVALID_BRAND] <==> (brand.JsStr? && brand.s != "" && brand.s !in ALLOWED_BRANDS)
    ensures c.reports == [] || c.reports == [INVALID_BRAND]
  {
    if !Truthy(brand) || TypeOf(brand) != "string" then Checked(false, [])
    else
      var isValid := brand.s in ALLOWED_BRANDS;
      Checked(isValid, if isValid then [] else [INVALID_BRAND])
  }

  /**
   * `validateCategory`: the own `name` and `image` are strictly equal to
   * those of some allowed category. A missing or empty name or image is
   * refused without a report; a full pair that is not listed is refused
   * with one.
   */
  function ValidateCategory(category: JsValue): (c: Checked)
    ensures c.valid <==> (
      && category.JsObject?
      && exists i :: (
        && 0 <= i < |ALLOWED_CATEGORIES|
        && Prop(category, "name") == JsStr(ALLOWED_CATEGORIES[i].name)
        && Prop(category, "image") == JsStr(ALLOWED_CATEGORIES[i].image)))
    ensures !Truthy(Prop(category, "name")) || !Truthy(Prop(category, "image")) ==> c == Checked(false, [])
    ensures c.reports == [INVALID_CATEGORY] <==> (
      && Truthy(Prop(category, "name")) && Truthy(Prop(category, "image"))
      && !c.valid)
    ensures c.reports == [] || c.reports == [INVALID_CATEGORY]
  {
    AllowedCategoriesWellFormed();
    if !IsObjectLike(category) then Checked(false, [])
    else if !Truthy(Prop(category, "name")) || !Truthy(Prop(category, "image")) then Checked(false, [])
    else
      var isValid := AnyOf(ALLOWED_CATEGORIES, (a: Category) => AllowLists.SameCategory(category, a));
      Checked(isValid, if isValid then [] else [INVALID_CATEGORY])
  }

  /**
   * `xs.every(x => check(x).valid)` where each check reports only when it
   * refuses: left to right, stopping at the first refusal, so only that
   * element's reports are made.
   */
  function EveryChecked<T(!new)>(xs: seq<T>, check: T -> Checked): (c: Checked)
    requires forall x :: check(x).valid ==> check(x).reports == []
    ensures c.valid <==> forall i :: 0 <= i < |xs| ==> check(xs[i]).valid
    ensures c.valid ==> c.reports == []
    ensures !c.valid ==> exists k :: (
      && 0 <= k < |xs|
      && !check(xs[k]).valid
      && (forall i :: 0 <= i < k ==> check(xs[i]).valid)
      && c.reports == check(xs[k]).reports)
  {
    if xs == [] then Checked(true, [])
    else if !check(xs[0]).valid then check(xs[0])
    else
      var rest := EveryChecked(xs[1..], check);
      assert forall i :: 1 <= i < |xs| ==> xs[i] == xs[1..][i - 1];
      if rest.valid then rest
      else
        var k :| 0 <= k < |xs[1..]| && !check(xs[1..][k]).valid
          && (forall i :: 0 <= i < k ==> check(xs[1..][i]).valid)
          && rest.reports == check(xs[1..][k]).reports;
        assert !check(xs[k + 1]).valid;
        rest
  }

  /**
   * `validateCategories`: an array, of any length, of valid categories. A
   * refusal of an array reports what the first refused element reported
   * (at most one INVALID_CATEGORY) and then exactly one INVALID_CATEGORIES.
   */
  function ValidateCategories(categories: JsValue): (c: Checked)
    ensures !categories.JsArray? ==> c == Checked(false, [])
    ensures c.valid <==> (
      && categories.JsArray?
      && forall i :: 0 <= i < |categories.elems| ==> ValidateCategory(categories.elems[i]).valid)
    ensures c.valid ==> c.reports == []
    ensures categories.JsArray? && !c.valid ==>
      (c.reports == [INVALID_CATEGORIES] || c.reports == [INVALID_CATEGORY, INVALID_CATEGORIES])
    ensures categories.JsArray? && !c.valid ==> exists k :: (
      && 0 <= k < |categories.elems|
      && !ValidateCategory(categories.elems[k]).valid
      && (forall i :: 0 <= i < k ==> ValidateCategory(categories.elems[i]).valid)
      && c.reports == ValidateCategory(categories.elems[k]).reports + [INVALID_CATEGORIES])
    ensures categories == JsArray([]) ==> c == Checked(true, [])
  {
    if !Truthy(categories) || !IsArray(categories) then Checked(false, [])
    else
      var each := EveryChecked(categories.elems, ValidateCategory);
      Checked(each.valid, if each.valid then [] else each.reports + [INVALID_CATEGORIES])
  }

  /** `props.every(p => v.hasOwnProperty(p) && v[p])`. */
  predicate HasTruthyProps(v: JsValue, props: seq<string>) {
    Every(props, (p: string) => HasOwn(v, p) && Truthy(Prop(v, p)))
  }

  /**
   * `validateListing`: the nine required properties are own and truthy, the
   * brand passes `validateBrand`, and `features`, when truthy, passes
   * `validateFeatures`. The first failing step decides the one report.
   */
  function ValidateListing(listing: JsValue): (c: Checked)
    ensures c.valid <==> (
      && listing.JsObject?
      && (forall i :: 0 <= i < |LISTING_PROPS| ==> HasOwn(listing, LISTING_PROPS[i]) && Truthy(Prop(listing, LISTING_PROPS[i])))
      && IncludesStr(ALLOWED_BRANDS, Prop(listing, "brand"))
      && (Truthy(Prop(listing, "features")) ==> AllowLists.AreFeaturesValid(Prop(listing, "features"), ALLOWED_FEATURES)))
    ensures c.valid ==> c.reports == []
    ensures c.reports == [] || c.reports == [INVALID_LISTING_PROPS]
         || c.reports == [INVALID_BRAND] || c.reports == [INVALID_FEATURES]
    ensures !IsObjectLike(listing) ==> c == Checked(false, [])
    ensures IsObjectLike(listing) && !HasTruthyProps(listing, LISTING_PROPS) ==> c == Checked(false, [INVALID_LISTING_PROPS])
    ensures IsObjectLike(listing) && HasTruthyProps(listing, LISTING_PROPS) && !ValidateBrand(Prop(listing, "brand")).valid ==>
      c == Checked(false, ValidateBrand(Prop(listing, "brand")).reports)
    ensures (
      && IsObjectLike(listing) && HasTruthyProps(listing, LISTING_PROPS)
      && ValidateBrand(Prop(listing, "brand")).valid && Truthy(Prop(listing, "features")))
      ==> c == ValidateFeatures(Prop(listing, "features"))
  {
    if !IsObjectLike(listing) then Checked(false, [])
    else if !HasTruthyProps(listing, LISTING_PROPS) then Checked(false, [INVALID_LISTING_PROPS])
    else
      var brand := ValidateBrand(Prop(listing, "brand"));
      if !brand.valid then Checked(false, brand.reports)
      else if Truthy(Prop(listing, "features")) then
        FeaturesAgreeWithAllowList(Prop(listing, "features"));
        var features := ValidateFeatures(Prop(listing, "features"));
        if !features.valid then Checked(false, features.reports) else Checked(true, [])
      else Checked(true, [])
  }

  /** A listing priced 0 is refused as missing a property. */
  lemma ZeroPriceIsMissingProperty(props: map<string, JsValue>)
    requires "price" in props && props["price"] == JsNum(0.0)
    ensures ValidateListing(JsObject(props)) == Checked(false, [INVALID_LISTING_PROPS])
  {
    assert LISTING_PROPS[1] == "price";
  }

  /** So is a listing with mileage 0: the same truthiness test refuses it. */
  lemma ZeroMileageIsMissingProperty(props: map<string, JsValue>)
    requires "mileage" in props && props["mileage"] == JsNum(0.0)
    ensures ValidateListing(JsObject(props)) == Checked(false, [INVALID_LISTING_PROPS])
  {
    assert LISTING_PROPS[3] == "mileage";
  }

  /** The shared shape of `validateProfile` and `validateUser`. */
  function ValidateRequired(v: JsValue, props: seq<string>, kind: string): (c: Checked)
    requires props != []
    ensures c.valid <==> v.JsObject? && forall i :: 0 <= i < |props| ==> props[i] in v.props && Truthy(v.props[props[i]])
    ensures c.reports == [] || c.reports == [kind]
    ensures c.reports == [kind] <==> (v.JsObject? || v.JsArray?) && !c.valid
  {
    if !IsObjectLike(v) then Checked(false, [])
    else if !HasTruthyProps(v, props) then Checked(false, [kind])
    else Checked(true, [])
  }

  /** `validateProfile`: own, truthy `name` and `email`. */
  function ValidateProfile(profile: JsValue): (c: Checked)
    ensures c.valid <==> (
      && profile.JsObject?
      && "name" in profile.props && Truthy(profile.props["name"])
      && "email" in profile.props && Truthy(profile.props["email"]))
    ensures c.reports == [INVALID_PROFILE_PROPS] <==> (profile.JsObject? || profile.JsArray?) && !c.valid
    ensures c.reports == [] || c.reports == [INVALID_PROFILE_PROPS]
  {
    ValidateRequired(profile, PROFILE_PROPS, INVALID_PROFILE_PROPS)
  }

  /** `validateUser`: own, truthy `id` and `email`. */
  function ValidateUser(user: JsValue): (c: Checked)
    ensures c.valid <==> (
      && user.JsObject?
      && "id" in user.props && Truthy(user.props["id"])
      && "email" in user.props && Truthy(user.props["email"]))
    ensures c.reports == [INVALID_USER_PROPS] <==> (user.JsObject? || user.JsArray?) && !c.valid
    ensures c.reports == [] || c.reports == [INVALID_USER_PROPS]
  {
    ValidateRequired(user, USER_PROPS, INVALID_USER_PROPS)
  }

  // ---------------------------------------------------------------------------
  // Agreement with the exported allow-list validators

  lemma FeaturesAgreeWithAllowList(features: JsValue)
    ensures ValidateFeatures(features).valid == AllowLists.AreFeaturesValid(features, ALLOWED_FEATURES)
  {
  }

  lemma CategoryAgreesWithAllowList(category: JsValue)
    ensures ValidateCategory(category).valid == AllowLists.IsCategoryValid(category, ALLOWED_CATEGORIES)
  {
    AllowedCategoriesWellFormed();
  }

  /** `validateCategories` does not check the length that `areCategoriesValid` demands. */
  lemma CategoriesAgreeWithAllowList(categories: JsValue)
    ensures AllowLists.AreCategoriesValid(categories, ALLOWED_CATEGORIES) <==>
      ValidateCategories(categories).valid && |categories.elems| == |ALLOWED_CATEGORIES|
  {
    if categories.JsArray? {
      forall i | 0 <= i < |categories.elems|
        ensures ValidateCategory(categories.elems[i]).valid == AllowLists.IsCategoryValid(categories.elems[i], ALLOWED_CATEGORIES)
      {
        CategoryAgreesWithAllowList(categories.elems[i]);
      }
    }
  }

  /** A category as the object `{ name, image }`. */
  function CategoryObject(c: Category): JsValue {
    JsObject(map["name" := JsStr(c.name), "image" := JsStr(c.image)])
  }

  /** The allow-list itself, as a JavaScript array of objects. */
  function CategoriesArray(cs: seq<Category>): (v: JsValue)
    ensures v.JsArray? && |v.elems| == |cs|
    ensures forall i :: 0 <= i < |cs| ==> v.elems[i] == CategoryObject(cs[i])
  {
    JsArray(seq(|cs|, i requires 0 <= i < |cs| => CategoryObject(cs[i])))
  }

  /** Every allowed category passes `validateCategory`, so the whole list passes silently. */
  lemma AllowedCategoriesPass()
    ensures forall i :: 0 <= i < |ALLOWED_CATEGORIES| ==> ValidateCategory(CategoryObject(ALLOWED_CATEGORIES[i])) == Checked(true, [])
    ensures ValidateCategories(CategoriesArray(ALLOWED_CATEGORIES)) == Checked(true, [])
  {
    forall i | 0 <= i < |ALLOWED_CATEGORIES|
      ensures ValidateCategory(CategoryObject(ALLOWED_CATEGORIES[i])) == Checked(true, [])
    {
      var v := CategoryObject(ALLOWED_CATEGORIES[i]);
      assert Prop(v, "name") == JsStr(ALLOWED_CATEGORIES[i].name);
      assert Prop(v, "image") == JsStr(ALLOWED_CATEGORIES[i].image);
    }
  }

  // ---------------------------------------------------------------------------
  // What a validation report can do to storage

  /**
   * Each report becomes one `triggerError` call; its deferred effect then
   * runs with its own draws and its own `Date.now()`.
   */
  function ApplyReports(items: map<string, string>, reports: seq<string>, draws: seq<nat>, coins: seq<real>, nows: seq<nat>): map<string, string>
    requires |draws| == |reports| == |coins| == |nows|
    requires forall i :: 0 <= i < |draws| ==> draws[i] < FooterProtection.ERROR_CODE_BOUND
    decreases |reports|
  {
    if reports == [] then items
    else
      var p := FooterProtection.TriggerError(reports[0], draws[0]);
      ApplyReports(FooterProtection.ErrorEffect(items, p, coins[0], nows[0]), reports[1..], draws[1..], coins[1..], nows[1..])
  }

  /** The only keys a validation report can write. */
  const VALIDATION_WRITES: set<string> := {FooterProtection.UNKNOWN_ERROR, FooterProtection.CACHE_CORRUPTED}

  /**
   * Validation reports are never footer kinds: their effects only add or
   * overwrite the unknown-error and cache-corrupted keys, so the integrity
   * flag and every feature flag keep their values.
   */
  lemma {:induction false} ValidationReportsSpareIntegrity(
    items: map<string, string>, reports: seq<string>, draws: seq<nat>, coins: seq<real>, nows: seq<nat>)
    requires |draws| == |reports| == |coins| == |nows|
    requires forall i :: 0 <= i < |draws| ==> draws[i] < FooterProtection.ERROR_CODE_BOUND
    requires forall i :: 0 <= i < |reports| ==> reports[i] in VALIDATION_KINDS
    ensures ApplyReports(items, reports, draws, coins, nows).Keys <= items.Keys + VALIDATION_WRITES
    ensures forall k :: k in items && k !in VALIDATION_WRITES ==>
      k in ApplyReports(items, reports, draws, coins, nows) && ApplyReports(items, reports, draws, coins, nows)[k] == items[k]
    ensures FooterProtection.INTEGRITY_FAILED in ApplyReports(items, reports, draws, coins, nows) <==> FooterProtection.INTEGRITY_FAILED in items
    decreases |reports|
  {
    if reports != [] {
      var p := FooterProtection.TriggerError(reports[0], draws[0]);
      assert !FooterProtection.IsFooterKind(p.errorType) && p.errorType != FooterProtection.FOOTER_CHECK_ERROR;
      var next := FooterProtection.ErrorEffect(items, p, coins[0], nows[0]);
      assert FooterProtection.ErrorKeys(p.errorType, coins[0]) <= VALIDATION_WRITES;
      ValidationReportsSpareIntegrity(next, reports[1..], draws[1..], coins[1..], nows[1..]);
    }
  }

  /** Whatever a validator reports is a validation kind, so it falls under the lemma above. */
  lemma ValidatorsReportValidationKinds(v: JsValue)
    ensures forall r :: r in ValidateFeatures(v).reports ==> r in VALIDATION_KINDS
    ensures forall r :: r in ValidateBrand(v).reports ==> r in VALIDATION_KINDS
    ensures forall r :: r in ValidateCategory(v).reports ==> r in VALIDATION_KINDS
    ensures forall r :: r in ValidateCategories(v).reports ==> r in VALIDATION_KINDS
    ensures forall r :: r in ValidateListing(v).reports ==> r in VALIDATION_KINDS
    ensures forall r :: r in ValidateProfile(v).reports ==> r in VALIDATION_KINDS
    ensures forall r :: r in ValidateUser(v).reports ==> r in VALIDATION_KINDS
  {
  }
}
