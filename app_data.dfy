/**
 * The fetch-once data layer of src/lib/appData.ts: four cache slots filled by
 * their loaders and emptied by `reloadAllData`, and the find/map/some
 * queries over the loaded rows.
 *
 * A backend query is not run: its outcome (rows, `null` data, an error
 * result, or an exception) is a parameter of the loader, and the filtering
 * and ordering the query asks the backend for are taken as already applied.
 */
module AppData {
  import opened Wrappers
  import opened JsValues

  datatype AppSetting = AppSetting(
    id: string, key: string, value: string, description: string,
    isProtected: bool, createdAt: string, updatedAt: string)

  datatype MotorcycleBrand = MotorcycleBrand(id: string, name: string, isActive: bool, createdAt: string, updatedAt: string)

  datatype MotorcycleFeature = MotorcycleFeature(id: string, name: string, isActive: bool, createdAt: string, updatedAt: string)

  datatype MotorcycleCategory = MotorcycleCategory(
    id: string, name: string, imageUrl: string, isActive: bool, createdAt: string, updatedAt: string)

  /** A category as the UI receives it. */
  datatype CategoryView = CategoryView(name: string, image: string)

  datatype FooterSettings = FooterSettings(developerText: string, developerName: string, logoUrl: string)

  /** The outcome of one backend query: `{ data }` (possibly null), `{ error }`, or a thrown exception. */
  datatype FetchOutcome<T> = Fetched(data: Option<seq<T>>) | QueryError | Threw

  /** What a loader returns, the new content of its slot, and whether it queried the backend. */
  datatype LoadResult<T> = LoadResult(rows: seq<T>, slot: Option<seq<T>>, fetched: bool)

  /**
   * One loader call on a slot. A filled slot (even `[]`, which is truthy) is
   * returned without a query. Otherwise the query runs: a success caches
   * `data || []` and returns it; an error or exception returns `[]` and
   * leaves the slot empty.
   */
  function Load<T>(slot: Option<seq<T>>, fetch: FetchOutcome<T>): (r: LoadResult<T>)
    ensures r.fetched <==> slot.None?
    ensures slot.Some? ==> r.rows == slot.value && r.slot == slot
    ensures r.slot.Some? ==> r.rows == r.slot.value
    ensures slot.None? ==> (r.slot.Some? <==> fetch.Fetched?)
    ensures slot.None? && fetch.Fetched? ==> r.rows == fetch.data.GetOr([])
    ensures !fetch.Fetched? && slot.None? ==> r.rows == []
  {
    if slot.Some? then LoadResult(slot.value, slot, false)
    else
      match fetch
      case Fetched(data) =>
        var rows := data.GetOr([]);
        LoadResult(rows, Some(rows), true)
      case QueryError => LoadResult([], None, true)
      case Threw => LoadResult([], None, true)
  }

  /**
   * Fetch once: after a load that filled the slot, every later load returns
   * the same rows without querying, whatever the backend would now answer.
   */
  lemma {:induction false} LoadIsFetchOnce<T>(slot: Option<seq<T>>, first: FetchOutcome<T>, later: seq<FetchOutcome<T>>)
    requires Load(slot, first).slot.Some?
    ensures LoadSeries(Load(slot, first).slot, later) == Load(slot, first).slot
    ensures forall i :: 0 <= i < |later| ==>
      Load(Load(slot, first).slot, later[i]) == LoadResult(Load(slot, first).rows, Load(slot, first).slot, false)
    decreases |later|
  {
    if later != [] {
      var s := Load(slot, first).slot;
      assert Load(s, later[0]).slot == s;
      LoadIsFetchOnce(s, later[0], later[1..]);
    }
  }

  /** The slot after a series of loader calls with the given query outcomes. */
  function LoadSeries<T>(slot: Option<seq<T>>, fetches: seq<FetchOutcome<T>>): Option<seq<T>>
    decreases |fetches|
  {
    if fetches == [] then slot else LoadSeries(Load(slot, fetches[0]).slot, fetches[1..])
  }

  /** A null or empty result is cached as `[]`, and `[]` then counts as a hit. */
  lemma EmptyResultIsCached<T>(empty: FetchOutcome<T>, later: FetchOutcome<T>)
    requires empty == Fetched(None) || empty == Fetched(Some([]))
    ensures Load(None, empty).slot == Some([])
    ensures !Load(Some([]), later).fetched && Load(Some([]), later).rows == []
  {
  }

  /** A failed query leaves the slot empty, so the next call queries again. */
  lemma FailedLoadRetries<T>(failed: FetchOutcome<T>, next: FetchOutcome<T>)
    requires !failed.Fetched?
    ensures Load(None, failed).slot == None
    ensures Load(Load(None, failed).slot, next).fetched
  {
  }

  /** The module-level cache slots, as the fields of one object. */
  class DataCache {
    var cachedSettings: Option<seq<AppSetting>>
    var cachedBrands: Option<seq<MotorcycleBrand>>
    var cachedFeatures: Option<seq<MotorcycleFeature>>
    var cachedCategories: Option<seq<MotorcycleCategory>>

    /** The state when the module is first loaded: every slot `null`. */
    constructor ()
      ensures cachedSettings == None && cachedBrands == None
      ensures cachedFeatures == None && cachedCategories == None
    {
      cachedSettings := None;
      cachedBrands := None;
      cachedFeatures := None;
      cachedCategories := None;
    }

    /** `loadAppSettings`. */
    method LoadAppSettings(fetch: FetchOutcome<AppSetting>) returns (rows: seq<AppSetting>)
      modifies this`cachedSettings
      ensures rows == Load(old(cachedSettings), fetch).rows
      ensures cachedSettings == Load(old(cachedSettings), fetch).slot
    {
      var r := Load(cachedSettings, fetch);
      cachedSettings := r.slot;
      rows := r.rows;
    }

    /** `loadMotorcycleBrands`. */
    method LoadMotorcycleBrands(fetch: FetchOutcome<MotorcycleBrand>) returns (rows: seq<MotorcycleBrand>)
      modifies this`cachedBrands
      ensures rows == Load(old(cachedBrands), fetch).rows
      ensures cachedBrands == Load(old(cachedBrands), fetch).slot
    {
      var r := Load(cachedBrands, fetch);
      cachedBrands := r.slot;
      rows := r.rows;
    }

    /** `loadMotorcycleFeatures`. */
    method LoadMotorcycleFeatures(fetch: FetchOutcome<MotorcycleFeature>) returns (rows: seq<MotorcycleFeature>)
      modifies this`cachedFeatures
      ensures rows == Load(old(cachedFeatures), fetch).rows
      ensures cachedFeatures == Load(old(cachedFeatures), fetch).slot
    {
      var r := Load(cachedFeatures, fetch);
      cachedFeatures := r.slot;
      rows := r.rows;
    }

    /** `loadMotorcycleCategories`. */
    method LoadMotorcycleCategories(fetch: FetchOutcome<MotorcycleCategory>) returns (rows: seq<MotorcycleCategory>)
      modifies this`cachedCategories
      ensures rows == Load(old(cachedCategories), fetch).rows
      ensures cachedCategories == Load(old(cachedCategories), fetch).slot
    {
      var r := Load(cachedCategories, fetch);
      cachedCategories := r.slot;
      rows := r.rows;
    }

    /** `reloadAllData`: every slot back to `null`, so the next call of each loader queries. */
    method ReloadAllData()
      modifies this
      ensures cachedSettings == None && cachedBrands == None
      ensures cachedFeatures == None && cachedCategories == None
    {
      cachedSettings := None;
      cachedBrands := None;
      cachedFeatures := None;
      cachedCategories := None;
    }

    /** `getAppSetting(key)`. */
    method GetAppSetting(key: string, fetch: FetchOutcome<AppSetting>) returns (value: Option<string>)
      modifies this`cachedSettings
      ensures cachedSettings == Load(old(cachedSettings), fetch).slot
      ensures value == SettingValue(Load(old(cachedSettings), fetch).rows, key)
    {
      var settings := LoadAppSettings(fetch);
      value := SettingValue(settings, key);
    }

    /** `getFooterSettings()`. */
    method GetFooterSettings(fetch: FetchOutcome<AppSetting>) returns (footer: FooterSettings)
      modifies this`cachedSettings
      ensures cachedSettings == Load(old(cachedSettings), fetch).slot
      ensures footer == FooterSettingsFrom(Load(old(cachedSettings), fetch).rows)
    {
      var settings := LoadAppSettings(fetch);
      footer := FooterSettingsFrom(settings);
    }

    /** `getMotorcycleBrandNames()`. */
    method GetMotorcycleBrandNames(fetch: FetchOutcome<MotorcycleBrand>) returns (names: seq<string>)
      modifies this`cachedBrands
      ensures cachedBrands == Load(old(cachedBrands), fetch).slot
      ensures names == BrandNames(Load(old(cachedBrands), fetch).rows)
    {
      var brands := LoadMotorcycleBrands(fetch);
      names := BrandNames(brands);
    }

    /** `getMotorcycleFeatureNames()`. */
    method GetMotorcycleFeatureNames(fetch: FetchOutcome<MotorcycleFeature>) returns (names: seq<string>)
      modifies this`cachedFeatures
      ensures cachedFeatures == Load(old(cachedFeatures), fetch).slot
      ensures names == FeatureNames(Load(old(cachedFeatures), fetch).rows)
    {
      var features := LoadMotorcycleFeatures(fetch);
      names := FeatureNames(features);
    }

    /** `getMotorcycleCategories()`. */
    method GetMotorcycleCategories(fetch: FetchOutcome<MotorcycleCategory>) returns (views: seq<CategoryView>)
      modifies this`cachedCategories
      ensures cachedCategories == Load(old(cachedCategories), fetch).slot
      ensures views == CategoryViews(Load(old(cachedCategories), fetch).rows)
    {
      var categories := LoadMotorcycleCategories(fetch);
      views := CategoryViews(categories);
    }

    /** `isValidBrand(brand)`. */
    method IsValidBrand(brand: string, fetch: FetchOutcome<MotorcycleBrand>) returns (valid: bool)
      modifies this`cachedBrands
      ensures cachedBrands == Load(old(cachedBrands), fetch).slot
      ensures valid == HasBrandNamed(Load(old(cachedBrands), fetch).rows, brand)
    {
      var brands := LoadMotorcycleBrands(fetch);
      valid := HasBrandNamed(brands, brand);
    }

    /** `isValidFeature(feature)`. */
    method IsValidFeature(feature: string, fetch: FetchOutcome<MotorcycleFeature>) returns (valid: bool)
      modifies this`cachedFeatures
      ensures cachedFeatures == Load(old(cachedFeatures), fetch).slot
      ensures valid == HasFeatureNamed(Load(old(cachedFeatures), fetch).rows, feature)
    {
      var features := LoadMotorcycleFeatures(fetch);
      valid := HasFeatureNamed(features, feature);
    }

    /** `isValidCategory(category)`. */
    method IsValidCategory(category: string, fetch: FetchOutcome<MotorcycleCategory>) returns (valid: bool)
      modifies this`cachedCategories
      ensures cachedCategories == Load(old(cachedCategories), fetch).slot
      ensures valid == HasCategoryNamed(Load(old(cachedCategories), fetch).rows, category)
    {
      var categories := LoadMotorcycleCategories(fetch);
      valid := HasCategoryNamed(categories, category);
    }

    /** `areValidFeatures(features)`: loads through `getMotorcycleFeatureNames`. */
    method AreValidFeatures(features: seq<string>, fetch: FetchOutcome<MotorcycleFeature>) returns (valid: bool)
      modifies this`cachedFeatures
      ensures cachedFeatures == Load(old(cachedFeatures), fetch).slot
      ensures valid == AllFeaturesKnown(Load(old(cachedFeatures), fetch).rows, features)
    {
      var validFeatures := GetMotorcycleFeatureNames(fetch);
      valid := Every(features, (f: string) => f in validFeatures);
    }
  }

  // ---------------------------------------------------------------------------
  // Queries over loaded rows

  /** `settings.find(s => s.key === key)`: the first row with that key. */
  function FindSetting(settings: seq<AppSetting>, key: string): (r: Option<AppSetting>)
    ensures r.None? <==> forall i :: 0 <= i < |settings| ==> settings[i].key != key
    ensures r.Some? ==> exists i :: (
      && 0 <= i < |settings|
      && settings[i] == r.value
      && settings[i].key == key
      && forall j :: 0 <= j < i ==> settings[j].key != key)
  {
    if settings == [] then None
    else if settings[0].key == key then Some(settings[0])
    else
      var r := FindSetting(settings[1..], key);
      assert r.Some? ==> exists i :: (
        && 0 <= i < |settings[1..]| && settings[1..][i] == r.value
        && settings[1..][i].key == key && forall j :: 0 <= j < i ==> settings[1..][j].key != key);
      r
  }

  /**
   * The value `getAppSetting` returns: the value of the first row with the
   * key (an empty value included), or null when no row has the key.
   */
  function SettingValue(settings: seq<AppSetting>, key: string): (r: Option<string>)
    ensures r.None? <==> forall i :: 0 <= i < |settings| ==> settings[i].key != key
    ensures r.Some? ==> exists i :: (
      && 0 <= i < |settings|
      && settings[i].key == key && settings[i].value == r.value
      && forall j :: 0 <= j < i ==> settings[j].key != key)
  {
    match FindSetting(settings, key)
    case None => None
    case Some(s) => Some(s.value)
  }

  /** `find(...)?.value || fallback`: the first match's value unless there is none or it is empty. */
  function SettingOr(settings: seq<AppSetting>, key: string, fallback: string): string {
    match FindSetting(settings, key)
    case Some(s) => if s.value != "" then s.value else fallback
    case None => fallback
  }

  const DEFAULT_DEVELOPER_TEXT: string := "Termeni"
  const DEFAULT_DEVELOPER_NAME: string := "NEXT SOFT"
  const DEFAULT_LOGO_URL: string := "https://i.ibb.co/Qf9Vf3F/Next-Soft-Logo-ALB.png"

  /**
   * `getFooterSettings` on the loaded rows: each field is the value of the
   * first row with its key, or the hardcoded default when no row has the key
   * or that row's value is empty. No field is ever empty.
   */
  function FooterSettingsFrom(settings: seq<AppSetting>): (f: FooterSettings)
    ensures f.developerText != "" && f.developerName != "" && f.logoUrl != ""
    ensures f.developerText == (if SettingValue(settings, "footer_text_key") == Some("") then DEFAULT_DEVELOPER_TEXT
                                else SettingValue(settings, "footer_text_key").GetOr(DEFAULT_DEVELOPER_TEXT))
    ensures f.developerName == (if SettingValue(settings, "footer_name_key") == Some("") then DEFAULT_DEVELOPER_NAME
                                else SettingValue(settings, "footer_name_key").GetOr(DEFAULT_DEVELOPER_NAME))
    ensures f.logoUrl == (if SettingValue(settings, "footer_logo_url") == Some("") then DEFAULT_LOGO_URL
                          else SettingValue(settings, "footer_logo_url").GetOr(DEFAULT_LOGO_URL))
  {
    FooterSettings(
      SettingOr(settings, "footer_text_key", DEFAULT_DEVELOPER_TEXT),
      SettingOr(settings, "footer_name_key", DEFAULT_DEVELOPER_NAME),
      SettingOr(settings, "footer_logo_url", DEFAULT_LOGO_URL))
  }

  /**
   * The two readers of a setting disagree on an empty value: `getAppSetting`
   * returns the empty string, `getFooterSettings` falls back to the default.
   */
  lemma EmptyFooterValueFallsBack(settings: seq<AppSetting>)
    requires SettingValue(settings, "footer_text_key") == Some("")
    ensures FooterSettingsFrom(settings).developerText == DEFAULT_DEVELOPER_TEXT
  {
  }

  /** `brands.map(brand => brand.name)`: same length, same order. */
  function BrandNames(brands: seq<MotorcycleBrand>): (names: seq<string>)
    ensures |names| == |brands|
    ensures forall i :: 0 <= i < |brands| ==> names[i] == brands[i].name
  {
    if brands == [] then [] else [brands[0].name] + BrandNames(brands[1..])
  }

  /** `features.map(feature => feature.name)`: same length, same order. */
  function FeatureNames(features: seq<MotorcycleFeature>): (names: seq<string>)
    ensures |names| == |features|
    ensures forall i :: 0 <= i < |features| ==> names[i] == features[i].name
  {
    if features == [] then [] else [features[0].name] + FeatureNames(features[1..])
  }

  /** `categories.map(c => ({ name: c.name, image: c.image_url }))`: same length, same order. */
  function CategoryViews(categories: seq<MotorcycleCategory>): (views: seq<CategoryView>)
    ensures |views| == |categories|
    ensures forall i :: 0 <= i < |categories| ==>
      views[i].name == categories[i].name && views[i].image == categories[i].imageUrl
  {
    if categories == [] then []
    else [CategoryView(categories[0].name, categories[0].imageUrl)] + CategoryViews(categories[1..])
  }

  /** `brands.some(b => b.name === brand)`: the brand is among the loaded names. */
  function HasBrandNamed(brands: seq<MotorcycleBrand>, brand: string): (r: bool)
    ensures r <==> brand in BrandNames(brands)
  {
    AnyOf(brands, (b: MotorcycleBrand) => b.name == brand)
  }

  /** `features.some(f => f.name === feature)`: the feature is among the loaded names. */
  function HasFeatureNamed(features: seq<MotorcycleFeature>, feature: string): (r: bool)
    ensures r <==> feature in FeatureNames(features)
  {
    AnyOf(features, (f: MotorcycleFeature) => f.name == feature)
  }

  /** `categories.some(c => c.name === category)`: the category is among the loaded names. */
  function HasCategoryNamed(categories: seq<MotorcycleCategory>, category: string): (r: bool)
    ensures r <==> exists i :: 0 <= i < |CategoryViews(categories)| && CategoryViews(categories)[i].name == category
  {
    var views := CategoryViews(categories);
    var r := AnyOf(categories, (c: MotorcycleCategory) => c.name == category);
    assert r ==> exists i :: 0 <= i < |views| && views[i].name == category;
    r
  }

  /**
   * `areValidFeatures` on the loaded rows: every requested feature passes
   * `isValidFeature`; `[]` is valid.
   */
  function AllFeaturesKnown(rows: seq<MotorcycleFeature>, features: seq<string>): (r: bool)
    ensures features == [] ==> r
    ensures r <==> forall i :: 0 <= i < |features| ==> HasFeatureNamed(rows, features[i])
  {
    var names := FeatureNames(rows);
    Every(features, (f: string) => f in names)
  }
}
