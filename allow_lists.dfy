/**
 * The pure allow-list validators exported by src/lib/footerProtection.ts,
 * and their `_nx_*` aliases. They take their allow-lists as arguments and
 * report nothing.
 */
module AllowLists {
  import opened JsValues
  import opened Validations

  /** `isValueAllowed`: `allowedValues.includes(value)`. */
  function IsValueAllowed<T(==)>(value: T, allowedValues: seq<T>): (r: bool)
    ensures r <==> exists i :: 0 <= i < |allowedValues| && allowedValues[i] == value
  {
    value in allowedValues
  }

  /** `hasRequiredProperties` on a plain object given by its own properties. */
  function HasRequiredProperties(obj: map<string, JsValue>, requiredProps: seq<string>): (r: bool)
    ensures r <==> (set p | p in requiredProps) <= obj.Keys
  {
    Every(requiredProps, (p: string) => p in obj)
  }

  /** `hasOnlyAllowedProperties`: every own key is listed. */
  function HasOnlyAllowedProperties(obj: map<string, JsValue>, allowedProps: seq<string>): (r: bool)
    ensures r <==> obj.Keys <= (set p | p in allowedProps)
  {
    forall k :: k in obj ==> k in allowedProps
  }

  /**
   * `hasOnlyAllowedValues`: every entry's key has an allow-list (an array is
   * truthy even when empty) that includes the entry's value.
   */
  function HasOnlyAllowedValues<T(==)>(obj: map<string, T>, allowedValues: map<string, seq<T>>): (r: bool)
    ensures obj == map[] ==> r
    ensures (exists k :: k in obj && k !in allowedValues) ==> !r
    ensures r <==> obj.Keys <= allowedValues.Keys && forall k :: k in obj ==> obj[k] in allowedValues[k]
  {
    forall k :: k in obj ==> k in allowedValues && obj[k] in allowedValues[k]
  }

  /** `isImageUrlAllowed`: some allowed entry is a prefix of the URL. */
  function IsImageUrlAllowed(url: string, allowedUrls: seq<string>): (r: bool)
    ensures r <==> exists i :: 0 <= i < |allowedUrls| && allowedUrls[i] <= url
  {
    AnyOf(allowedUrls, (a: string) => a <= url)
  }

  /** The category's `name` and `image` are strictly equal to those of the allowed entry. */
  predicate SameCategory(category: JsValue, allowed: Category) {
    Prop(category, "name") == JsStr(allowed.name) && Prop(category, "image") == JsStr(allowed.image)
  }

  /**
   * `isCategoryValid`: a truthy object with truthy `name` and `image` that
   * match some allowed entry exactly. The result is true exactly when the
   * value is an object whose own `name` and `image` are the non-empty
   * strings of some allowed entry.
   */
  function IsCategoryValid(category: JsValue, allowedCategories: seq<Category>): (r: bool)
    ensures r <==> (
      && category.JsObject?
      && exists i :: (
        && 0 <= i < |allowedCategories|
        && allowedCategories[i].name != "" && allowedCategories[i].image != ""
        && HasOwn(category, "name") && category.props["name"] == JsStr(allowedCategories[i].name)
        && HasOwn(category, "image") && category.props["image"] == JsStr(allowedCategories[i].image)))
  {
    if !Truthy(category) || TypeOf(category) != "object" then false
    else if !Truthy(Prop(category, "name")) || !Truthy(Prop(category, "image")) then false
    else AnyOf(allowedCategories, (a: Category) => SameCategory(category, a))
  }

  /**
   * `areCategoriesValid`: an array of exactly as many entries as the
   * allow-list, each of them valid. Distinctness is not required.
   */
  function AreCategoriesValid(categories: JsValue, allowedCategories: seq<Category>): (r: bool)
    ensures r <==> (
      && categories.JsArray?
      && |categories.elems| == |allowedCategories|
      && forall i :: 0 <= i < |categories.elems| ==> IsCategoryValid(categories.elems[i], allowedCategories))
  {
    if !Truthy(categories) || !IsArray(categories) then false
    else if |categories.elems| != |allowedCategories| then false
    else Every(categories.elems, (c: JsValue) => IsCategoryValid(c, allowedCategories))
  }

  /**
   * `areBrandsValid`: an array of exactly as many entries as the allow-list,
   * each of them a listed string. Distinctness is not required.
   */
  function AreBrandsValid(brands: JsValue, allowedBrands: seq<string>): (r: bool)
    ensures r <==> (
      && brands.JsArray?
      && |brands.elems| == |allowedBrands|
      && forall i :: 0 <= i < |brands.elems| ==> brands.elems[i].JsStr? && brands.elems[i].s in allowedBrands)
  {
    if !Truthy(brands) || !IsArray(brands) then false
    else if |brands.elems| != |allowedBrands| then false
    else Every(brands.elems, (b: JsValue) => IncludesStr(allowedBrands, b))
  }

  /** `areFeaturesValid`: an array, of any length, of listed strings; `[]` is valid. */
  function AreFeaturesValid(features: JsValue, allowedFeatures: seq<string>): (r: bool)
    ensures r <==> (
      && features.JsArray?
      && forall i :: 0 <= i < |features.elems| ==> features.elems[i].JsStr? && features.elems[i].s in allowedFeatures)
    ensures features == JsArray([]) ==> r
  {
    if !Truthy(features) || !IsArray(features) then false
    else Every(features.elems, (f: JsValue) => IncludesStr(allowedFeatures, f))
  }

  /** The length check does not stop a repeated brand from standing in for a missing one. */
  lemma BrandsMayRepeat()
    ensures AreBrandsValid(StrArray(["Yamaha", "Yamaha"]), ["Yamaha", "Honda"])
  {
    var v := StrArray(["Yamaha", "Yamaha"]);
    assert v.elems[0] == JsStr("Yamaha") && v.elems[1] == JsStr("Yamaha");
  }

  // The exported `_nx_*` aliases: each answers exactly as the validator it wraps.

  function NxAllowed<T(==)>(value: T, allowedValues: seq<T>): (r: bool)
    ensures r <==> exists i :: 0 <= i < |allowedValues| && allowedValues[i] == value
  {
    IsValueAllowed(value, allowedValues)
  }

  function NxCategory(category: JsValue, allowedCategories: seq<Category>): (r: bool)
    ensures r ==> category.JsObject? && HasOwn(category, "name") && HasOwn(category, "image")
    ensures r <==> IsCategoryValid(category, allowedCategories)
  {
    IsCategoryValid(category, allowedCategories)
  }

  function NxCategories(categories: JsValue, allowedCategories: seq<Category>): (r: bool)
    ensures r <==> (
      && categories.JsArray?
      && |categories.elems| == |allowedCategories|
      && forall i :: 0 <= i < |categories.elems| ==> IsCategoryValid(categories.elems[i], allowedCategories))
  {
    AreCategoriesValid(categories, allowedCategories)
  }

  function NxBrands(brands: JsValue, allowedBrands: seq<string>): (r: bool)
    ensures r <==> (
      && brands.JsArray?
      && |brands.elems| == |allowedBrands|
      && forall i :: 0 <= i < |brands.elems| ==> brands.elems[i].JsStr? && brands.elems[i].s in allowedBrands)
  {
    AreBrandsValid(brands, allowedBrands)
  }

  function NxFeatures(features: JsValue, allowedFeatures: seq<string>): (r: bool)
    ensures r <==> (
      && features.JsArray?
      && forall i :: 0 <= i < |features.elems| ==> features.elems[i].JsStr? && features.elems[i].s in allowedFeatures)
  {
    AreFeaturesValid(features, allowedFeatures)
  }

  function NxImage(url: string, allowedUrls: seq<string>): (r: bool)
    ensures r <==> exists i :: 0 <= i < |allowedUrls| && allowedUrls[i] <= url
  {
    IsImageUrlAllowed(url, allowedUrls)
  }

  function NxRequired(obj: map<string, JsValue>, requiredProps: seq<string>): (r: bool)
    ensures r <==> (set p | p in requiredProps) <= obj.Keys
  {
    HasRequiredProperties(obj, requiredProps)
  }

  function NxAllowedProps(obj: map<string, JsValue>, allowedProps: seq<string>): (r: bool)
    ensures r <==> obj.Keys <= (set p | p in allowedProps)
  {
    HasOnlyAllowedProperties(obj, allowedProps)
  }

  function NxAllowedValues<T(==)>(obj: map<string, T>, allowedValues: map<string, seq<T>>): (r: bool)
    ensures obj == map[] ==> r
    ensures (exists k :: k in obj && k !in allowedValues) ==> !r
    ensures r <==> obj.Keys <= allowedValues.Keys && forall k :: k in obj ==> obj[k] in allowedValues[k]
  {
    HasOnlyAllowedValues(obj, allowedValues)
  }
}
