# Nexar footer protection, data cache and validators — a Dafny model

This project models the core of the Nexar motorcycle-marketplace front end:

- **The footer-integrity watchdog** (`src/lib/footerProtection.ts`). It covers:
  - the three-step footer check;
  - the deferred storage writes that `triggerError` schedules;
  - the random feature-degradation pass and the boot-time flag check that runs it;
  - the feature gate and the "modified" query;
  - the reset of all watchdog keys;
  - the base-64 obfuscation helpers;
  - the pure allow-list validators and their `_nx_*` aliases.
- **The fetch-once data layer** (`src/lib/appData.ts`): four cache slots filled by their loaders and cleared by `reloadAllData`, and the find/map/some queries over the loaded rows.
- **The data validators** (`src/lib/dataValidation.ts`) against the three allow-lists (`src/lib/validations.ts`). Each returns its boolean together with the report kinds it passes to `triggerError`.
- **The validation the listing form performs** (`src/components/CreateListingPage.tsx`).

The browser's `localStorage` is the class `FlagStore.BrowserStorage`. Its field `items` is a map from keys to strings. The constant `available` set to false means that every access throws.

The watchdog's methods change that map step by step. The data cache is the class `AppData.DataCache`, with one `Option` field per slot. The validators and queries are functions.

Every random draw is a parameter:

- the error-code draw (below 1000000);
- the `Math.random() > 0.5` coin;
- `Date.now()`;
- the 1–3 index draws of the degradation pass.

Because of this, every contract holds for every possible outcome.

Modules, in dependency order:

- `Wrappers` (Option);
- `JsValues` (the JavaScript values the validators receive: truthiness, `typeof`, own properties, `every`/`some`);
- `Validations` (the allow-lists);
- `Radix` (`Number.prototype.toString(radix)` and its inverse);
- `FlagStore`;
- `FooterProtection`;
- `AllowLists`;
- `AppData`;
- `DataValidation`;
- `ListingForm`.

Three behaviours of the code are easy to misread:

- A degradation pass draws from the full six-feature catalog on every call, so it can pick a feature that is already disabled (`FooterProtection.RepeatedPickDisablesNothingNew`).
- The attribution strings "Dezvoltat de", "NEXT SOFT" and "Next Soft Logo" are hardcoded. No setting decides them.
- A validation report takes the default branch of the deferred switch. It writes `__nx_unknown_error`, not a dedicated validation flag (`DataValidation.ValidationReportsSpareIntegrity`).

## Model

| member | source | states |
|---|---|---|
| FlagStore.BrowserStorage.GetItem | src/lib/footerProtection.ts:83 | `getItem` returns the stored value or null, and throws exactly when storage is unavailable |
| FlagStore.BrowserStorage.SetItem | src/lib/footerProtection.ts:56-58 | `setItem` stores the value under the key and changes nothing else; if storage is unavailable it throws and nothing changes |
| FlagStore.BrowserStorage.RemoveItem | src/lib/footerProtection.ts:236-240 | `removeItem` deletes exactly that key; if storage is unavailable it throws and nothing changes |
| FlagStore.BrowserStorage.Keys | src/lib/footerProtection.ts:243 | `Object.keys(localStorage)` gives every stored key the reset's `__nx_disabled_` prefix filter can keep, or throws |
| FooterProtection.VerifyFooterIntegrity | src/lib/footerProtection.ts:5-37 | the footer passes iff it exists, its text contains "Dezvoltat de" and "NEXT SOFT", and some image src contains "Next Soft Logo"; passing reports nothing; a failure reports exactly one kind, that of the first failing step; an exception reports FOOTER_CHECK_ERROR |
| FooterProtection.NameRemovedIsModified | src/lib/footerProtection.ts:15-21 | a footer that keeps "Dezvoltat de" but drops "NEXT SOFT" fails as FOOTER_MODIFIED, even with the logo present |
| FooterProtection.NxVerify | src/lib/footerProtection.ts:220-226 | `_nx_verify` reports exactly what the footer check reports: at most one kind, that of the first failing step, and none iff the footer is intact |
| FooterProtection.DisabledKeyInjective | src/lib/footerProtection.ts:113 | distinct features have distinct `__nx_disabled_` keys |
| FooterProtection.HexCodeFits | src/lib/footerProtection.ts:42 | every draw below 1000000 is below 16^5 |
| Radix.RadixString | src/lib/footerProtection.ts:42 | `toString(radix)` gives at least one digit, each valid in the radix, with no leading zero |
| Radix.ParseRadixString | src/lib/footerProtection.ts:42 | reading the rendering back in the same radix gives the number |
| Radix.RadixStringLength | src/lib/footerProtection.ts:42 | a number below radix^k renders in at most k digits |
| FooterProtection.TriggerError | src/lib/footerProtection.ts:40-42 | the pending error keeps its kind; its code is `draw.toString(16)`: 1 to 5 lower-case hexadecimal digits, no leading zero ("0" for a zero draw), that parse back to the draw |
| FooterProtection.ErrorEffect | src/lib/footerProtection.ts:48-77 | the deferred effect writes both integrity flags to "true" for the three footer kinds, only `__nx_system_error` (the code) for FOOTER_CHECK_ERROR, and only `__nx_unknown_error` (the code) for any other kind; it writes `__nx_cache_corrupted` (`Date.now()` in decimal) iff the coin exceeds 0.5; every other key keeps its value |
| FooterProtection.ErrorKeysAreNotFeatureFlags | src/lib/footerProtection.ts:50-73 | the deferred effect never writes a `__nx_disabled_` key |
| FooterProtection.ErrorEffectKeepsFeatureFlags | src/lib/footerProtection.ts:50-73 | reporting an error never disables or re-enables a feature |
| FooterProtection.RunPendingError | src/lib/footerProtection.ts:48-77 | the callback's `setItem` sequence leaves storage as the deferred effect describes; unavailable storage is left unchanged |
| FooterProtection.SpliceOut | src/lib/footerProtection.ts:114 | `splice(k, 1)` shortens the pool by one and shifts the elements after k down by one |
| FooterProtection.SpliceOutPermutes | src/lib/footerProtection.ts:114 | the spliced pool plus the removed element is a permutation of the pool |
| FooterProtection.Select | src/lib/footerProtection.ts:108-115 | n index draws pick n features and leave the pool n shorter |
| FooterProtection.SelectPermutes | src/lib/footerProtection.ts:110-115 | picked and remaining features together are a permutation of the catalog |
| FooterProtection.SelectStep | src/lib/footerProtection.ts:110-115 | each iteration picks the drawn element of the current pool and splices it out |
| FooterProtection.MarkDisabledSpec | src/lib/footerProtection.ts:110-113 | writing the flags of the picks sets exactly their keys to "true"; no key is removed and every other key keeps its value |
| FooterProtection.MarkDisabledStep | src/lib/footerProtection.ts:113 | one loop iteration adds one "true" flag |
| FooterProtection.CatalogCountsOnce | src/lib/footerProtection.ts:99-106 | the six-feature catalog has no duplicates |
| FooterProtection.DisabledKeysCount | src/lib/footerProtection.ts:113 | n distinct features give n distinct flag keys |
| FooterProtection.PassDisablesExactlyN | src/lib/footerProtection.ts:96-119 | a pass with n in 1..3 draws picks n distinct catalog features and writes exactly n flag keys; at least three features remain in the pool, so it never runs dry |
| FooterProtection.DegradationIsMonotone | src/lib/footerProtection.ts:99-113 | degradation removes no key, keeps every disabled feature disabled, and disables every pick |
| FooterProtection.RepeatedPickDisablesNothingNew | src/lib/footerProtection.ts:99-113 | because the catalog is rebuilt on each call, a pass can pick an already-disabled feature and leave storage unchanged |
| FooterProtection.DisableRandomFeatures | src/lib/footerProtection.ts:96-119 | the splice loop leaves storage as the degradation pass describes; unavailable storage is left unchanged |
| FooterProtection.CheckAppIntegrity | src/lib/footerProtection.ts:81-87 | storage changes only when `__nx_integrity_failed` is exactly "true", and then by one degradation pass; `getItem` throws iff storage is unavailable |
| FooterProtection.IsFeatureDisabled | src/lib/footerProtection.ts:122-128 | `isFeatureDisabled` is true iff storage is available and the feature's `__nx_disabled_` flag is exactly "true"; a missing flag or a throwing storage reads as enabled |
| FooterProtection.IsAppModified | src/lib/footerProtection.ts:229-231 | `isAppModified` throws iff storage is unavailable; otherwise it is true iff `__nx_integrity_failed` is exactly "true" |
| FooterProtection.FeatureGateFailsOpen | src/lib/footerProtection.ts:122-128 | a feature without a flag, or any feature when storage throws, reads as enabled; `isAppModified` has no catch, so it throws instead |
| FooterProtection.FailedCheckMarksAppModified | src/lib/footerProtection.ts:9-35 | once the deferred effect of a failed footer check has run, the app reads as modified, unless the check threw; a thrown check leaves the integrity flag and all feature flags as they were |
| FooterProtection.NxCheck | src/lib/footerProtection.ts:257-259 | `_nx_check` is true iff storage is available and the feature's flag is exactly "true" |
| FooterProtection.NxModified | src/lib/footerProtection.ts:262-264 | `_nx_modified` throws iff storage is unavailable; otherwise it is true iff `__nx_integrity_failed` is exactly "true" |
| FooterProtection.ResetState | src/lib/footerProtection.ts:234-249 | after a reset, exactly the five named keys and the `__nx_disabled_` keys are gone; every other key keeps its value; no feature flag or integrity flag is "true" |
| FooterProtection.ResetIsIdempotent | src/lib/footerProtection.ts:234-249 | resetting twice is the same as resetting once |
| FooterProtection.ResetClearsGate | src/lib/footerProtection.ts:234-249 | after a reset no feature reads as disabled and the app reads as not modified |
| FooterProtection.ResetAppState | src/lib/footerProtection.ts:234-249 | the five removals by name and the removal loop over prefixed keys leave storage as the reset describes; unavailable storage is left unchanged |
| FooterProtection.NxReset | src/lib/footerProtection.ts:252-254 | `_nx_reset` has the effect of the reset |
| FooterProtection.Reverse | src/lib/footerProtection.ts:132 | `split('').reverse().join('')` keeps the length and mirrors every position |
| FooterProtection.ObfuscateCode | src/lib/footerProtection.ts:131-133 | `obfuscateCode` is the base-64 encoding reversed: same length, and reversing it gives the encoding back |
| FooterProtection.DeobfuscateCode | src/lib/footerProtection.ts:136-138 | `deobfuscateCode` decodes the string whose reversal is its input |
| FooterProtection.ReverseIsInvolution | src/lib/footerProtection.ts:131-138 | reversing twice gives the original string |
| FooterProtection.DeobfuscateInvertsObfuscate | src/lib/footerProtection.ts:131-138 | `deobfuscateCode` undoes `obfuscateCode` whenever `atob` undoes `btoa` |
| JsValues.Every | src/lib/dataValidation.ts:13 | `every` is true iff the predicate holds of every element |
| JsValues.AnyOf | src/lib/footerProtection.ts:165 | `some` is true iff the predicate holds of some element |
| AllowLists.IsValueAllowed | src/lib/footerProtection.ts:141-143 | true iff some allowed entry equals the value |
| AllowLists.HasRequiredProperties | src/lib/footerProtection.ts:146-148 | true iff every required property is an own property |
| AllowLists.HasOnlyAllowedProperties | src/lib/footerProtection.ts:151-153 | true iff every own key is listed |
| AllowLists.HasOnlyAllowedValues | src/lib/footerProtection.ts:156-161 | true for an empty object; false when any key has no allowed list; otherwise true iff every value is in its key's list |
| AllowLists.IsImageUrlAllowed | src/lib/footerProtection.ts:164-166 | true iff some allowed entry is a prefix of the URL |
| AllowLists.IsCategoryValid | src/lib/footerProtection.ts:169-178 | true iff the value is an object whose own `name` and `image` are the non-empty strings of one allowed entry |
| AllowLists.AreCategoriesValid | src/lib/footerProtection.ts:181-186 | true iff the value is an array as long as the allow-list and every element is a valid category |
| AllowLists.AreBrandsValid | src/lib/footerProtection.ts:189-194 | true iff the value is an array as long as the allow-list and every element is a listed string |
| AllowLists.BrandsMayRepeat | src/lib/footerProtection.ts:189-194 | distinctness is not checked: a repeated brand can stand in for a missing one |
| AllowLists.AreFeaturesValid | src/lib/footerProtection.ts:197-201 | true iff the value is an array of listed strings, of any length; `[]` is valid |
| AllowLists.NxAllowed | src/lib/footerProtection.ts:267-269 | `_nx_allowed` answers like `isValueAllowed` |
| AllowLists.NxCategory | src/lib/footerProtection.ts:272-274 | `_nx_category` answers like `isCategoryValid`, and true implies an object with own `name` and `image` |
| AllowLists.NxCategories | src/lib/footerProtection.ts:277-279 | `_nx_categories` answers like `areCategoriesValid` |
| AllowLists.NxBrands | src/lib/footerProtection.ts:282-284 | `_nx_brands` answers like `areBrandsValid` |
| AllowLists.NxFeatures | src/lib/footerProtection.ts:287-289 | `_nx_features` answers like `areFeaturesValid` |
| AllowLists.NxImage | src/lib/footerProtection.ts:292-294 | `_nx_image` answers like `isImageUrlAllowed` |
| AllowLists.NxRequired | src/lib/footerProtection.ts:297-299 | `_nx_required` answers like `hasRequiredProperties` |
| AllowLists.NxAllowedProps | src/lib/footerProtection.ts:302-304 | `_nx_allowed_props` answers like `hasOnlyAllowedProperties` |
| AllowLists.NxAllowedValues | src/lib/footerProtection.ts:307-309 | `_nx_allowed_values` answers like `hasOnlyAllowedValues` |
| AppData.Load | src/lib/appData.ts:47-68 | a filled slot (even `[]`) is returned without a query; otherwise the loader queries, and a success caches and returns the rows, or `[]` when the data is null; an error or exception returns `[]` and leaves the slot empty |
| AppData.LoadIsFetchOnce | src/lib/appData.ts:47-50 | after a load that filled the slot, every later load returns the same rows without querying, whatever the backend would answer |
| AppData.EmptyResultIsCached | src/lib/appData.ts:62-63 | a null or empty result is cached as `[]`, and `[]` then counts as a hit |
| AppData.FailedLoadRetries | src/lib/appData.ts:57-67 | after a failed query the slot stays empty and the next call queries again |
| AppData.DataCache.constructor | src/lib/appData.ts:41-44 | all four slots start as null |
| AppData.DataCache.LoadAppSettings | src/lib/appData.ts:47-68 | returns and caches what one load of the settings slot gives; the other slots are untouched |
| AppData.DataCache.LoadMotorcycleBrands | src/lib/appData.ts:78-101 | the same fetch-once load for the brands slot |
| AppData.DataCache.LoadMotorcycleFeatures | src/lib/appData.ts:104-127 | the same fetch-once load for the features slot |
| AppData.DataCache.LoadMotorcycleCategories | src/lib/appData.ts:130-153 | the same fetch-once load for the categories slot |
| AppData.DataCache.ReloadAllData | src/lib/appData.ts:212-217 | all four slots become null, so the next call of each loader queries |
| AppData.DataCache.GetAppSetting | src/lib/appData.ts:71-75 | loads the settings, then answers with the first matching row's value |
| AppData.DataCache.GetFooterSettings | src/lib/appData.ts:201-209 | loads the settings, then answers with the footer fields and their fallbacks |
| AppData.DataCache.GetMotorcycleBrandNames | src/lib/appData.ts:156-159 | loads the brands, then maps them to their names |
| AppData.DataCache.GetMotorcycleFeatureNames | src/lib/appData.ts:162-165 | loads the features, then maps them to their names |
| AppData.DataCache.GetMotorcycleCategories | src/lib/appData.ts:168-174 | loads the categories, then maps them to `{ name, image }` |
| AppData.DataCache.IsValidBrand | src/lib/appData.ts:177-180 | loads the brands, then tests whether some row has the name |
| AppData.DataCache.IsValidFeature | src/lib/appData.ts:183-186 | loads the features, then tests whether some row has the name |
| AppData.DataCache.IsValidCategory | src/lib/appData.ts:189-192 | loads the categories, then tests whether some row has the name |
| AppData.DataCache.AreValidFeatures | src/lib/appData.ts:195-198 | loads the feature names, then tests that every requested feature is among them |
| AppData.FindSetting | src/lib/appData.ts:73 | `find` gives null iff no row has the key; otherwise it gives the row at the first index with the key |
| AppData.SettingValue | src/lib/appData.ts:71-75 | `getAppSetting` gives null iff no row has the key; otherwise it gives the value of the first row with the key, even an empty value |
| AppData.FooterSettingsFrom | src/lib/appData.ts:201-209 | each footer field is the first matching row's value; it falls back to 'Termeni', 'NEXT SOFT' or the default logo URL when there is no match or the value is empty; no field is ever empty |
| AppData.EmptyFooterValueFallsBack | src/lib/appData.ts:205 | where `getAppSetting` returns an empty text, the footer shows the default 'Termeni' |
| AppData.BrandNames | src/lib/appData.ts:158 | the brand names keep the length and order of the rows |
| AppData.FeatureNames | src/lib/appData.ts:164 | the feature names keep the length and order of the rows |
| AppData.CategoryViews | src/lib/appData.ts:170-173 | the categories keep the length and order of the rows, with `image_url` becoming `image` |
| AppData.HasBrandNamed | src/lib/appData.ts:179 | true iff the brand is among the loaded brand names |
| AppData.HasFeatureNamed | src/lib/appData.ts:185 | true iff the feature is among the loaded feature names |
| AppData.HasCategoryNamed | src/lib/appData.ts:191 | true iff some mapped category carries the name |
| AppData.AllFeaturesKnown | src/lib/appData.ts:195-198 | `[]` is valid; otherwise true iff every requested feature passes `isValidFeature` |
| Validations.AllowedFeaturesDistinct | src/lib/validations.ts:5-30 | 24 pairwise-distinct features |
| Validations.AllowedBrandsDistinct | src/lib/validations.ts:33-56 | 22 pairwise-distinct brands |
| Validations.AllowedCategoriesWellFormed | src/lib/validations.ts:59-92 | 8 categories with distinct names, each name and image non-empty |
| DataValidation.ValidateFeatures | src/lib/dataValidation.ts:6-21 | a non-array fails without a report; otherwise the result is true iff every element is an allowed feature, and INVALID_FEATURES is reported iff it is false; `[]` passes |
| DataValidation.ValidateBrand | src/lib/dataValidation.ts:24-39 | true iff the brand is an allowed name; an empty or non-string brand fails without a report; a non-empty unlisted string reports INVALID_BRAND |
| DataValidation.ValidateCategory | src/lib/dataValidation.ts:42-66 | true iff the object's `name` and `image` are exactly one allowed pair; a missing or empty name or image fails without a report; a full, unlisted pair reports INVALID_CATEGORY |
| DataValidation.EveryChecked | src/lib/dataValidation.ts:76 | `every` over a check that reports only when it refuses stops at the first refused element, so only that element's reports are made; the result is true iff every element passes |
| DataValidation.ValidateCategories | src/lib/dataValidation.ts:69-84 | a non-array fails without a report; an array passes iff each element does; a failing array stops at its first refused element and reports exactly that element's reports (at most one INVALID_CATEGORY) followed by INVALID_CATEGORIES; `[]` passes |
| DataValidation.ValidateListing | src/lib/dataValidation.ts:87-114 | true iff the nine required properties are own and truthy, the brand is allowed, and truthy features are all allowed; a non-object reports nothing; missing properties report INVALID_LISTING_PROPS; otherwise a refused brand gives exactly `validateBrand`'s answer and reports, and then truthy features give exactly `validateFeatures`'s |
| DataValidation.ZeroPriceIsMissingProperty | src/lib/dataValidation.ts:94-101 | a price of 0 fails the required-property step with INVALID_LISTING_PROPS |
| DataValidation.ZeroMileageIsMissingProperty | src/lib/dataValidation.ts:94-101 | a mileage of 0 fails the required-property step with INVALID_LISTING_PROPS |
| DataValidation.ValidateRequired | src/lib/dataValidation.ts:124-131 | true iff the value is an object with every listed property own and truthy; an object or array that fails reports the kind; anything else fails silently |
| DataValidation.ValidateProfile | src/lib/dataValidation.ts:117-134 | true iff `name` and `email` are own and truthy; INVALID_PROFILE_PROPS is reported iff an object or array fails |
| DataValidation.ValidateUser | src/lib/dataValidation.ts:137-154 | true iff `id` and `email` are own and truthy; INVALID_USER_PROPS is reported iff an object or array fails |
| DataValidation.FeaturesAgreeWithAllowList | src/lib/dataValidation.ts:6-21 | `validateFeatures` accepts exactly what `areFeaturesValid` accepts with ALLOWED_FEATURES |
| DataValidation.CategoryAgreesWithAllowList | src/lib/dataValidation.ts:42-66 | `validateCategory` accepts exactly what `isCategoryValid` accepts with ALLOWED_CATEGORIES |
| DataValidation.CategoriesAgreeWithAllowList | src/lib/dataValidation.ts:69-84 | `areCategoriesValid` with ALLOWED_CATEGORIES is `validateCategories` plus the length check |
| DataValidation.CategoriesArray | src/lib/validations.ts:59-92 | the allow-list as an array of `{ name, image }` objects, element by element |
| DataValidation.AllowedCategoriesPass | src/lib/validations.ts:59-92 | every allowed category passes `validateCategory`, and the whole list passes `validateCategories` without a report |
| DataValidation.ValidationReportsSpareIntegrity | src/lib/footerProtection.ts:64-66 | through `triggerError`, validation reports write only `__nx_unknown_error` and possibly `__nx_cache_corrupted`; `__nx_integrity_failed` and every feature flag keep their values |
| DataValidation.ValidatorsReportValidationKinds | src/lib/dataValidation.ts:6-154 | every kind a validator reports is one of the seven validation kinds |
| ListingForm.OfferedBrandsPass | src/components/CreateListingPage.tsx:34 | every brand the form offers passes `validateBrand` without a report |
| ListingForm.Without | src/components/CreateListingPage.tsx:39 | `filter(f => f !== x)` drops every copy of x and keeps every other element |
| ListingForm.ToggleFeature | src/components/CreateListingPage.tsx:36-47 | a toggle flips the clicked feature's membership and keeps the others; its validation passes iff the new selection is within the allow-list, and reports INVALID_FEATURES exactly when it fails |
| ListingForm.ClickedSelectionValidates | src/components/CreateListingPage.tsx:36-47 | clicking only offered checkboxes keeps the selection within the allow-list, and the selection passes `validateFeatures` without a report |
| ListingForm.ToggleTwiceRestoresSelection | src/components/CreateListingPage.tsx:36-47 | clicking a checkbox twice restores the selected set |
| ListingForm.SubmitCheck | src/components/CreateListingPage.tsx:52-64 | submission is refused for the brand iff the brand is not allowed, and for the features iff the brand is allowed but a selected feature is not; an empty brand is refused silently, any other refused brand reports INVALID_BRAND, and refused features report INVALID_FEATURES |
| ListingForm.AllowedChoicesProceed | src/components/CreateListingPage.tsx:52-64 | an allowed brand with allowed features gets through without a report |
| ListingForm.FormChoicesProceed | src/components/CreateListingPage.tsx:52-64 | a listed brand with features chosen through the checkboxes always gets through |

## Left out

- Timers and scheduling are not modelled. This covers the `setTimeout` delays, the `setInterval` loops in `checkAppIntegrity` and `initIntegrityCheck`, and the `DOMContentLoaded` listener. It also covers `initIntegrityCheck` itself, including its double start from the module body and from `src/main.tsx`. A deferred callback is modelled as an operation applied later. When several reports are pending, the model applies their effects in report order.
- The distributions of `Math.random` are not modelled. Each draw is a parameter.
- `Date.now()` is a parameter.
- `console.error` output is not modelled.
- The DOM is abstracted away. `document.querySelector('footer')` becomes an optional footer holding its text and the `src` of each image inside it. A null `textContent` is the empty string.
- CSS selector semantics are abstracted: `[src*=...]` is substring containment on each image's src.
- `FlagStore.BrowserStorage.Keys`: returns every stored key. `Object.keys(localStorage)` leaves out a stored key that a member of `Storage.prototype` or `Object.prototype` shadows, such as "length", "getItem" or "toString". None of those starts with `__nx_disabled_`, so the reset is unaffected.
- `FlagStore.BrowserStorage.SetItem`: fails only when the whole storage is unavailable. A single write that fails while others succeed, such as a quota error, is not modelled.
- `btoa` and `atob` are function parameters. Base-64 itself is not modelled, so the round trip of the obfuscation helpers assumes that `atob` undoes `btoa`.
- The backend queries (the Supabase client) are not modelled. Their outcome is a parameter, and the server-side `is_active` filtering and ordering by name are taken as already applied.
- Concurrent loads are not modelled. Two awaits that both see an empty slot both fetch.
- A query that throws is the fetch outcome `Threw`. The loader catches it and returns `[]`, as for an error result. Which network failures throw is not modelled.
- `JsValues.JsValue` leaves out functions, symbols, NaN, prototype chains and array index properties. A property read sees only own properties, and `hasOwnProperty` only named properties.
- `AllowLists.HasRequiredProperties`: takes the argument's own properties. A null or undefined argument, on which the original throws, cannot be expressed.
- `AllowLists.HasOnlyAllowedProperties`: takes the argument's own properties. A null or undefined argument, on which the original throws, cannot be expressed.
- `AllowLists.HasOnlyAllowedValues`: takes plain maps. Inherited entries of the allowed-values object are not seen. Its `includes` is Dafny's value equality, while JavaScript compares objects by reference.
- `AllowLists.IsValueAllowed`: equality is Dafny's value equality. JavaScript's `includes` compares objects by reference.
- `FooterProtection.Reverse`: reverses a sequence of characters. `split('')` splits into UTF-16 code units, so the two differ on characters outside the Basic Multilingual Plane, whose surrogate pairs JavaScript reverses separately.
- The listing form is modelled only for its validation: the brand list, the feature toggle and the two checks on submission. Its React state updates, error messages and loading flag are not modelled.
