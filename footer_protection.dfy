/**
 * The footer-integrity watchdog of src/lib/footerProtection.ts: the
 * verification ladder, the deferred effect of `triggerError`, the random
 * feature-degradation pass, the boot-time re-degradation, the read-only
 * feature gate, the reset, and the obfuscation helpers.
 *
 * Every random draw of the original (`Math.random`, `Date.now`) is a
 * parameter here, so each contract speaks about every possible outcome.
 * Timers are left out: a deferred callback is a method run "later".
 */
module FooterProtection {
  import opened Wrappers
  import opened Radix
  import opened FlagStore
  import Validations

  // ---------------------------------------------------------------------------
  // Storage keys, error kinds and the hardcoded attribution

  const INTEGRITY_FAILED: string := "__nx_integrity_failed"
  const FEATURES_DISABLED: string := "__nx_features_disabled"
  const SYSTEM_ERROR: string := "__nx_system_error"
  const UNKNOWN_ERROR: string := "__nx_unknown_error"
  const CACHE_CORRUPTED: string := "__nx_cache_corrupted"
  const DISABLED_PREFIX: string := "__nx_disabled_"

  const FOOTER_MISSING: string := "FOOTER_MISSING"
  const FOOTER_MODIFIED: string := "FOOTER_MODIFIED"
  const LOGO_MISSING: string := "LOGO_MISSING"
  const FOOTER_CHECK_ERROR: string := "FOOTER_CHECK_ERROR"

  const REQUIRED_TEXT: string := "Dezvoltat de"
  const REQUIRED_NAME: string := "NEXT SOFT"
  const LOGO_FRAGMENT: string := "Next Soft Logo"

  /** The features a degradation pass may disable, in the order of the local `features` array. */
  const FEATURE_CATALOG: seq<string> := ["add-listing", "edit-profile", "search", "filter", "contact", "login"]

  /** `Math.floor(Math.random() * 1000000)` is below this bound. */
  const ERROR_CODE_BOUND: nat := 1000000

  /** The key under which a disabled feature is flagged. */
  function DisabledKey(feature: string): string {
    DISABLED_PREFIX + feature
  }

  /** `text.includes(part)`. */
  predicate Contains(text: string, part: string) {
    exists i :: 0 <= i <= |text| && part <= text[i..]
  }

  /** The stored value under key is exactly "true". */
  predicate FlagIsTrue(items: map<string, string>, key: string) {
    key in items && items[key] == "true"
  }

  lemma DisabledKeyInjective(f: string, g: string)
    ensures DisabledKey(f) == DisabledKey(g) ==> f == g
  {
    assert f == DisabledKey(f)[|DISABLED_PREFIX|..];
    assert g == DisabledKey(g)[|DISABLED_PREFIX|..];
  }

  // ---------------------------------------------------------------------------
  // verifyFooterIntegrity

  /** The first `footer` element of the page: its text content and the `src` of each `img` inside it. */
  datatype Footer = Footer(textContent: string, imageSrcs: seq<string>)

  /** What inspecting the page gives: the first footer, if any, or an exception. */
  datatype Inspection = Inspected(footer: Option<Footer>) | InspectionThrew

  /** The boolean result and the error kinds passed to `triggerError`, in order. */
  datatype Verdict = Verdict(intact: bool, reports: seq<string>)

  predicate HasAttribution(text: string) {
    Contains(text, REQUIRED_TEXT) && Contains(text, REQUIRED_NAME)
  }

  /** Some image matches the selector `img[src*="Next Soft Logo"]`. */
  predicate HasLogo(srcs: seq<string>) {
    exists i :: 0 <= i < |srcs| && Contains(srcs[i], LOGO_FRAGMENT)
  }

  /** The page passes all three checks. */
  predicate FooterIntact(page: Inspection) {
    && page.Inspected?
    && page.footer.Some?
    && HasAttribution(page.footer.value.textContent)
    && HasLogo(page.footer.value.imageSrcs)
  }

  /**
   * The return-early ladder: footer present, then attribution text, then logo.
   * Exactly one kind is reported on failure, the one of the first failing step.
   */
  function VerifyFooterIntegrity(page: Inspection): (v: Verdict)
    ensures v.intact <==> FooterIntact(page)
    ensures v.intact <==> v.reports == []
    ensures |v.reports| <= 1
    ensures v.reports == [FOOTER_CHECK_ERROR] <==> page.InspectionThrew?
    ensures v.reports == [FOOTER_MISSING] <==> page == Inspected(None)
    ensures v.reports == [FOOTER_MODIFIED] <==>
              page.Inspected? && page.footer.Some? && !HasAttribution(page.footer.value.textContent)
    ensures v.reports == [LOGO_MISSING] <==>
              page.Inspected? && page.footer.Some? && HasAttribution(page.footer.value.textContent)
              && !HasLogo(page.footer.value.imageSrcs)
  {
    match page
    case InspectionThrew => Verdict(false, [FOOTER_CHECK_ERROR])
    case Inspected(None) => Verdict(false, [FOOTER_MISSING])
    case Inspected(Some(footer)) =>
      if !Contains(footer.textContent, REQUIRED_TEXT) || !Contains(footer.textContent, REQUIRED_NAME) then
        Verdict(false, [FOOTER_MODIFIED])
      else if !HasLogo(footer.imageSrcs) then
        Verdict(false, [LOGO_MISSING])
      else
        Verdict(true, [])
  }

  /** A footer that keeps "Dezvoltat de" but loses "NEXT SOFT" is reported as modified, even with its logo in place. */
  lemma NameRemovedIsModified(text: string, srcs: seq<string>)
    requires Contains(text, REQUIRED_TEXT) && !Contains(text, REQUIRED_NAME) && HasLogo(srcs)
    ensures VerifyFooterIntegrity(Inspected(Some(Footer(text, srcs)))) == Verdict(false, [FOOTER_MODIFIED])
  {
  }

  // ---------------------------------------------------------------------------
  // triggerError: the synchronous part and the deferred effect

  /** The callback `triggerError` schedules: the kind and the random error code it closes over. */
  datatype PendingError = PendingError(errorType: string, errorCode: string)

  lemma HexCodeFits(draw: nat)
    requires draw < ERROR_CODE_BOUND
    ensures draw < Pow(16, 5)
  {
    assert Pow(16, 2) == 256;
    assert Pow(16, 4) == 65536;
  }

  /**
   * `triggerError(errorType)` up to the timer: the code is the hexadecimal
   * rendering of the draw, so it has one to five lower-case hex digits,
   * no leading zero, and parses back to the draw.
   */
  function TriggerError(errorType: string, draw: nat): (p: PendingError)
    requires draw < ERROR_CODE_BOUND
    ensures p.errorType == errorType
    ensures 1 <= |p.errorCode| <= 5
    ensures forall i :: 0 <= i < |p.errorCode| ==> IsDigit(p.errorCode[i], 16)
    ensures ParseRadix(p.errorCode, 16) == draw
    ensures draw > 0 ==> p.errorCode[0] != '0'
    ensures draw == 0 ==> p.errorCode == "0"
  {
    HexCodeFits(draw);
    RadixStringLength(draw, 16, 5);
    ParseRadixString(draw, 16);
    PendingError(errorType, RadixString(draw, 16))
  }

  predicate IsFooterKind(errorType: string) {
    errorType == FOOTER_MISSING || errorType == FOOTER_MODIFIED || errorType == LOGO_MISSING
  }

  /** The keys the deferred effect writes, given the kind and the coin (`Math.random()`). */
  function ErrorKeys(errorType: string, coin: real): set<string> {
    (if IsFooterKind(errorType) then {INTEGRITY_FAILED, FEATURES_DISABLED}
     else if errorType == FOOTER_CHECK_ERROR then {SYSTEM_ERROR}
     else {UNKNOWN_ERROR})
    + (if coin > 0.5 then {CACHE_CORRUPTED} else {})
  }

  /**
   * The storage after the deferred callback of `triggerError` ran on an
   * available storage; `now` is `Date.now()`.
   */
  function ErrorEffect(items: map<string, string>, p: PendingError, coin: real, now: nat): (r: map<string, string>)
    ensures r.Keys == items.Keys + ErrorKeys(p.errorType, coin)
    ensures forall k :: k in items && k !in ErrorKeys(p.errorType, coin) ==> r[k] == items[k]
    ensures IsFooterKind(p.errorType) ==> r[INTEGRITY_FAILED] == "true" && r[FEATURES_DISABLED] == "true"
    ensures p.errorType == FOOTER_CHECK_ERROR ==> r[SYSTEM_ERROR] == p.errorCode
    ensures !IsFooterKind(p.errorType) && p.errorType != FOOTER_CHECK_ERROR ==> r[UNKNOWN_ERROR] == p.errorCode
    ensures coin > 0.5 ==> r[CACHE_CORRUPTED] == RadixString(now, 10)
  {
    var afterSwitch :=
      if IsFooterKind(p.errorType) then items[INTEGRITY_FAILED := "true"][FEATURES_DISABLED := "true"]
      else if p.errorType == FOOTER_CHECK_ERROR then items[SYSTEM_ERROR := p.errorCode]
      else items[UNKNOWN_ERROR := p.errorCode];
    if coin > 0.5 then afterSwitch[CACHE_CORRUPTED := RadixString(now, 10)] else afterSwitch
  }

  /** None of the keys the deferred effect writes is a feature flag. */
  lemma ErrorKeysAreNotFeatureFlags(errorType: string, coin: real, feature: string)
    ensures DisabledKey(feature) !in ErrorKeys(errorType, coin)
  {
    var k := DisabledKey(feature);
    assert k[..|DISABLED_PREFIX|] == DISABLED_PREFIX;
    assert k[5] == 'd';
    assert INTEGRITY_FAILED[5] == 'i' && FEATURES_DISABLED[5] == 'f' && SYSTEM_ERROR[5] == 's';
    assert UNKNOWN_ERROR[5] == 'u' && CACHE_CORRUPTED[5] == 'c';
  }

  /** Reporting an error never disables or re-enables a feature. */
  lemma ErrorEffectKeepsFeatureFlags(items: map<string, string>, p: PendingError, coin: real, now: nat, feature: string)
    ensures FlagIsTrue(ErrorEffect(items, p, coin, now), DisabledKey(feature)) == FlagIsTrue(items, DisabledKey(feature))
  {
    ErrorKeysAreNotFeatureFlags(p.errorType, coin, feature);
  }

  /** The callback scheduled by `triggerError`: the switch on the kind, then the coin; a throw ends it silently. */
  method RunPendingError(storage: BrowserStorage, p: PendingError, coin: real, now: nat)
    modifies storage`items
    ensures storage.items == if storage.available then ErrorEffect(old(storage.items), p, coin, now) else old(storage.items)
  {
    var threw: bool;
    if p.errorType == FOOTER_MISSING || p.errorType == FOOTER_MODIFIED || p.errorType == LOGO_MISSING {
      threw := storage.SetItem(INTEGRITY_FAILED, "true");
      if threw { return; }
      threw := storage.SetItem(FEATURES_DISABLED, "true");
    } else if p.errorType == FOOTER_CHECK_ERROR {
      threw := storage.SetItem(SYSTEM_ERROR, p.errorCode);
    } else {
      threw := storage.SetItem(UNKNOWN_ERROR, p.errorCode);
    }
    if threw { return; }
    if coin > 0.5 {
      threw := storage.SetItem(CACHE_CORRUPTED, RadixString(now, 10));
    }
  }

  // ---------------------------------------------------------------------------
  // disableRandomFeatures

  /** Each index draw is below the length of the pool at that iteration. */
  predicate IndicesFit(poolSize: nat, indices: seq<nat>) {
    forall i :: 0 <= i < |indices| ==> indices[i] + i < poolSize
  }

  /** The features picked so far, and what is left of the local pool. */
  datatype Selection = Selection(picked: seq<string>, pool: seq<string>)

  /** `features.splice(k, 1)`: the pool without its k-th element. */
  function SpliceOut(s: seq<string>, k: nat): (r: seq<string>)
    requires k < |s|
    ensures |r| == |s| - 1
    ensures forall i :: 0 <= i < |r| ==> r[i] == if i < k then s[i] else s[i + 1]
  {
    s[..k] + s[k + 1..]
  }

  lemma SpliceOutPermutes(s: seq<string>, k: nat)
    requires k < |s|
    ensures multiset(SpliceOut(s, k)) + multiset{s[k]} == multiset(s)
  {
    assert s == s[..k] + [s[k]] + s[k + 1..];
  }

  /**
   * The picks of a pass with the given index draws: each iteration takes the
   * drawn element of the current pool and splices it out. What was picked and
   * what is left together are a permutation of the starting pool.
   */
  function Select(pool: seq<string>, indices: seq<nat>): (sel: Selection)
    requires IndicesFit(|pool|, indices)
    ensures |sel.picked| == |indices| && |sel.pool| == |pool| - |indices|
    decreases |indices|
  {
    if indices == [] then Selection([], pool)
    else
      var prev := Select(pool, indices[..|indices| - 1]);
      var k := indices[|indices| - 1];
      Selection(prev.picked + [prev.pool[k]], SpliceOut(prev.pool, k))
  }

  /** What a pass picked and what it left are together a permutation of the starting pool. */
  lemma {:induction false} SelectPermutes(pool: seq<string>, indices: seq<nat>)
    requires IndicesFit(|pool|, indices)
    ensures var sel := Select(pool, indices);
      multiset(sel.picked) + multiset(sel.pool) == multiset(pool)
    decreases |indices|
  {
    if indices != [] {
      var prev := Select(pool, indices[..|indices| - 1]);
      var k := indices[|indices| - 1];
      SelectPermutes(pool, indices[..|indices| - 1]);
      SpliceOutPermutes(prev.pool, k);
    }
  }

  lemma IndicesFitPrefix(poolSize: nat, indices: seq<nat>, i: nat)
    requires IndicesFit(poolSize, indices) && i <= |indices|
    ensures IndicesFit(poolSize, indices[..i])
  {
  }

  /** One more draw extends the selection by the drawn element of the current pool. */
  lemma SelectStep(pool: seq<string>, indices: seq<nat>, i: nat)
    requires IndicesFit(|pool|, indices) && i < |indices|
    ensures IndicesFit(|pool|, indices[..i]) && IndicesFit(|pool|, indices[..i + 1])
    ensures var prev := Select(pool, indices[..i]);
      indices[i] < |prev.pool| &&
      Select(pool, indices[..i + 1]) == Selection(prev.picked + [prev.pool[indices[i]]], SpliceOut(prev.pool, indices[i]))
  {
    IndicesFitPrefix(|pool|, indices, i);
    IndicesFitPrefix(|pool|, indices, i + 1);
    assert indices[..i + 1][..i] == indices[..i];
  }

  /** The feature-flag keys of the given features. */
  function DisabledKeys(features: seq<string>): set<string> {
    set f | f in features :: DisabledKey(f)
  }

  /** The storage after setting the flag of each feature to "true", in order. */
  function MarkDisabled(items: map<string, string>, features: seq<string>): map<string, string>
    decreases |features|
  {
    if features == [] then items
    else MarkDisabled(items, features[..|features| - 1])[DisabledKey(features[|features| - 1]) := "true"]
  }

  /**
   * Marking features disabled sets exactly their flag keys to "true": no key
   * is removed and every other key keeps its value.
   */
  lemma {:induction false} MarkDisabledSpec(items: map<string, string>, features: seq<string>)
    ensures var r := MarkDisabled(items, features);
      && r.Keys == items.Keys + DisabledKeys(features)
      && (forall k :: k in DisabledKeys(features) ==> r[k] == "true")
      && (forall k :: k in items && k !in DisabledKeys(features) ==> r[k] == items[k])
    decreases |features|
  {
    if features != [] {
      var init := features[..|features| - 1];
      var last := features[|features| - 1];
      assert features == init + [last];
      assert DisabledKeys(features) == DisabledKeys(init) + {DisabledKey(last)};
      MarkDisabledSpec(items, init);
    }
  }

  lemma MarkDisabledStep(items: map<string, string>, features: seq<string>, f: string)
    ensures MarkDisabled(items, features + [f]) == MarkDisabled(items, features)[DisabledKey(f) := "true"]
  {
    assert (features + [f])[..|features|] == features;
  }

  /** The storage after a complete degradation pass with the given index draws. */
  function Degraded(items: map<string, string>, indices: seq<nat>): map<string, string>
    requires IndicesFit(|FEATURE_CATALOG|, indices)
  {
    MarkDisabled(items, Select(FEATURE_CATALOG, indices).picked)
  }

  /** A sequence whose multiset counts nothing twice has no duplicates. */
  lemma NoDuplicatesFromMultiset(s: seq<string>)
    requires forall x :: multiset(s)[x] <= 1
    ensures Validations.NoDuplicates(s)
  {
    forall i, j | 0 <= i < j < |s|
      ensures s[i] != s[j]
    {
      assert s == s[..i] + [s[i]] + s[i + 1..j] + [s[j]] + s[j + 1..];
      assert multiset(s)[s[i]] >= multiset{s[i], s[j]}[s[i]];
    }
  }

  lemma CatalogCountsOnce(x: string)
    ensures multiset(FEATURE_CATALOG)[x] <= 1
  {
  }

  /** Distinct features have distinct flag keys, so n distinct features give n keys. */
  lemma {:induction false} DisabledKeysCount(features: seq<string>)
    requires Validations.NoDuplicates(features)
    ensures |DisabledKeys(features)| == |features|
    decreases |features|
  {
    if features != [] {
      var init := features[..|features| - 1];
      var last := features[|features| - 1];
      assert features == init + [last];
      assert DisabledKeys(features) == DisabledKeys(init) + {DisabledKey(last)};
      forall f | f in init
        ensures DisabledKey(f) != DisabledKey(last)
      {
        var i :| 0 <= i < |init| && init[i] == f;
        assert features[i] != features[|features| - 1];
        DisabledKeyInjective(f, last);
      }
      assert Validations.NoDuplicates(init);
      DisabledKeysCount(init);
    }
  }

  /**
   * A pass with n index draws (n in 1..3, each within the current pool) picks
   * n distinct catalog features and writes exactly their n flag keys; the pool
   * still holds 6 - n >= 3 features afterwards, so it never runs dry.
   */
  lemma {:induction false} PassDisablesExactlyN(indices: seq<nat>)
    requires 1 <= |indices| <= 3 && IndicesFit(|FEATURE_CATALOG|, indices)
    ensures var sel := Select(FEATURE_CATALOG, indices);
      && |sel.picked| == |indices|
      && Validations.NoDuplicates(sel.picked)
      && (forall f :: f in sel.picked ==> f in FEATURE_CATALOG)
      && |DisabledKeys(sel.picked)| == |indices|
      && |sel.pool| >= 3
  {
    var sel := Select(FEATURE_CATALOG, indices);
    SelectPermutes(FEATURE_CATALOG, indices);
    forall x
      ensures multiset(sel.picked)[x] <= 1
    {
      CatalogCountsOnce(x);
    }
    NoDuplicatesFromMultiset(sel.picked);
    forall f | f in sel.picked
      ensures f in FEATURE_CATALOG
    {
      assert multiset(sel.picked)[f] > 0;
    }
    DisabledKeysCount(sel.picked);
  }

  /**
   * Degradation only ever adds "true" flags: every feature disabled before
   * stays disabled, no key disappears, and the picked features are disabled.
   */
  lemma DegradationIsMonotone(items: map<string, string>, indices: seq<nat>, feature: string)
    requires IndicesFit(|FEATURE_CATALOG|, indices)
    ensures items.Keys <= Degraded(items, indices).Keys
    ensures FlagIsTrue(items, DisabledKey(feature)) ==> FlagIsTrue(Degraded(items, indices), DisabledKey(feature))
    ensures feature in Select(FEATURE_CATALOG, indices).picked ==> FlagIsTrue(Degraded(items, indices), DisabledKey(feature))
  {
    MarkDisabledSpec(items, Select(FEATURE_CATALOG, indices).picked);
  }

  /**
   * The catalog is rebuilt on every call, so a pass may pick a feature that is
   * already disabled and disable nothing new: here one draw of index 2 picks
   * "search", which was disabled before.
   */
  lemma RepeatedPickDisablesNothingNew()
    ensures var items := map[DisabledKey("search") := "true"];
      Degraded(items, [2]) == items
  {
    var items := map[DisabledKey("search") := "true"];
    assert [2][..0] == [];
    assert Select(FEATURE_CATALOG, [2]).picked == ["search"];
    assert DisabledKeys(["search"]) == {DisabledKey("search")};
    MarkDisabledSpec(items, ["search"]);
  }

  /** `disableRandomFeatures`: the loop over the spliced local pool; a throw ends it silently. */
  method DisableRandomFeatures(storage: BrowserStorage, indices: seq<nat>)
    requires 1 <= |indices| <= 3 && IndicesFit(|FEATURE_CATALOG|, indices)
    modifies storage`items
    ensures storage.items == if storage.available then Degraded(old(storage.items), indices) else old(storage.items)
  {
    var features := FEATURE_CATALOG;
    ghost var catalog := features;
    ghost var picked: seq<string> := [];
    var numFeatures := |indices|;
    var i := 0;
    assert indices[..0] == [];
    while i < numFeatures
      invariant 0 <= i <= numFeatures
      invariant !storage.available ==> i == 0
      invariant IndicesFit(|catalog|, indices[..i])
      invariant Select(catalog, indices[..i]) == Selection(picked, features)
      invariant storage.items == MarkDisabled(old(storage.items), picked)
    {
      SelectStep(catalog, indices, i);
      var featureIndex := indices[i];
      var feature := features[featureIndex];
      var threw := storage.SetItem(DisabledKey(feature), "true");
      if threw {
        return;
      }
      MarkDisabledStep(old(storage.items), picked, feature);
      features := SpliceOut(features, featureIndex);
      picked := picked + [feature];
      i := i + 1;
    }
    assert indices[..i] == indices;
  }

  // ---------------------------------------------------------------------------
  // checkAppIntegrity, isFeatureDisabled, isAppModified

  /**
   * The flag check of `checkAppIntegrity`: a degradation pass runs exactly
   * when `__nx_integrity_failed` is "true". `threw` is the uncaught exception
   * of `getItem` on an unavailable storage.
   */
  method CheckAppIntegrity(storage: BrowserStorage, indices: seq<nat>) returns (threw: bool)
    requires 1 <= |indices| <= 3 && IndicesFit(|FEATURE_CATALOG|, indices)
    modifies storage`items
    ensures threw == !storage.available
    ensures storage.items ==
      if !threw && FlagIsTrue(old(storage.items), INTEGRITY_FAILED) then Degraded(old(storage.items), indices)
      else old(storage.items)
  {
    var integrityFailed;
    integrityFailed, threw := storage.GetItem(INTEGRITY_FAILED);
    if threw {
      return;
    }
    if integrityFailed == Some("true") {
      DisableRandomFeatures(storage, indices);
    }
  }

  /** `isFeatureDisabled(feature)`: an unavailable storage reads as "not disabled". */
  function IsFeatureDisabled(items: map<string, string>, available: bool, feature: string): (r: bool)
    ensures r <==> available && DisabledKey(feature) in items && items[DisabledKey(feature)] == "true"
  {
    available && FlagIsTrue(items, DisabledKey(feature))
  }

  /** `isAppModified()`: None is the exception an unavailable storage throws, since there is no catch. */
  function IsAppModified(items: map<string, string>, available: bool): (r: Option<bool>)
    ensures r.None? <==> !available
    ensures r == Some(true) <==> available && INTEGRITY_FAILED in items && items[INTEGRITY_FAILED] == "true"
  {
    if available then Some(FlagIsTrue(items, INTEGRITY_FAILED)) else None
  }

  /** The gate fails open: a feature whose flag is absent, or any feature when storage throws, is not disabled. */
  lemma FeatureGateFailsOpen(items: map<string, string>, available: bool, feature: string)
    ensures DisabledKey(feature) !in items ==> !IsFeatureDisabled(items, available, feature)
    ensures !available ==> !IsFeatureDisabled(items, available, feature) && IsAppModified(items, available) == None
  {
  }

  /**
   * A failed footer check, once its deferred effect has run, marks the app as
   * modified, so the next boot's `checkAppIntegrity` degrades; a thrown check
   * only records a system error and changes neither the integrity flag nor
   * any feature flag.
   */
  lemma FailedCheckMarksAppModified(items: map<string, string>, page: Inspection, draw: nat, coin: real, now: nat, feature: string)
    requires draw < ERROR_CODE_BOUND
    requires !VerifyFooterIntegrity(page).intact
    ensures var p := TriggerError(VerifyFooterIntegrity(page).reports[0], draw);
      var after := ErrorEffect(items, p, coin, now);
      && (page.Inspected? ==> IsAppModified(after, true) == Some(true))
      && (page.InspectionThrew? ==> IsAppModified(after, true) == IsAppModified(items, true))
      && IsFeatureDisabled(after, true, feature) == IsFeatureDisabled(items, true, feature)
  {
    var p := TriggerError(VerifyFooterIntegrity(page).reports[0], draw);
    ErrorEffectKeepsFeatureFlags(items, p, coin, now, feature);
  }

  // ---------------------------------------------------------------------------
  // resetAppState

  /** The five keys `resetAppState` removes by name. */
  const NAMED_FLAGS: set<string> := {INTEGRITY_FAILED, FEATURES_DISABLED, SYSTEM_ERROR, UNKNOWN_ERROR, CACHE_CORRUPTED}

  predicate IsResetKey(k: string) {
    k in NAMED_FLAGS || DISABLED_PREFIX <= k
  }

  /**
   * The storage after `resetAppState` on an available storage: the named
   * flags and every `__nx_disabled_` key are gone, every other key is kept
   * with its value, and no feature reads as disabled.
   */
  function ResetState(items: map<string, string>): (r: map<string, string>)
    ensures forall k :: k in r <==> k in items && !IsResetKey(k)
    ensures forall k :: k in r ==> r[k] == items[k]
    ensures forall f :: !FlagIsTrue(r, DisabledKey(f))
    ensures !FlagIsTrue(r, INTEGRITY_FAILED)
  {
    map k | k in items && !IsResetKey(k) :: items[k]
  }

  lemma ResetIsIdempotent(items: map<string, string>)
    ensures ResetState(ResetState(items)) == ResetState(items)
  {
  }

  /**
   * After a reset no feature is disabled, the app is not modified, and the
   * boot-time flag check leaves the storage as it is.
   */
  lemma ResetClearsGate(items: map<string, string>, feature: string)
    ensures !IsFeatureDisabled(ResetState(items), true, feature)
    ensures IsAppModified(ResetState(items), true) == Some(false)
  {
  }

  /** `resetAppState`: five removals by name, then one removal per stored key with the prefix; a throw ends it silently. */
  method ResetAppState(storage: BrowserStorage)
    modifies storage`items
    ensures storage.items == if storage.available then ResetState(old(storage.items)) else old(storage.items)
  {
    var threw := storage.RemoveItem(INTEGRITY_FAILED);
    if threw {
      return;
    }
    threw := storage.RemoveItem(FEATURES_DISABLED);
    threw := storage.RemoveItem(SYSTEM_ERROR);
    threw := storage.RemoveItem(UNKNOWN_ERROR);
    threw := storage.RemoveItem(CACHE_CORRUPTED);
    ghost var afterNamed := storage.items;
    NamedRemovals(old(storage.items));
    var keys;
    keys, threw := storage.Keys();
    var doomed := set k | k in keys && DISABLED_PREFIX <= k;
    ghost var prefixed := doomed;
    while doomed != {}
      invariant doomed <= prefixed
      invariant storage.items == afterNamed - (prefixed - doomed)
      decreases doomed
    {
      var k :| k in doomed;
      threw := storage.RemoveItem(k);
      doomed := doomed - {k};
    }
    PrefixRemovals(old(storage.items));
  }

  /** The five removals by name remove exactly the named flags. */
  lemma NamedRemovals(items: map<string, string>)
    ensures items - {INTEGRITY_FAILED} - {FEATURES_DISABLED} - {SYSTEM_ERROR} - {UNKNOWN_ERROR} - {CACHE_CORRUPTED}
      == items - NAMED_FLAGS
  {
  }

  /** Removing the prefixed keys that remain after the named removals completes the reset. */
  lemma PrefixRemovals(items: map<string, string>)
    ensures var afterNamed := items - NAMED_FLAGS;
      afterNamed - (set k | k in afterNamed.Keys && DISABLED_PREFIX <= k) == ResetState(items)
  {
  }

  // ---------------------------------------------------------------------------
  // obfuscateCode / deobfuscateCode

  /** `s.split('').reverse().join('')`. */
  function Reverse(s: string): (r: string)
    ensures |r| == |s|
    ensures forall i :: 0 <= i < |s| ==> r[i] == s[|s| - 1 - i]
  {
    if s == [] then [] else Reverse(s[1..]) + [s[0]]
  }

  lemma ReverseIsInvolution(s: string)
    ensures Reverse(Reverse(s)) == s
  {
    assert forall i :: 0 <= i < |s| ==> Reverse(Reverse(s))[i] == s[i];
  }

  /** `obfuscateCode`: the base-64 encoding (`btoa`, a parameter) reversed. */
  function ObfuscateCode(code: string, btoa: string -> string): (r: string)
    ensures |r| == |btoa(code)|
    ensures Reverse(r) == btoa(code)
  {
    ReverseIsInvolution(btoa(code));
    Reverse(btoa(code))
  }

  /**
   * `deobfuscateCode`: reverse, then decode (`atob`, a parameter); the result
   * is the decoding of the one string whose reversal is the input.
   */
  function DeobfuscateCode(code: string, atob: string -> string): (r: string)
    ensures forall enc :: Reverse(enc) == code ==> r == atob(enc)
  {
    assert forall enc :: Reverse(enc) == code ==> enc == Reverse(code) by {
      forall enc | Reverse(enc) == code
        ensures enc == Reverse(code)
      {
        ReverseIsInvolution(enc);
      }
    }
    atob(Reverse(code))
  }

  /** Deobfuscation undoes obfuscation whenever decoding undoes encoding. */
  lemma DeobfuscateInvertsObfuscate(code: string, btoa: string -> string, atob: string -> string)
    requires atob(btoa(code)) == code
    ensures DeobfuscateCode(ObfuscateCode(code, btoa), atob) == code
  {
    ReverseIsInvolution(btoa(code));
  }

  // ---------------------------------------------------------------------------
  // The exported `_nx_*` aliases of this part

  /** `_nx_verify`: runs the check and discards its boolean; returns the kinds it reported. */
  function NxVerify(page: Inspection): (reports: seq<string>)
    ensures |reports| <= 1
    ensures reports == [] <==> FooterIntact(page)
    ensures reports == VerifyFooterIntegrity(page).reports
  {
    VerifyFooterIntegrity(page).reports
  }

  /** `_nx_reset`. */
  method NxReset(storage: BrowserStorage)
    modifies storage`items
    ensures storage.items == if storage.available then ResetState(old(storage.items)) else old(storage.items)
  {
    ResetAppState(storage);
  }

  /** `_nx_check`. */
  function NxCheck(items: map<string, string>, available: bool, feature: string): (r: bool)
    ensures r <==> available && FlagIsTrue(items, DisabledKey(feature))
  {
    IsFeatureDisabled(items, available, feature)
  }

  /** `_nx_modified`. */
  function NxModified(items: map<string, string>, available: bool): (r: Option<bool>)
    ensures r.None? <==> !available
    ensures r == Some(true) <==> available && FlagIsTrue(items, INTEGRITY_FAILED)
  {
    IsAppModified(items, available)
  }
}
