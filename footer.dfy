/**
 * `cf_footer_script` as a whole: from the stored settings and the render
 * context to what the page gets, and what that means for settings that went
 * through the sanitizer.
 */
module Footer {
  import opened Wrappers
  import opened Php
  import opened Sanitizer
  import opened Banner
  import opened Bridge

  /** The consent-bridge part of the footer closure. */
  datatype BridgeScript =
    | NoConsentApi                                       // the Consent API plugin is not active
    | ConsentMap(wpToCf: map<string, seq<CfCategory>>)  // the inline script with `wpToCfMap`
    | MappingError                                       // a list element is an array: PHP 8 TypeError

  /** What one render emits: the consent-type flag, the enqueued script and the bridge. */
  datatype Emission = Emission(consentFlag: string, scriptUrl: string, scriptAttrs: seq<string>, bridge: BridgeScript)

  /** The footer closure; `consentApiActive` stands for `is_plugin_active('wp-consent-api/...')`. */
  function FooterBridge(options: Assoc, consentApiActive: bool): (r: BridgeScript)
    ensures r.NoConsentApi? <==> !consentApiActive
    ensures r.MappingError? <==> consentApiActive && ReadMappings(options).None?
    ensures r.ConsentMap? ==> r.wpToCf.Keys == Mentioned(ReadMappings(options).value)
  {
    if !consentApiActive then NoConsentApi
    else match ReadMappings(options)
      case None => MappingError
      case Some(lists) => ConsentMap(Inverted(lists))
  }

  /**
   * `cf_footer_script()`. An absent option is the empty map; `host` stands for
   * `parse_url(home_url(), PHP_URL_HOST)`.
   */
  function FooterScript(options: Assoc, host: string, inPreview: bool, consentApiActive: bool): (r: Option<Emission>)
    ensures r.Some? <==> ShouldEmit(options, inPreview)
    ensures r.Some? ==> (r.value.bridge.NoConsentApi? <==> !consentApiActive)
    ensures r.Some? ==> r.value.scriptUrl == ScriptUrl(host, options["api_key"])
  {
    if !ShouldEmit(options, inPreview) then None
    else Some(Emission(ConsentFlag(options), ScriptUrl(host, options["api_key"]), ScriptAttrs(options),
                       FooterBridge(options, consentApiActive)))
  }

  /**
   * The sanitizer always writes `should_show_in_preview`, so for sanitized
   * settings a preview render emits exactly what a normal render does.
   */
  lemma SanitizedIgnoresPreview(input: Assoc, sanitizeText: Value -> string, host: string, consentApiActive: bool)
    ensures FooterScript(Sanitize(input, sanitizeText), host, true, consentApiActive)
         == FooterScript(Sanitize(input, sanitizeText), host, false, consentApiActive)
  {
  }

  /** After sanitizing, the flag is "optout" exactly when "opt-out" was submitted. */
  lemma SanitizedConsentFlag(input: Assoc, sanitizeText: Value -> string)
    ensures ConsentFlag(Sanitize(input, sanitizeText)) == "optout"
        <==> Isset(input, "consent_type") && input["consent_type"] == Str("opt-out")
  {
  }

  /** A list read from sanitized settings holds only WordPress categories. */
  lemma SanitizedListValid(input: Assoc, sanitizeText: Value -> string, k: string, default: seq<string>)
    requires k in {"marketing_mapping", "functional_mapping", "statistics_mapping", "preferences_mapping"}
    requires forall w :: w in default ==> w in WP_CATEGORIES
    ensures var list := MappingList(Sanitize(input, sanitizeText), k, default);
            list.Some? && forall w :: w in list.value ==> w in WP_CATEGORIES
  {
    var options := Sanitize(input, sanitizeText);
    if Isset(options, k) {
      var items := IntersectCategories(input[k].items);
      assert options[k] == Arr(items);
      var keys := ArrayKeys(items);
      assert keys.Some?;
      forall w | w in keys.value
        ensures w in WP_CATEGORIES
      {
        var i :| 0 <= i < |keys.value| && keys.value[i] == w;
        assert items[i] in items;
      }
    }
  }

  /** The four lists read from sanitized settings: always readable, and WordPress categories only. */
  lemma SanitizedMappingsValid(input: Assoc, sanitizeText: Value -> string)
    ensures var lists := ReadMappings(Sanitize(input, sanitizeText));
            lists.Some? && forall w :: w in Mentioned(lists.value) ==> w in WP_CATEGORIES
  {
    SanitizedListValid(input, sanitizeText, "marketing_mapping", DEFAULT_MARKETING);
    SanitizedListValid(input, sanitizeText, "functional_mapping", DEFAULT_FUNCTIONAL);
    SanitizedListValid(input, sanitizeText, "statistics_mapping", DEFAULT_STATISTICS);
    SanitizedListValid(input, sanitizeText, "preferences_mapping", DEFAULT_PREFERENCES);
  }

  /**
   * For sanitized settings with the Consent API active, the bridge is always
   * emitted with the banner, and it maps WordPress categories only.
   */
  lemma SanitizedBridgeValid(input: Assoc, sanitizeText: Value -> string, host: string, inPreview: bool)
    ensures var r := FooterScript(Sanitize(input, sanitizeText), host, inPreview, true);
            r.Some? ==> r.value.bridge.ConsentMap? && forall w :: w in r.value.bridge.wpToCf ==> w in WP_CATEGORIES
  {
    var options := Sanitize(input, sanitizeText);
    SanitizedMappingsValid(input, sanitizeText);
    var lists := ReadMappings(options).value;
    assert FooterBridge(options, true) == ConsentMap(Inverted(lists));
  }

  /**
   * A submitted empty `marketing_mapping` is stored as an empty array, which
   * is `isset`, so it replaces the default instead of falling back to it.
   */
  lemma EmptyMappingOverridesDefault(input: Assoc, sanitizeText: Value -> string)
    requires "marketing_mapping" in input && input["marketing_mapping"] == Arr([])
    ensures var lists := ReadMappings(Sanitize(input, sanitizeText));
            lists.Some? && lists.value.marketing == []
  {
    SanitizedMappingsValid(input, sanitizeText);
  }
}
