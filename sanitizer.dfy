/**
 * The settings sanitizer that WordPress runs on every save of the
 * `cf_settings` option: it turns an untrusted submitted array into the
 * stored settings array and never fails.
 */
module Sanitizer {
  import opened Seqs
  import opened Php

  const CONSENT_TYPES: seq<string> := ["opt-in", "opt-out"]
  const SCRIPT_LOADINGS: seq<string> := ["do-nothing", "async", "defer", "async-defer"]
  /** The five WordPress Consent API categories a mapping list may name. */
  const WP_CATEGORIES: seq<string> := ["marketing", "functional", "statistics", "statistics-anonymous", "preferences"]

  /** The keys the sanitizer may write. */
  const SETTINGS_KEYS: set<string> :=
    {"api_key", "consent_type", "script_loading", "should_show_in_preview", "debug_mode",
     "marketing_mapping", "functional_mapping", "statistics_mapping", "preferences_mapping"}

  /**
   * An element that survives `array_intersect` with the category list, which
   * compares `(string) $a === (string) $b`: null casts to "" and an array to
   * "Array", so only a string naming a category survives.
   */
  predicate ValidCategory(v: Value) {
    v.Str? && v.s in WP_CATEGORIES
  }

  /** `array_intersect($items, WP_CATEGORIES)`, keeping input order and repetitions. */
  function IntersectCategories(items: seq<Value>): (r: seq<Value>)
    ensures forall x :: x in r ==> ValidCategory(x) && x in items
  {
    if items == [] then []
    else if ValidCategory(items[0]) then [items[0]] + IntersectCategories(items[1..])
    else IntersectCategories(items[1..])
  }

  /** An enumerated field: the submitted value when it is allowed, else the default. */
  function CoerceEnum(v: Value, allowed: seq<string>, default: string): Value {
    if InArray(v, allowed) then v else Str(default)
  }

  /** What the sanitizer promises about one enumerated key. */
  predicate EnumSanitized(input: Assoc, r: Assoc, k: string, allowed: seq<string>, default: string) {
    && (k in r <==> Isset(input, k))
    && (k in r ==>
          && r[k].Str? && r[k].s in allowed
          && (InArray(input[k], allowed) ==> r[k] == input[k])
          && (!InArray(input[k], allowed) ==> r[k] == Str(default)))
  }

  /** What the sanitizer promises about one checkbox key. */
  predicate CheckboxSanitized(input: Assoc, r: Assoc, k: string) {
    k in r && r[k] == (if Isset(input, k) then Str("true") else Str(""))
  }

  /** What the sanitizer promises about one `*_mapping` key. */
  predicate MappingSanitized(input: Assoc, r: Assoc, k: string) {
    && (k in r <==> k in input && input[k].Arr?)
    && (k in r ==> r[k] == Arr(IntersectCategories(input[k].items)))
  }

  /**
   * `sanitize_cf_settings($input)`. `sanitizeText` stands for WordPress's
   * `sanitize_text_field`, which is not part of this model.
   */
  function Sanitize(input: Assoc, sanitizeText: Value -> string): (r: Assoc)
    ensures r.Keys <= SETTINGS_KEYS
    ensures "api_key" in r <==> Isset(input, "api_key")
    ensures "api_key" in r ==> r["api_key"] == Str(sanitizeText(input["api_key"]))
    ensures EnumSanitized(input, r, "consent_type", CONSENT_TYPES, "opt-in")
    ensures EnumSanitized(input, r, "script_loading", SCRIPT_LOADINGS, "do-nothing")
    ensures CheckboxSanitized(input, r, "should_show_in_preview")
    ensures CheckboxSanitized(input, r, "debug_mode")
    ensures MappingSanitized(input, r, "marketing_mapping")
    ensures MappingSanitized(input, r, "functional_mapping")
    ensures MappingSanitized(input, r, "statistics_mapping")
    ensures MappingSanitized(input, r, "preferences_mapping")
  {
    map k | k in SETTINGS_KEYS && Written(input, k) :: Field(input, sanitizeText, k)
  }

  /**
   * Whether the sanitizer assigns key `k`: the API key and the enumerated
   * fields only when `isset`, the checkboxes always, a mapping list only when
   * it is set and an array.
   */
  predicate Written(input: Assoc, k: string) {
    if k in {"api_key", "consent_type", "script_loading"} then Isset(input, k)
    else if k in {"should_show_in_preview", "debug_mode"} then true
    else k in input && input[k].Arr?
  }

  /** The value the sanitizer assigns to key `k`, one branch per assignment. */
  function Field(input: Assoc, sanitizeText: Value -> string, k: string): Value
    requires Written(input, k)
  {
    if k == "api_key" then Str(sanitizeText(input[k]))
    else if k == "consent_type" then CoerceEnum(input[k], CONSENT_TYPES, "opt-in")
    else if k == "script_loading" then CoerceEnum(input[k], SCRIPT_LOADINGS, "do-nothing")
    else if k in {"should_show_in_preview", "debug_mode"} then
      (if Isset(input, k) then Str("true") else Str(""))
    else Arr(IntersectCategories(input[k].items))
  }

  /** The filter keeps exactly the valid occurrences: as many as the input has, and no others. */
  lemma {:induction false} IntersectCategoriesCount(items: seq<Value>, x: Value)
    ensures Count(IntersectCategories(items), x) == if ValidCategory(x) then Count(items, x) else 0
  {
    if items != [] {
      IntersectCategoriesCount(items[1..], x);
      if ValidCategory(items[0]) {
        assert ([items[0]] + IntersectCategories(items[1..]))[1..] == IntersectCategories(items[1..]);
      }
    }
  }

  /** The filter keeps the input's order: its result is a subsequence of the input. */
  lemma {:induction false} IntersectCategoriesIsSubseq(items: seq<Value>)
    ensures IsSubseq(IntersectCategories(items), items)
  {
    if items != [] {
      var rest := IntersectCategories(items[1..]);
      IntersectCategoriesIsSubseq(items[1..]);
      if ValidCategory(items[0]) {
        assert ([items[0]] + rest)[1..] == rest;
      } else if rest != [] {
        assert ValidCategory(rest[0]);
      }
    }
  }

  /** A list of valid categories passes the filter unchanged. */
  lemma {:induction false} IntersectCategoriesKeepsValid(items: seq<Value>)
    requires forall x :: x in items ==> ValidCategory(x)
    ensures IntersectCategories(items) == items
  {
    if items != [] {
      assert items[0] in items;
      IntersectCategoriesKeepsValid(items[1..]);
      assert [items[0]] + items[1..] == items;
    }
  }

  /** Filtering twice is filtering once. */
  lemma IntersectCategoriesIdempotent(items: seq<Value>)
    ensures IntersectCategories(IntersectCategories(items)) == IntersectCategories(items)
  {
    IntersectCategoriesKeepsValid(IntersectCategories(items));
  }

  /**
   * Sanitizing stored settings again keeps the API key (for an idempotent
   * `sanitize_text_field`), the enumerated fields and the mapping lists, but
   * turns both checkboxes on: the stored "" is still `isset`.
   */
  lemma ResanitizeTurnsCheckboxesOn(input: Assoc, sanitizeText: Value -> string)
    requires forall v :: sanitizeText(Str(sanitizeText(v))) == sanitizeText(v)
    ensures Sanitize(Sanitize(input, sanitizeText), sanitizeText)
         == Sanitize(input, sanitizeText)["should_show_in_preview" := Str("true")]["debug_mode" := Str("true")]
  {
    var once := Sanitize(input, sanitizeText);
    var twice := Sanitize(once, sanitizeText);
    var expected := once["should_show_in_preview" := Str("true")]["debug_mode" := Str("true")];
    forall k
      ensures (k in twice <==> k in expected) && (k in twice ==> twice[k] == expected[k])
    {
      ResanitizeKey(input, sanitizeText, k);
    }
    assert twice.Keys == expected.Keys;
  }

  /** One key of the stored settings under a second sanitization. */
  lemma ResanitizeKey(input: Assoc, sanitizeText: Value -> string, k: string)
    requires forall v :: sanitizeText(Str(sanitizeText(v))) == sanitizeText(v)
    ensures var once := Sanitize(input, sanitizeText);
            var twice := Sanitize(once, sanitizeText);
            var expected := once["should_show_in_preview" := Str("true")]["debug_mode" := Str("true")];
            (k in twice <==> k in expected) && (k in twice ==> twice[k] == expected[k])
  {
    var once := Sanitize(input, sanitizeText);
    if k in SETTINGS_KEYS && k in once && k !in {"api_key", "consent_type", "script_loading", "should_show_in_preview", "debug_mode"} {
      IntersectCategoriesIdempotent(input[k].items);
    }
  }
}
