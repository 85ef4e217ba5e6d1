/**
 * The consent bridge: the footer closure inverts the four mapping lists into
 * a WordPress-category -> CookieFirst-categories map, and the embedded
 * `updateWPConsent` script turns the CookieFirst consent cookie into
 * `wp_set_consent` calls.
 */
module Bridge {
  import opened Wrappers
  import opened Seqs
  import opened Php

  /** The four categories of the CookieFirst consent record. */
  datatype CfCategory = Advertising | Functional | Performance | Necessary

  /**
   * The parsed CookieFirst consent record, reduced to the truthiness of its
   * four properties (a missing property is falsy).
   */
  datatype ConsentRecord = ConsentRecord(advertising: bool, functional: bool, performance: bool, necessary: bool)

  /** The check `updateWPConsent` makes for one CookieFirst category. */
  predicate Granted(record: ConsentRecord, c: CfCategory) {
    match c
    case Advertising => record.advertising
    case Functional => record.functional
    case Performance => record.performance
    case Necessary => record.necessary
  }

  /**
   * The four mapping lists after defaulting. Each holds the WordPress
   * categories that depend on one CookieFirst category: `marketing_mapping`
   * on advertising, `functional_mapping` on functional, `statistics_mapping`
   * on performance and `preferences_mapping` on necessary.
   */
  datatype MappingLists = MappingLists(
    marketing: seq<string>, functional: seq<string>, statistics: seq<string>, preferences: seq<string>)

  /** The list that pairs with CookieFirst category `c`. */
  function ListFor(lists: MappingLists, c: CfCategory): seq<string> {
    match c
    case Advertising => lists.marketing
    case Functional => lists.functional
    case Performance => lists.statistics
    case Necessary => lists.preferences
  }

  const DEFAULT_MARKETING: seq<string> := ["marketing"]
  const DEFAULT_FUNCTIONAL: seq<string> := ["functional"]
  const DEFAULT_STATISTICS: seq<string> := ["statistics"]
  const DEFAULT_PREFERENCES: seq<string> := ["preferences", "statistics-anonymous"]

  /**
   * The array keys a list's elements become in `$wp_to_cf_map[$wp_category]`:
   * a string is its own key and null becomes ""; an array is an illegal
   * offset, a TypeError, which gives None.
   */
  function ArrayKeys(items: seq<Value>): (r: Option<seq<string>>)
    ensures r.Some? <==> forall x :: x in items ==> !x.Arr?
    ensures r.Some? ==> |r.value| == |items|
    ensures r.Some? ==> forall i :: 0 <= i < |items| ==> r.value[i] == ToStr(items[i])
  {
    if items == [] then Some([])
    else if items[0].Arr? then None
    else match ArrayKeys(items[1..])
      case None => None
      case Some(rest) => Some([ToStr(items[0])] + rest)
  }

  /**
   * One mapping list as the footer closure reads it: the default when the key
   * is not `isset`; the array's elements when it is an array; nothing when it
   * is a string, which `foreach` does not iterate.
   */
  function MappingList(options: Assoc, k: string, default: seq<string>): (r: Option<seq<string>>)
    ensures !Isset(options, k) ==> r == Some(default)
    ensures r.None? <==> Unreadable(options, k)
    ensures Isset(options, k) && options[k].Arr? && r.Some? ==>
              |r.value| == |options[k].items|
              && forall i :: 0 <= i < |r.value| ==> r.value[i] == ToStr(options[k].items[i])
    ensures Isset(options, k) && !options[k].Arr? ==> r == Some([])
  {
    if !Isset(options, k) then Some(default)
    else match options[k]
      case Arr(items) => ArrayKeys(items)
      case _ => Some([])
  }

  /** A mapping list that is set to an array with an array among its elements. */
  predicate Unreadable(options: Assoc, k: string) {
    Isset(options, k) && options[k].Arr? && exists x :: x in options[k].items && x.Arr?
  }

  /** The four lists of the stored settings, with their defaults; None when one of them is unreadable. */
  function ReadMappings(options: Assoc): (r: Option<MappingLists>)
    ensures r.None? <==> Unreadable(options, "marketing_mapping") || Unreadable(options, "functional_mapping")
                         || Unreadable(options, "statistics_mapping") || Unreadable(options, "preferences_mapping")
  {
    var marketing := MappingList(options, "marketing_mapping", DEFAULT_MARKETING);
    var functional := MappingList(options, "functional_mapping", DEFAULT_FUNCTIONAL);
    var statistics := MappingList(options, "statistics_mapping", DEFAULT_STATISTICS);
    var preferences := MappingList(options, "preferences_mapping", DEFAULT_PREFERENCES);
    if marketing.Some? && functional.Some? && statistics.Some? && preferences.Some?
    then Some(MappingLists(marketing.value, functional.value, statistics.value, preferences.value))
    else None
  }

  /** The WordPress categories named in some list. */
  function Mentioned(lists: MappingLists): set<string> {
    (set w | w in lists.marketing) + (set w | w in lists.functional)
    + (set w | w in lists.statistics) + (set w | w in lists.preferences)
  }

  /**
   * The inverted map, defined by what it holds: every mentioned WordPress
   * category maps to one CookieFirst category per occurrence of it in that
   * category's list, advertising first, then functional, performance and
   * necessary.
   */
  function Inverted(lists: MappingLists): map<string, seq<CfCategory>> {
    map w | w in Mentioned(lists) ::
      Repeat(Advertising, Count(lists.marketing, w)) + Repeat(Functional, Count(lists.functional, w))
      + Repeat(Performance, Count(lists.statistics, w)) + Repeat(Necessary, Count(lists.preferences, w))
  }

  /** `m[w]`, or the empty list when `w` has no entry yet. */
  function Lookup(m: map<string, seq<CfCategory>>, w: string): seq<CfCategory> {
    if w in m then m[w] else []
  }

  /** One of the four `foreach` loops: appends `c` to the entry of each listed category. */
  method AppendCategory(m0: map<string, seq<CfCategory>>, ws: seq<string>, c: CfCategory)
    returns (m: map<string, seq<CfCategory>>)
    ensures forall w :: w in m <==> w in m0 || w in ws
    ensures forall w :: Lookup(m, w) == Lookup(m0, w) + Repeat(c, Count(ws, w))
  {
    m := m0;
    for i := 0 to |ws|
      invariant forall w :: w in m <==> w in m0 || w in ws[..i]
      invariant forall w :: Lookup(m, w) == Lookup(m0, w) + Repeat(c, Count(ws[..i], w))
    {
      var w := ws[i];
      ghost var before := m;
      if w !in m {
        m := m[w := []];
      }
      m := m[w := m[w] + [c]];
      AppendStep(m0, before, m, ws, i, c);
    }
    assert ws[..|ws|] == ws;
  }

  /** One iteration of `AppendCategory` keeps its invariants. */
  lemma AppendStep(m0: map<string, seq<CfCategory>>, before: map<string, seq<CfCategory>>,
                   after: map<string, seq<CfCategory>>, ws: seq<string>, i: nat, c: CfCategory)
    requires i < |ws|
    requires forall w :: w in before <==> w in m0 || w in ws[..i]
    requires forall w :: Lookup(before, w) == Lookup(m0, w) + Repeat(c, Count(ws[..i], w))
    requires after == before[ws[i] := Lookup(before, ws[i]) + [c]]
    ensures forall w :: w in after <==> w in m0 || w in ws[..i + 1]
    ensures forall w :: Lookup(after, w) == Lookup(m0, w) + Repeat(c, Count(ws[..i + 1], w))
  {
    forall w
      ensures w in after <==> w in m0 || w in ws[..i + 1]
      ensures Lookup(after, w) == Lookup(m0, w) + Repeat(c, Count(ws[..i + 1], w))
    {
      AppendStepAt(m0, before, after, ws, i, c, w);
    }
  }

  /** `AppendStep` for one WordPress category. */
  lemma AppendStepAt(m0: map<string, seq<CfCategory>>, before: map<string, seq<CfCategory>>,
                     after: map<string, seq<CfCategory>>, ws: seq<string>, i: nat, c: CfCategory, w: string)
    requires i < |ws|
    requires w in before <==> w in m0 || w in ws[..i]
    requires Lookup(before, w) == Lookup(m0, w) + Repeat(c, Count(ws[..i], w))
    requires after == before[ws[i] := Lookup(before, ws[i]) + [c]]
    ensures w in after <==> w in m0 || w in ws[..i + 1]
    ensures Lookup(after, w) == Lookup(m0, w) + Repeat(c, Count(ws[..i + 1], w))
  {
    CountTakeSnoc(ws, i, w);
    CountPositive(ws[..i + 1], w);
    CountPositive(ws[..i], w);
    if w == ws[i] {
      RepeatSnoc(c, Count(ws[..i], w));
    }
  }

  /** The footer closure's construction of `$wp_to_cf_map`. */
  method BuildConsentMap(lists: MappingLists) returns (m: map<string, seq<CfCategory>>)
    ensures m == Inverted(lists)
  {
    m := map[];
    m := AppendCategory(m, lists.marketing, Advertising);
    m := AppendCategory(m, lists.functional, Functional);
    m := AppendCategory(m, lists.statistics, Performance);
    m := AppendCategory(m, lists.preferences, Necessary);
    InvertedFromLookups(lists, m);
  }

  /** A map with the inverted map's keys and entries is the inverted map. */
  lemma InvertedFromLookups(lists: MappingLists, m: map<string, seq<CfCategory>>)
    requires forall w :: w in m <==> w in lists.marketing || w in lists.functional
                                     || w in lists.statistics || w in lists.preferences
    requires forall w :: Lookup(m, w)
               == [] + Repeat(Advertising, Count(lists.marketing, w)) + Repeat(Functional, Count(lists.functional, w))
                  + Repeat(Performance, Count(lists.statistics, w)) + Repeat(Necessary, Count(lists.preferences, w))
    ensures m == Inverted(lists)
  {
    assert Mentioned(lists) == m.Keys;
    forall w | w in m
      ensures Inverted(lists)[w] == m[w]
    {
      var entry := Repeat(Advertising, Count(lists.marketing, w)) + Repeat(Functional, Count(lists.functional, w))
                   + Repeat(Performance, Count(lists.statistics, w)) + Repeat(Necessary, Count(lists.preferences, w));
      assert [] + Repeat(Advertising, Count(lists.marketing, w)) == Repeat(Advertising, Count(lists.marketing, w));
      assert Lookup(m, w) == m[w] == entry;
    }
    InvertedEquals(lists, m);
  }

  /** CookieFirst category `c` is required for `w` exactly when `w` is in `c`'s list. */
  lemma InvertedMembership(lists: MappingLists, w: string, c: CfCategory)
    requires w in Inverted(lists)
    ensures c in Inverted(lists)[w] <==> w in ListFor(lists, c)
  {
    RepeatMember(Advertising, Count(lists.marketing, w), c);
    RepeatMember(Functional, Count(lists.functional, w), c);
    RepeatMember(Performance, Count(lists.statistics, w), c);
    RepeatMember(Necessary, Count(lists.preferences, w), c);
    CountPositive(lists.marketing, w);
    CountPositive(lists.functional, w);
    CountPositive(lists.statistics, w);
    CountPositive(lists.preferences, w);
  }

  /** An entry holds one CookieFirst category per occurrence of `w` across the four lists. */
  lemma InvertedLength(lists: MappingLists, w: string)
    requires w in Inverted(lists)
    ensures |Inverted(lists)[w]| == Count(lists.marketing, w) + Count(lists.functional, w)
                                    + Count(lists.statistics, w) + Count(lists.preferences, w)
  {
  }

  /** The map has an entry exactly for the categories some list mentions. */
  lemma InvertedKeys(lists: MappingLists, w: string)
    ensures w in Inverted(lists) <==> exists c :: w in ListFor(lists, c)
  {
    if w in lists.marketing { assert w in ListFor(lists, Advertising); }
    if w in lists.functional { assert w in ListFor(lists, Functional); }
    if w in lists.statistics { assert w in ListFor(lists, Performance); }
    if w in lists.preferences { assert w in ListFor(lists, Necessary); }
  }

  const DEFAULT_LISTS := MappingLists(DEFAULT_MARKETING, DEFAULT_FUNCTIONAL, DEFAULT_STATISTICS, DEFAULT_PREFERENCES)

  /** With no mapping key set, every list takes its default. */
  lemma DefaultMappings(options: Assoc)
    requires !Isset(options, "marketing_mapping") && !Isset(options, "functional_mapping")
    requires !Isset(options, "statistics_mapping") && !Isset(options, "preferences_mapping")
    ensures ReadMappings(options) == Some(DEFAULT_LISTS)
  {
  }

  /** The pairing the default lists are meant to give. */
  const DEFAULT_PAIRING: map<string, seq<CfCategory>> :=
    map["marketing" := [Advertising], "functional" := [Functional], "statistics" := [Performance],
        "preferences" := [Necessary], "statistics-anonymous" := [Necessary]]

  /** The default lists give the documented default pairing. */
  lemma DefaultConsentMap()
    ensures Inverted(DEFAULT_LISTS) == DEFAULT_PAIRING
  {
    DefaultKeys();
    DefaultEntries();
    InvertedEquals(DEFAULT_LISTS, DEFAULT_PAIRING);
  }

  /** A map with the inverted map's keys and its entry for each of them is the inverted map. */
  lemma InvertedEquals(lists: MappingLists, expected: map<string, seq<CfCategory>>)
    requires Mentioned(lists) == expected.Keys
    requires forall w :: w in expected ==> Inverted(lists)[w] == expected[w]
    ensures Inverted(lists) == expected
  {
  }

  lemma DefaultKeys()
    ensures Mentioned(DEFAULT_LISTS) == DEFAULT_PAIRING.Keys
  {
  }

  /** The entry of each default category. */
  lemma DefaultEntries()
    ensures var inv := Inverted(DEFAULT_LISTS);
            && "marketing" in inv && inv["marketing"] == [Advertising]
            && "functional" in inv && inv["functional"] == [Functional]
            && "statistics" in inv && inv["statistics"] == [Performance]
            && "preferences" in inv && inv["preferences"] == [Necessary]
            && "statistics-anonymous" in inv && inv["statistics-anonymous"] == [Necessary]
  {
    DefaultCounts();
    InvertedSingle(DEFAULT_LISTS, "marketing", Advertising);
    InvertedSingle(DEFAULT_LISTS, "functional", Functional);
    InvertedSingle(DEFAULT_LISTS, "statistics", Performance);
    InvertedSingle(DEFAULT_LISTS, "preferences", Necessary);
    InvertedSingle(DEFAULT_LISTS, "statistics-anonymous", Necessary);
  }

  /** How often each name occurs in the default lists. */
  lemma DefaultCounts()
    ensures forall w :: Count(DEFAULT_MARKETING, w) == (if w == "marketing" then 1 else 0)
    ensures forall w :: Count(DEFAULT_FUNCTIONAL, w) == (if w == "functional" then 1 else 0)
    ensures forall w :: Count(DEFAULT_STATISTICS, w) == (if w == "statistics" then 1 else 0)
    ensures forall w :: Count(DEFAULT_PREFERENCES, w)
                        == (if w == "preferences" then 1 else 0) + (if w == "statistics-anonymous" then 1 else 0)
  {
    forall w
      ensures Count(DEFAULT_PREFERENCES, w)
              == (if w == "preferences" then 1 else 0) + (if w == "statistics-anonymous" then 1 else 0)
    {
      assert DEFAULT_PREFERENCES[1..] == ["statistics-anonymous"];
    }
  }

  /** A WordPress category listed once, under one CookieFirst category only, maps to that category alone. */
  lemma InvertedSingle(lists: MappingLists, w: string, c: CfCategory)
    requires Count(lists.marketing, w) == (if c == Advertising then 1 else 0)
    requires Count(lists.functional, w) == (if c == Functional then 1 else 0)
    requires Count(lists.statistics, w) == (if c == Performance then 1 else 0)
    requires Count(lists.preferences, w) == (if c == Necessary then 1 else 0)
    ensures w in Inverted(lists) && Inverted(lists)[w] == [c]
  {
    CountPositive(ListFor(lists, c), w);
    assert w in ListFor(lists, c);
  }

  /** The verdict `updateWPConsent` gives a WordPress category with these requirements. */
  function Verdict(cfs: seq<CfCategory>, record: ConsentRecord): string {
    if forall c :: c in cfs ==> Granted(record, c) then "allow" else "deny"
  }

  /** The consent `updateWPConsent` sets: a verdict for every key of the map and nothing else. */
  function Decision(wpToCf: map<string, seq<CfCategory>>, record: ConsentRecord): map<string, string> {
    map w | w in wpToCf :: Verdict(wpToCf[w], record)
  }

  /** The inner loop over one category's requirements, with its `break`. */
  method ShouldAllow(cfs: seq<CfCategory>, record: ConsentRecord) returns (allow: bool)
    ensures allow <==> forall c :: c in cfs ==> Granted(record, c)
  {
    allow := true;
    var i := 0;
    while i < |cfs|
      invariant 0 <= i <= |cfs|
      invariant forall j :: 0 <= j < i ==> Granted(record, cfs[j])
    {
      var denied := match cfs[i]
        case Advertising => !record.advertising
        case Functional => !record.functional
        case Performance => !record.performance
        case Necessary => !record.necessary;
      if denied {
        assert cfs[i] in cfs && !Granted(record, cfs[i]);
        allow := false;
        break;
      }
      i := i + 1;
    }
  }

  /**
   * End to end: a mentioned WordPress category is allowed exactly when every
   * CookieFirst category whose list names it is granted.
   */
  lemma BridgeVerdict(lists: MappingLists, record: ConsentRecord, w: string)
    requires w in Inverted(lists)
    ensures Decision(Inverted(lists), record)[w] == "allow" <==>
              && (w in lists.marketing ==> record.advertising)
              && (w in lists.functional ==> record.functional)
              && (w in lists.statistics ==> record.performance)
              && (w in lists.preferences ==> record.necessary)
  {
    var cfs := Inverted(lists)[w];
    assert Decision(Inverted(lists), record)[w] == Verdict(cfs, record);
    InvertedMembership(lists, w, Advertising);
    InvertedMembership(lists, w, Functional);
    InvertedMembership(lists, w, Performance);
    InvertedMembership(lists, w, Necessary);
    assert (forall c :: c in cfs ==> Granted(record, c))
       <== (Advertising in cfs ==> record.advertising) && (Functional in cfs ==> record.functional)
        && (Performance in cfs ==> record.performance) && (Necessary in cfs ==> record.necessary);
  }

  /** The example settings: `marketing_mapping` = [marketing, preferences], the other lists at their defaults. */
  const EXAMPLE_LISTS := MappingLists(["marketing", "preferences"], DEFAULT_FUNCTIONAL, DEFAULT_STATISTICS, DEFAULT_PREFERENCES)
  /** The example consent: only advertising and necessary granted. */
  const EXAMPLE_RECORD := ConsentRecord(true, false, false, true)

  /**
   * With the example settings and consent: marketing, preferences and
   * statistics-anonymous are allowed, functional and statistics denied.
   */
  lemma BridgeExample()
    ensures var d := Decision(Inverted(EXAMPLE_LISTS), EXAMPLE_RECORD);
            && d.Keys == {"marketing", "preferences", "functional", "statistics", "statistics-anonymous"}
            && d["marketing"] == "allow" && d["preferences"] == "allow" && d["statistics-anonymous"] == "allow"
            && d["functional"] == "deny" && d["statistics"] == "deny"
  {
    ExampleKeys();
    ExampleAllowed();
    ExampleDenied();
  }

  lemma ExampleKeys()
    ensures Mentioned(EXAMPLE_LISTS) == {"marketing", "preferences", "functional", "statistics", "statistics-anonymous"}
  {
  }

  lemma ExampleAllowed()
    requires Mentioned(EXAMPLE_LISTS) == {"marketing", "preferences", "functional", "statistics", "statistics-anonymous"}
    ensures var d := Decision(Inverted(EXAMPLE_LISTS), EXAMPLE_RECORD);
            && "marketing" in d && d["marketing"] == "allow"
            && "preferences" in d && d["preferences"] == "allow"
            && "statistics-anonymous" in d && d["statistics-anonymous"] == "allow"
  {
    BridgeVerdict(EXAMPLE_LISTS, EXAMPLE_RECORD, "marketing");
    BridgeVerdict(EXAMPLE_LISTS, EXAMPLE_RECORD, "preferences");
    BridgeVerdict(EXAMPLE_LISTS, EXAMPLE_RECORD, "statistics-anonymous");
  }

  lemma ExampleDenied()
    requires Mentioned(EXAMPLE_LISTS) == {"marketing", "preferences", "functional", "statistics", "statistics-anonymous"}
    ensures var d := Decision(Inverted(EXAMPLE_LISTS), EXAMPLE_RECORD);
            && "functional" in d && d["functional"] == "deny"
            && "statistics" in d && d["statistics"] == "deny"
  {
    BridgeVerdict(EXAMPLE_LISTS, EXAMPLE_RECORD, "functional");
    BridgeVerdict(EXAMPLE_LISTS, EXAMPLE_RECORD, "statistics");
  }
}
