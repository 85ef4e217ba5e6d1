/**
 * The embedded `updateWPConsent` script: the browser state it reads and
 * changes (the rows of `document.cookie` and the Consent API store that
 * `wp_set_consent` writes) and the decision pass over the inverted map.
 */
module ConsentScript {
  import opened Wrappers
  import opened Php
  import opened Bridge

  const CONSENT_COOKIE_PREFIX := "cookiefirst-consent="
  const WP_CONSENT_PREFIX := "wp_consent_"

  /** The first row that starts with `cookiefirst-consent=`, as `Array.prototype.find` returns it. */
  function FindConsentCookie(rows: seq<string>): (r: Option<string>)
    ensures r.None? <==> forall row :: row in rows ==> !StartsWith(row, CONSENT_COOKIE_PREFIX)
    ensures r.Some? ==> exists i :: 0 <= i < |rows| && rows[i] == r.value
                          && StartsWith(r.value, CONSENT_COOKIE_PREFIX)
                          && forall j :: 0 <= j < i ==> !StartsWith(rows[j], CONSENT_COOKIE_PREFIX)
  {
    if rows == [] then None
    else if StartsWith(rows[0], CONSENT_COOKIE_PREFIX) then Some(rows[0])
    else
      var rest := FindConsentCookie(rows[1..]);
      assert forall row :: row in rows ==> row == rows[0] || row in rows[1..];
      rest
  }

  /** `s.split("=")[0]`: the text before the first '='. */
  function BeforeEq(s: string): (r: string)
    ensures r <= s && '=' !in r
    ensures r == s || (|r| < |s| && s[|r|] == '=')
  {
    if s == [] || s[0] == '=' then [] else [s[0]] + BeforeEq(s[1..])
  }

  /** The text after the first '=' (empty when there is none). */
  function AfterEq(s: string): (r: string)
    ensures '=' !in s ==> r == []
    ensures '=' in s ==> s == BeforeEq(s) + "=" + r
  {
    if s == [] then []
    else if s[0] == '=' then
      assert s == [] + "=" + s[1..];
      s[1..]
    else
      assert s == [s[0]] + s[1..];
      AfterEq(s[1..])
  }

  /** A cookie row's name, `row.split("=")[0]`. */
  function CookieName(row: string): string {
    BeforeEq(row)
  }

  /** A cookie row's value as the script reads it, `row.split("=")[1]`. */
  function CookieValue(row: string): (r: string)
    ensures '=' !in r
  {
    BeforeEq(AfterEq(row))
  }

  /** What is handed to `parse` for the consent cookie: its value up to any further '='. */
  lemma CookieValueOfConsentRow(v: string)
    ensures CookieValue(CONSENT_COOKIE_PREFIX + v) == BeforeEq(v)
  {
    assert CONSENT_COOKIE_PREFIX + v == "cookiefirst-consent" + "=" + v;
    AfterEqSkip("cookiefirst-consent", v);
  }

  /** The text after the first '=' of `p = v`, for a `p` without '='. */
  lemma {:induction false} AfterEqSkip(p: string, v: string)
    requires '=' !in p
    ensures AfterEq(p + "=" + v) == v
  {
    if p == [] {
      assert p + "=" + v == "=" + v;
    } else {
      assert (p + "=" + v)[1..] == p[1..] + "=" + v;
      AfterEqSkip(p[1..], v);
    }
  }

  /** The rows that remain once every cookie named in `names` has been expired. */
  function DropNamed(rows: seq<string>, names: set<string>): seq<string> {
    if rows == [] then []
    else (if CookieName(rows[0]) in names then [] else [rows[0]]) + DropNamed(rows[1..], names)
  }

  /** The rows that are not WordPress consent cookies. */
  function WithoutWpCookies(rows: seq<string>): seq<string> {
    if rows == [] then []
    else (if StartsWith(rows[0], WP_CONSENT_PREFIX) then [] else [rows[0]]) + WithoutWpCookies(rows[1..])
  }

  /** The names of the WordPress consent cookies among `rows`. */
  function WpNames(rows: seq<string>): set<string>
    decreases |rows|
  {
    if rows == [] then {}
    else
      var last := rows[|rows| - 1];
      WpNames(rows[..|rows| - 1]) + (if StartsWith(last, WP_CONSENT_PREFIX) then {CookieName(last)} else {})
  }

  /** What a browser's cookie jar and consent store are. */
  datatype BrowserState = BrowserState(cookies: seq<string>, consent: map<string, string>)

  /**
   * The effect of one `updateWPConsent` run. Without `wp_set_consent`
   * nothing happens. Without a consent cookie the WordPress consent cookies
   * are expired and no consent is set. A cookie that does not decode and
   * parse (`parse` gives None) changes nothing. Otherwise each key of the map
   * gets its verdict and every other category keeps its consent.
   */
  function AfterUpdate(s: BrowserState, available: bool, wpToCf: map<string, seq<CfCategory>>,
                       parse: string -> Option<ConsentRecord>): (r: BrowserState)
    ensures !available ==> r == s
    ensures r.cookies != s.cookies ==> available && FindConsentCookie(s.cookies).None?
    ensures r.consent != s.consent ==> available && FindConsentCookie(s.cookies).Some?
  {
    if !available then s
    else match FindConsentCookie(s.cookies)
      case None => BrowserState(WithoutWpCookies(s.cookies), s.consent)
      case Some(row) =>
        match parse(CookieValue(row))
        case None => s
        case Some(record) => BrowserState(s.cookies, s.consent + Decision(wpToCf, record))
  }

  /**
   * The page's cookie jar (the rows of `document.cookie.split("; ")`) and the
   * Consent API store that `wp_set_consent` writes.
   */
  class ConsentPage {
    var cookies: seq<string>
    var consent: map<string, string>

    constructor (cookies: seq<string>, consent: map<string, string>)
      ensures this.cookies == cookies && this.consent == consent
    {
      this.cookies := cookies;
      this.consent := consent;
    }

    /**
     * `updateWPConsent()`. `available` stands for `typeof wp_set_consent ===
     * 'function'`; `parse` stands for `JSON.parse(decodeURIComponent(...))`
     * followed by reading the four properties, None when either throws.
     */
    method UpdateWpConsent(available: bool, wpToCf: map<string, seq<CfCategory>>,
                           parse: string -> Option<ConsentRecord>)
      modifies this
      ensures BrowserState(cookies, consent)
           == AfterUpdate(old(BrowserState(cookies, consent)), available, wpToCf, parse)
    {
      if !available {
        return;
      }
      var found := FindConsentCookie(cookies);
      if found.None? {
        ExpireWpCookies();
        return;
      }
      var parsed := parse(CookieValue(found.value));
      if parsed.None? {
        return;
      }
      var record := parsed.value;
      ghost var consent0 := consent;
      var pending := wpToCf.Keys;
      ghost var done: set<string> := {};
      while pending != {}
        invariant done <= wpToCf.Keys && pending == wpToCf.Keys - done
        invariant consent == consent0 + map w | w in done :: Verdict(wpToCf[w], record)
        invariant cookies == old(cookies)
        decreases pending
      {
        var w :| w in pending;
        var allow := ShouldAllow(wpToCf[w], record);
        consent := consent[w := if allow then "allow" else "deny"];
        DecisionStep(consent0, wpToCf, record, done, w);
        pending := pending - {w};
        done := done + {w};
      }
      assert done == wpToCf.Keys;
      assert (map w | w in done :: Verdict(wpToCf[w], record)) == Decision(wpToCf, record);
    }

    /** The loop that expires every `wp_consent_*` cookie, over a snapshot of the rows. */
    method ExpireWpCookies()
      modifies this
      ensures cookies == WithoutWpCookies(old(cookies)) && consent == old(consent)
    {
      var rows := cookies;
      ghost var gone: set<string> := {};
      assert DropNamed(rows, gone) == rows by { DropNamedNone(rows); }
      for i := 0 to |rows|
        invariant gone == WpNames(rows[..i])
        invariant cookies == DropNamed(rows, gone)
        invariant consent == old(consent)
      {
        assert rows[..i + 1][..i] == rows[..i];
        var row := rows[i];
        if StartsWith(row, WP_CONSENT_PREFIX) {
          var name := CookieName(row);
          // expire the cookie by its name
          DropNamedTwice(rows, gone, {name});
          cookies := DropNamed(cookies, {name});
          gone := gone + {name};
        }
      }
      assert rows[..|rows|] == rows;
      DropWpNames(rows);
    }
  }

  /** One step of the decision loop. */
  lemma DecisionStep(consent0: map<string, string>, wpToCf: map<string, seq<CfCategory>>,
                     record: ConsentRecord, done: set<string>, w: string)
    requires done <= wpToCf.Keys && w in wpToCf && w !in done
    ensures (consent0 + map x | x in done :: Verdict(wpToCf[x], record))
              [w := if forall c :: c in wpToCf[w] ==> Granted(record, c) then "allow" else "deny"]
         == consent0 + map x | x in done + {w} :: Verdict(wpToCf[x], record)
  {
  }

  lemma {:induction false} DropNamedNone(rows: seq<string>)
    ensures DropNamed(rows, {}) == rows
  {
    if rows != [] {
      DropNamedNone(rows[1..]);
    }
  }

  /** Expiring one name after a set of names is expiring their union. */
  lemma {:induction false} DropNamedTwice(rows: seq<string>, a: set<string>, b: set<string>)
    ensures DropNamed(DropNamed(rows, a), b) == DropNamed(rows, a + b)
  {
    if rows != [] {
      DropNamedTwice(rows[1..], a, b);
      var head := if CookieName(rows[0]) in a then [] else [rows[0]];
      DropNamedAppend(head, DropNamed(rows[1..], a), b);
    }
  }

  lemma {:induction false} DropNamedAppend(s: seq<string>, t: seq<string>, names: set<string>)
    ensures DropNamed(s + t, names) == DropNamed(s, names) + DropNamed(t, names)
  {
    if s == [] {
      assert s + t == t;
    } else {
      assert (s + t)[1..] == s[1..] + t;
      DropNamedAppend(s[1..], t, names);
    }
  }

  /** A row starting with a prefix free of '=' has a name starting with that prefix. */
  lemma {:induction false} PrefixOfName(row: string, p: string)
    requires p <= row && '=' !in p
    ensures p <= BeforeEq(row)
  {
    if p != [] {
      assert row[0] == p[0];
      PrefixOfName(row[1..], p[1..]);
    }
  }

  /** Every name in `WpNames(rows)` starts with `wp_consent_`, and every WordPress consent row's name is in it. */
  lemma {:induction false} WpNamesSpec(rows: seq<string>)
    ensures forall n :: n in WpNames(rows) ==> StartsWith(n, WP_CONSENT_PREFIX)
    ensures forall row :: row in rows && StartsWith(row, WP_CONSENT_PREFIX) ==> CookieName(row) in WpNames(rows)
  {
    if rows != [] {
      var init := rows[..|rows| - 1];
      var last := rows[|rows| - 1];
      WpNamesSpec(init);
      assert forall row :: row in rows ==> row in init || row == last;
      if StartsWith(last, WP_CONSENT_PREFIX) {
        PrefixOfName(last, WP_CONSENT_PREFIX);
      }
    }
  }

  /** Dropping by a set of names that matches exactly the WordPress consent rows. */
  lemma {:induction false} DropEquiv(rows: seq<string>, names: set<string>)
    requires forall row :: row in rows ==> (CookieName(row) in names <==> StartsWith(row, WP_CONSENT_PREFIX))
    ensures DropNamed(rows, names) == WithoutWpCookies(rows)
  {
    if rows != [] {
      assert rows[0] in rows;
      assert forall row :: row in rows[1..] ==> row in rows;
      DropEquiv(rows[1..], names);
    }
  }

  /** Expiring the names of all WordPress consent rows removes exactly those rows. */
  lemma DropWpNames(rows: seq<string>)
    ensures DropNamed(rows, WpNames(rows)) == WithoutWpCookies(rows)
  {
    WpNamesSpec(rows);
    forall row | row in rows
      ensures CookieName(row) in WpNames(rows) <==> StartsWith(row, WP_CONSENT_PREFIX)
    {
      if CookieName(row) in WpNames(rows) {
        assert WP_CONSENT_PREFIX <= CookieName(row) <= row;
      }
    }
    DropEquiv(rows, WpNames(rows));
  }

  /** The cleared jar keeps, in order, exactly the rows that are not WordPress consent cookies. */
  lemma {:induction false} WithoutWpCookiesSpec(rows: seq<string>)
    ensures forall row :: row in WithoutWpCookies(rows) <==> row in rows && !StartsWith(row, WP_CONSENT_PREFIX)
    ensures Seqs.IsSubseq(WithoutWpCookies(rows), rows)
  {
    if rows != [] {
      WithoutWpCookiesSpec(rows[1..]);
      var rest := WithoutWpCookies(rows[1..]);
      assert forall row :: row in rows <==> row == rows[0] || row in rows[1..];
      if !StartsWith(rows[0], WP_CONSENT_PREFIX) {
        assert ([rows[0]] + rest)[1..] == rest;
      } else {
        assert [] + rest == rest;
        if rest != [] {
          assert rest[0] in rest;
        }
      }
    }
  }

  /**
   * With a consent cookie that parses, a mapped category is set to "allow"
   * exactly when every CookieFirst category it depends on is granted and to
   * "deny" otherwise; every other category keeps its consent, and no cookie
   * changes.
   */
  lemma AfterUpdateDecides(s: BrowserState, wpToCf: map<string, seq<CfCategory>>,
                           parse: string -> Option<ConsentRecord>, row: string, record: ConsentRecord)
    requires FindConsentCookie(s.cookies) == Some(row) && parse(CookieValue(row)) == Some(record)
    ensures var t := AfterUpdate(s, true, wpToCf, parse);
            && t.cookies == s.cookies
            && t.consent.Keys == s.consent.Keys + wpToCf.Keys
            && (forall w :: w in wpToCf ==>
                  (t.consent[w] == "allow" <==> forall c :: c in wpToCf[w] ==> Granted(record, c))
                  && (t.consent[w] == "allow" || t.consent[w] == "deny"))
            && (forall w :: w in s.consent && w !in wpToCf ==> t.consent[w] == s.consent[w])
  {
  }

  /** A consent cookie whose value does not decode and parse changes nothing. */
  lemma AfterUpdateParseFails(s: BrowserState, wpToCf: map<string, seq<CfCategory>>,
                              parse: string -> Option<ConsentRecord>, row: string)
    requires FindConsentCookie(s.cookies) == Some(row) && parse(CookieValue(row)).None?
    ensures AfterUpdate(s, true, wpToCf, parse) == s
  {
  }

  /**
   * Without a consent cookie no consent is set, no `wp_consent_` row is left
   * and every other row stays, in order.
   */
  lemma AfterUpdateWithoutCookie(s: BrowserState, wpToCf: map<string, seq<CfCategory>>,
                                 parse: string -> Option<ConsentRecord>)
    requires forall row :: row in s.cookies ==> !StartsWith(row, CONSENT_COOKIE_PREFIX)
    ensures var t := AfterUpdate(s, true, wpToCf, parse);
            && t.consent == s.consent
            && (forall row :: row in t.cookies <==> row in s.cookies && !StartsWith(row, WP_CONSENT_PREFIX))
            && Seqs.IsSubseq(t.cookies, s.cookies)
  {
    WithoutWpCookiesSpec(s.cookies);
  }

  /**
   * Running `updateWPConsent` again on the state it produced changes
   * nothing: a second cookie sweep finds nothing more to expire, and a second
   * decision pass writes the same verdicts.
   */
  lemma AfterUpdateIdempotent(s: BrowserState, available: bool, wpToCf: map<string, seq<CfCategory>>,
                              parse: string -> Option<ConsentRecord>)
    ensures AfterUpdate(AfterUpdate(s, available, wpToCf, parse), available, wpToCf, parse)
         == AfterUpdate(s, available, wpToCf, parse)
  {
    if available && FindConsentCookie(s.cookies).None? {
      var cleared := WithoutWpCookies(s.cookies);
      WithoutWpCookiesSpec(s.cookies);
      WithoutWpCookiesSpec(cleared);
      KeepAllWithoutWp(cleared);
    }
  }

  /** A jar with no WordPress consent row is left as it is. */
  lemma {:induction false} KeepAllWithoutWp(rows: seq<string>)
    requires forall row :: row in rows ==> !StartsWith(row, WP_CONSENT_PREFIX)
    ensures WithoutWpCookies(rows) == rows
  {
    if rows != [] {
      assert rows[0] in rows;
      assert forall row :: row in rows[1..] ==> row in rows;
      KeepAllWithoutWp(rows[1..]);
      assert [rows[0]] + rows[1..] == rows;
    }
  }
}
