/**
 * The banner part of `cf_footer_script`: whether the CookieFirst script is
 * emitted at all, the consent-type flag, the script URL, the loading
 * attributes and the `script_loader_tag` filter that writes them into the tag.
 */
module Banner {
  import opened Php

  const SCRIPT_HANDLE := "cookiefirst-script"
  const SCRIPT_BASE := "https://consent.cookiefirst.com/sites/"
  const CLOSE_TAG := "></script>"

  /**
   * The emission gate. `inPreview` stands for `is_preview() ||
   * is_customize_preview()`. The API key must be present and not `empty()`
   * in PHP's sense; preview suppression tests only whether the
   * `should_show_in_preview` key is present, not its value.
   */
  function ShouldEmit(options: Assoc, inPreview: bool): (r: bool)
    ensures r ==> "api_key" in options && ToStr(options["api_key"]) != "" && ToStr(options["api_key"]) != "0"
    ensures r ==> "should_show_in_preview" in options || !inPreview
    ensures r <== && "api_key" in options && options["api_key"].Str?
                  && options["api_key"].s != "" && options["api_key"].s != "0"
                  && ("should_show_in_preview" in options || !inPreview)
  {
    && "api_key" in options
    && !IsEmpty(options["api_key"])
    && !("should_show_in_preview" !in options && inPreview)
  }

  /** The value of `window.wp_consent_type`: `consent_type` defaults to "opt-in" when unset. */
  function ConsentFlag(options: Assoc): (r: string)
    ensures r == "optin" || r == "optout"
    ensures r == "optin" <==> !Isset(options, "consent_type") || options["consent_type"] == Str("opt-in")
  {
    var consentType := if Isset(options, "consent_type") then options["consent_type"] else Str("opt-in");
    if consentType == Str("opt-in") then "optin" else "optout"
  }

  /** `script_loading` is set and equals `v`. */
  predicate LoadingIs(options: Assoc, v: string) {
    Isset(options, "script_loading") && options["script_loading"] == Str(v)
  }

  /**
   * The attributes added to the script tag; `script_loading` defaults to
   * "do-nothing" when unset, and an unknown value adds nothing.
   */
  function ScriptAttrs(options: Assoc): (r: seq<string>)
    ensures "async" in r <==> LoadingIs(options, "async") || LoadingIs(options, "async-defer")
    ensures "defer" in r <==> LoadingIs(options, "defer") || LoadingIs(options, "async-defer")
    ensures forall a :: a in r ==> a == "async" || a == "defer"
    ensures |r| <= 2 && (|r| == 2 ==> r == ["async", "defer"])
  {
    var loading := if Isset(options, "script_loading") then options["script_loading"] else Str("do-nothing");
    if loading == Str("async") then ["async"]
    else if loading == Str("defer") then ["defer"]
    else if loading == Str("async-defer") then ["async", "defer"]
    else []
  }

  /** `preg_replace('/^www\./', '', $host)`: removes at most one leading "www.". */
  function StripWww(host: string): (r: string)
    ensures host == r || host == "www." + r
    ensures StartsWith(host, "www.") <==> host == "www." + r
  {
    if StartsWith(host, "www.") then host[4..] else host
  }

  /** The script URL; `apiKey` is formatted with `%s`. */
  function ScriptUrl(host: string, apiKey: Value): (r: string)
    ensures StartsWith(host, "www.") ==> r == SCRIPT_BASE + host[4..] + "-" + ToStr(apiKey) + "/consent.js"
    ensures !StartsWith(host, "www.") ==> r == SCRIPT_BASE + host + "-" + ToStr(apiKey) + "/consent.js"
  {
    SCRIPT_BASE + StripWww(host) + "-" + ToStr(apiKey) + "/consent.js"
  }

  /** The tag after one `str_replace` per attribute, in order. */
  function WithAttrs(tag: string, attrs: seq<string>): string
    decreases |attrs|
  {
    if attrs == [] then tag
    else ReplaceAll(WithAttrs(tag, attrs[..|attrs| - 1]), CLOSE_TAG, " " + attrs[|attrs| - 1] + CLOSE_TAG)
  }

  /** The attributes as they end up in the tag: each preceded by a space. */
  function Spaced(attrs: seq<string>): string
    decreases |attrs|
  {
    if attrs == [] then "" else Spaced(attrs[..|attrs| - 1]) + " " + attrs[|attrs| - 1]
  }

  /** The `script_loader_tag` filter closure. */
  method FilterScriptTag(tag: string, handle: string, attrs: seq<string>) returns (r: string)
    ensures handle == SCRIPT_HANDLE && attrs != [] ==> r == WithAttrs(tag, attrs)
    ensures handle != SCRIPT_HANDLE || attrs == [] ==> r == tag
  {
    r := tag;
    if handle == SCRIPT_HANDLE && attrs != [] {
      for i := 0 to |attrs|
        invariant r == WithAttrs(tag, attrs[..i])
      {
        assert attrs[..i + 1][..i] == attrs[..i];
        r := ReplaceAll(r, CLOSE_TAG, " " + attrs[i] + CLOSE_TAG);
      }
      assert attrs[..|attrs|] == attrs;
    }
  }

  lemma {:induction false} SpacedNoGt(attrs: seq<string>)
    requires forall a :: a in attrs ==> '>' !in a
    ensures '>' !in Spaced(attrs)
  {
    if attrs != [] {
      SpacedNoGt(attrs[..|attrs| - 1]);
      assert attrs[|attrs| - 1] in attrs;
    }
  }

  /**
   * On a tag with a single `></script>` and no other '>' before or after it,
   * the filter inserts the attributes, space-separated and in order, just
   * before `></script>`.
   */
  lemma {:induction false} WithAttrsInserts(p: string, q: string, attrs: seq<string>)
    requires '>' !in p && '>' !in q
    requires forall a :: a in attrs ==> '>' !in a
    ensures WithAttrs(p + CLOSE_TAG + q, attrs) == p + Spaced(attrs) + CLOSE_TAG + q
  {
    if attrs != [] {
      var init := attrs[..|attrs| - 1];
      var last := attrs[|attrs| - 1];
      assert forall a :: a in init ==> a in attrs;
      WithAttrsInserts(p, q, init);
      SpacedNoGt(init);
      var rep := " " + last + CLOSE_TAG;
      calc {
        WithAttrs(p + CLOSE_TAG + q, attrs);
        ReplaceAll(WithAttrs(p + CLOSE_TAG + q, init), CLOSE_TAG, rep);
        ReplaceAll(p + Spaced(init) + CLOSE_TAG + q, CLOSE_TAG, rep);
        { InsertBeforeClose(p + Spaced(init), q, last); }
        p + Spaced(init) + " " + last + CLOSE_TAG + q;
        { assert Spaced(attrs) == Spaced(init) + " " + last; }
        p + Spaced(attrs) + CLOSE_TAG + q;
      }
    }
  }

  /** One `str_replace` on a tag whose only '>' is the one in `></script>`. */
  lemma InsertBeforeClose(head: string, q: string, attr: string)
    requires '>' !in head && '>' !in q
    ensures ReplaceAll(head + CLOSE_TAG + q, CLOSE_TAG, " " + attr + CLOSE_TAG) == head + " " + attr + CLOSE_TAG + q
  {
    var rep := " " + attr + CLOSE_TAG;
    assert head + CLOSE_TAG + q == head + (CLOSE_TAG + q);
    calc {
      ReplaceAll(head + (CLOSE_TAG + q), CLOSE_TAG, rep);
      { ReplaceAllSkip(head, CLOSE_TAG + q, CLOSE_TAG, rep); }
      head + ReplaceAll(CLOSE_TAG + q, CLOSE_TAG, rep);
      { ReplaceAllHead(q, CLOSE_TAG, rep); }
      head + (rep + ReplaceAll(q, CLOSE_TAG, rep));
      { ReplaceAllUntouched(q, CLOSE_TAG, rep); }
      head + (rep + q);
    }
  }

  /** A tag without `></script>` is never rewritten. */
  lemma {:induction false} WithAttrsUntouched(tag: string, attrs: seq<string>)
    requires !Occurs(tag, CLOSE_TAG)
    ensures WithAttrs(tag, attrs) == tag
  {
    if attrs != [] {
      WithAttrsUntouched(tag, attrs[..|attrs| - 1]);
      ReplaceAllAbsent(tag, CLOSE_TAG, " " + attrs[|attrs| - 1] + CLOSE_TAG);
    }
  }

  /** With `async-defer` the enqueued tag gets both attributes, async first. */
  lemma AsyncDeferTag(options: Assoc, p: string, q: string)
    requires LoadingIs(options, "async-defer")
    requires '>' !in p && '>' !in q
    ensures WithAttrs(p + CLOSE_TAG + q, ScriptAttrs(options)) == p + " async defer" + CLOSE_TAG + q
  {
    assert ScriptAttrs(options) == ["async", "defer"];
    AsyncDeferSpaced();
    WithAttrsInserts(p, q, ["async", "defer"]);
  }

  lemma AsyncDeferSpaced()
    ensures Spaced(["async", "defer"]) == " async defer"
    ensures forall a :: a in ["async", "defer"] ==> '>' !in a
  {
    assert ["async", "defer"][..1] == ["async"];
    assert Spaced(["async"]) == Spaced([]) + " " + "async";
  }

  /** The host's segment has at most one "www." removed. */
  lemma {:induction false} ScriptUrlStripsOneWww(host: string, apiKey: Value)
    requires !StartsWith(host, "www.")
    ensures ScriptUrl("www." + host, apiKey) == ScriptUrl(host, apiKey)
    ensures ScriptUrl("www.www." + host, apiKey) == SCRIPT_BASE + ("www." + host) + "-" + ToStr(apiKey) + "/consent.js"
  {
    assert StripWww("www." + host) == host;
    assert "www.www." + host == "www." + ("www." + host);
    assert StripWww("www.www." + host) == "www." + host;
  }

  /** `www.example.com` with key `abc123` gives the segment `example.com-abc123`. */
  lemma ScriptUrlExample()
    ensures ScriptUrl("www.example.com", Str("abc123")) == SCRIPT_BASE + "example.com-abc123" + "/consent.js"
  {
    assert StripWww("www.example.com") == "example.com";
    assert "example.com" + "-" + "abc123" == "example.com-abc123";
  }
}
