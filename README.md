# CookieFirst WordPress plugin: settings, banner and consent bridge

This project models the decision logic of the CookieFirst WordPress plugin
(`includes/class-cookiefirst-plugin.php`) in Dafny and proves properties of it.
The logic has three parts:

- **The settings sanitizer** (`sanitize_cf_settings`). WordPress runs it on
  every save of the `cf_settings` option. It keeps the API key, coerces
  `consent_type` and `script_loading` to their allowed values, turns the two
  checkboxes into `'true'` or `''`, and filters the four `*_mapping` lists
  against the five WordPress Consent API categories with `array_intersect`.
- **The banner** (`cf_footer_script`). It has four pieces:
  - the gate: a non-empty API key, plus preview suppression;
  - the `window.wp_consent_type` flag;
  - the CookieFirst script URL;
  - the `async`/`defer` attributes that the `script_loader_tag` filter writes
    into the `<script>` tag.
- **The consent bridge** (the `wp_footer` closure). It inverts the four
  mapping lists into a map from each WordPress category to the CookieFirst
  categories it depends on. The embedded `updateWPConsent` script then sets
  each mapped category to `allow` or `deny` from the `cookiefirst-consent`
  cookie. When there is no such cookie, it expires the `wp_consent_*`
  cookies instead.

Modules:

- **`Php`** holds the PHP values the plugin handles: `null`, strings and
  arrays. It also holds `isset`, `empty()`, string casts, loose `in_array` and
  `str_replace`.
- **`Sanitizer`** is the sanitizer, a pure function on key→value maps.
- **`Banner`** has the gate, flag, URL and attribute functions, and the tag
  filter as a method whose `foreach` rewrites the tag step by step.
- **`Bridge`** has two parts:
  - the mapping inversion: `BuildConsentMap`, which grows the map in four
    loops, proved equal to the declarative `Inverted`;
  - the per-category verdict: `ShouldAllow`, whose loop keeps a flag and
    `break`s.
- **`ConsentScript`** models the page as a class `ConsentPage`. Its fields are
  the cookie jar and the Consent API store. Its method `UpdateWpConsent` is
  proved equal to the state function `AfterUpdate`.
- **`Footer`** puts together one render of `cf_footer_script`. It also proves
  what the sanitizer guarantees about a later render.

Calls into WordPress and the browser are parameters:

- `sanitize_text_field` is a function `Value -> string`;
- `parse_url(home_url(), PHP_URL_HOST)` is the host string;
- `is_preview() || is_customize_preview()` is a boolean, and so is
  `is_plugin_active('wp-consent-api/...')`;
- `typeof wp_set_consent === 'function'` is a boolean;
- `JSON.parse(decodeURIComponent(...))` is a function from the cookie value
  to an optional consent record.

A missing option (`get_option` returns `false`) is the empty map.

Behaviours of the code that a reader of the plugin's description might not
expect. The model follows the code in each case:

- Preview suppression tests only whether the `should_show_in_preview` key is
  present (line 867). The sanitizer always writes that key (line 422). So a
  preview shows the banner for any settings saved through the sanitizer,
  whatever the checkbox says (`Footer.SanitizedIgnoresPreview`).
- `empty()` treats an API key of `"0"` as missing (`Banner.ShouldEmit`).
- The mapping lists are sequences, not sets: `array_intersect` keeps input
  order and repetitions (`Sanitizer.IntersectCategoriesCount`,
  `Sanitizer.IntersectCategoriesIsSubseq`). A repeated category repeats its
  CookieFirst category in the inverted map (`Bridge.InvertedLength`).
- A saved empty mapping list is `isset`, so it replaces the default list
  instead of falling back to it (`Footer.EmptyMappingOverridesDefault`).
- Sanitizing stored settings a second time is not the identity. The stored
  `''` of an unticked checkbox is `isset`, so both checkboxes come back as
  `'true'` (`Sanitizer.ResanitizeTurnsCheckboxesOn`).
- A mapping list stored with an array as an element makes
  `$wp_to_cf_map[$wp_category]` an illegal offset, which throws a `TypeError`
  on PHP 8. The model returns `MappingError` (`Bridge.ArrayKeys`,
  `Bridge.ReadMappings`). Settings that went through the sanitizer never reach
  it (`Footer.SanitizedBridgeValid`).
- A mapping setting stored as a string is `isset`, so it replaces the default,
  but `foreach` over a string iterates nothing: the list is read as empty
  (`Bridge.MappingList`).

## Model

| member | source | states |
|---|---|---|
| Sanitizer.Sanitize | includes/class-cookiefirst-plugin.php:398-445 | The output has no key other than the nine settings keys. `api_key` is kept (passed through `sanitize_text_field`) exactly when it is set. `consent_type` and `script_loading` are present exactly when set; each is the input value when that value is allowed, else the default (`opt-in`, `do-nothing`), so it is always allowed. Both checkboxes are always present: `'true'` when set, else `''`. A mapping key is present exactly when the input value is an array, and it then holds the filtered list. |
| Sanitizer.IntersectCategories | includes/class-cookiefirst-plugin.php:426-442 | Every element of the filtered list is one of the five WordPress categories and comes from the input list. |
| Sanitizer.IntersectCategoriesCount | includes/class-cookiefirst-plugin.php:426-442 | The filtered list holds each valid category exactly as many times as the input does, and nothing else. |
| Sanitizer.IntersectCategoriesIsSubseq | includes/class-cookiefirst-plugin.php:426-442 | The filtered list is a subsequence of the input, so input order is kept. |
| Sanitizer.IntersectCategoriesKeepsValid | includes/class-cookiefirst-plugin.php:426-442 | A list made only of valid categories passes the filter unchanged. |
| Sanitizer.IntersectCategoriesIdempotent | includes/class-cookiefirst-plugin.php:426-442 | Filtering a filtered list again changes nothing. |
| Sanitizer.ResanitizeTurnsCheckboxesOn | includes/class-cookiefirst-plugin.php:398-445 | Sanitizing the stored settings again keeps the key, the enumerated fields and the mapping lists (given an idempotent `sanitize_text_field`), and sets both checkboxes to `'true'`. |
| Banner.ShouldEmit | includes/class-cookiefirst-plugin.php:865-873 | The script is emitted only when `api_key` is present and is neither `""` nor `"0"`, and only outside a preview unless the `should_show_in_preview` key is present. Conversely, a non-empty string key that is not `"0"`, together with the preview condition, causes emission. |
| Banner.ConsentFlag | includes/class-cookiefirst-plugin.php:875-879 | The flag is `optin` or `optout`. It is `optin` exactly when `consent_type` is unset or is `opt-in`. |
| Banner.ScriptAttrs | includes/class-cookiefirst-plugin.php:883-894 | `async` is an attribute exactly for `async` and `async-defer`, and `defer` exactly for `defer` and `async-defer`. There are no other attributes and at most two; two means `[async, defer]` in that order. |
| Banner.StripWww | includes/class-cookiefirst-plugin.php:899 | The host either comes back unchanged or loses one leading `www.`. It loses it exactly when it starts with `www.`. |
| Banner.ScriptUrl | includes/class-cookiefirst-plugin.php:899 | The URL is `https://consent.cookiefirst.com/sites/`, then the host with one leading `www.` removed when it has one, then `-`, the API key as a string and `/consent.js`. |
| Banner.ScriptUrlStripsOneWww | includes/class-cookiefirst-plugin.php:899 | One leading `www.` does not change the URL. A second `www.` stays in the URL. |
| Banner.ScriptUrlExample | includes/class-cookiefirst-plugin.php:899 | `www.example.com` with key `abc123` gives `https://consent.cookiefirst.com/sites/example.com-abc123/consent.js`. |
| Banner.FilterScriptTag | includes/class-cookiefirst-plugin.php:906-913 | For the `cookiefirst-script` handle with a non-empty attribute list, the tag is the result of one `str_replace` per attribute, in order. For any other handle, or no attributes, the tag is unchanged. |
| Banner.WithAttrsInserts | includes/class-cookiefirst-plugin.php:906-913 | On a tag whose only `>` is the one in `></script>`, the filter places the attributes right before `></script>`, each preceded by a space, in list order. |
| Banner.WithAttrsUntouched | includes/class-cookiefirst-plugin.php:906-913 | A tag without `></script>` is never rewritten. |
| Banner.AsyncDeferTag | includes/class-cookiefirst-plugin.php:883-913 | With `async-defer`, such a tag gets ` async defer` before `></script>`. |
| Php.IsEmpty | includes/class-cookiefirst-plugin.php:865 | `empty()` holds for `null`, `""` and `"0"` and for an empty array, and for nothing else. |
| Php.ReplaceAll | includes/class-cookiefirst-plugin.php:909 | `str_replace` with an empty search string returns the subject unchanged. |
| Php.ReplaceAllAbsent | includes/class-cookiefirst-plugin.php:909 | `str_replace` returns a subject in which the search string does not occur unchanged. |
| Php.ReplaceAllHead | includes/class-cookiefirst-plugin.php:909 | `str_replace` replaces an occurrence at the start of the subject and goes on after it. |
| Php.ReplaceAllSkip | includes/class-cookiefirst-plugin.php:909 | `str_replace` leaves a prefix that cannot start an occurrence untouched. |
| Php.ReplaceAllUntouched | includes/class-cookiefirst-plugin.php:909 | `str_replace` leaves a subject without the search string's first character unchanged. |
| Bridge.ArrayKeys | includes/class-cookiefirst-plugin.php:939-965 | A mapping list can be used as map keys exactly when none of its elements is an array. Each key is then the element cast to a string, in order. |
| Bridge.MappingList | includes/class-cookiefirst-plugin.php:930-933 | An unset list is the default. A set array is read element by element as strings, and reading fails exactly when an element is an array. A set non-array value (a string) is read as the empty list. |
| Bridge.ReadMappings | includes/class-cookiefirst-plugin.php:930-965 | Reading the four lists fails exactly when one of the four set lists has an array as an element. |
| Bridge.DefaultMappings | includes/class-cookiefirst-plugin.php:930-933 | With none of the four lists set, they are `[marketing]`, `[functional]`, `[statistics]` and `[preferences, statistics-anonymous]`. |
| Bridge.AppendCategory | includes/class-cookiefirst-plugin.php:939-944 | One `foreach` adds every category of the list as a key. For each key it appends the CookieFirst category once per occurrence, after what was already there. |
| Bridge.BuildConsentMap | includes/class-cookiefirst-plugin.php:936-965 | The four loops build exactly `Inverted(lists)`: the keys are the categories mentioned in some list, and each key holds advertising, functional, performance and necessary, in that order, once per occurrence in the matching list. |
| Bridge.InvertedMembership | includes/class-cookiefirst-plugin.php:936-965 | A CookieFirst category is in `map[w]` exactly when `w` is in that category's list (advertising ← marketing, functional ← functional, performance ← statistics, necessary ← preferences). |
| Bridge.InvertedLength | includes/class-cookiefirst-plugin.php:936-965 | `|map[w]|` is the total number of occurrences of `w` in the four lists. |
| Bridge.InvertedKeys | includes/class-cookiefirst-plugin.php:936-965 | `w` is a key exactly when some list mentions it. |
| Bridge.DefaultConsentMap | includes/class-cookiefirst-plugin.php:930-965 | The inversion of the default lists is `DEFAULT_PAIRING`, which is marketing→[advertising], functional→[functional], statistics→[performance], preferences→[necessary] and statistics-anonymous→[necessary]. |
| Bridge.ShouldAllow | includes/class-cookiefirst-plugin.php:1014-1033 | The inner loop's flag ends true exactly when every CookieFirst category in the list is granted by the consent record. |
| Bridge.BridgeVerdict | includes/class-cookiefirst-plugin.php:1013-1036 | A mapped WordPress category is allowed exactly when, for each list that mentions it, the matching CookieFirst category is granted. |
| Bridge.BridgeExample | includes/class-cookiefirst-plugin.php:1013-1036 | Take marketing mapped to `[marketing, preferences]`, the other lists at their defaults, and advertising and necessary granted. Then marketing, preferences and statistics-anonymous are allowed, and functional and statistics are denied. |
| ConsentScript.FindConsentCookie | includes/class-cookiefirst-plugin.php:982 | No row is found exactly when no row starts with `cookiefirst-consent=`. A row that is found is one of the jar's rows. |
| ConsentScript.BeforeEq | includes/class-cookiefirst-plugin.php:992 | `split("=")[0]` is a prefix of the row and holds no `=`. It is the whole row, or it stops right before the row's first `=`. |
| ConsentScript.AfterEq | includes/class-cookiefirst-plugin.php:1003 | A row without `=` gives the empty string. Otherwise the row is its text before the first `=`, then `=`, then the result. |
| ConsentScript.CookieValue | includes/class-cookiefirst-plugin.php:1003 | `split("=")[1]` holds no `=`. |
| ConsentScript.AfterEqSkip | includes/class-cookiefirst-plugin.php:1003 | For a name without `=`, the text after the first `=` of `name=v` is `v`. |
| ConsentScript.CookieValueOfConsentRow | includes/class-cookiefirst-plugin.php:982-1003 | For the row `cookiefirst-consent=v`, the value handed to decoding is `v` up to its first `=`. |
| ConsentScript.AfterUpdate | includes/class-cookiefirst-plugin.php:969-1046 | Without `wp_set_consent` nothing changes. The cookie jar changes only when there is no consent cookie. The consent store changes only when there is one. |
| ConsentScript.AfterUpdateParseFails | includes/class-cookiefirst-plugin.php:1002-1045 | A consent cookie whose value fails to decode or parse leaves the cookies and the consent store unchanged: the error is caught. |
| ConsentScript.ConsentPage.UpdateWpConsent | includes/class-cookiefirst-plugin.php:969-1046 | The new cookie jar and consent store are exactly `AfterUpdate` of the old ones. |
| ConsentScript.ConsentPage.ExpireWpCookies | includes/class-cookiefirst-plugin.php:988-998 | The loop removes every row whose name is that of a `wp_consent_` row, which leaves exactly the jar without its `wp_consent_` rows. The consent store is unchanged. |
| ConsentScript.DropWpNames | includes/class-cookiefirst-plugin.php:988-998 | Dropping the rows named like a `wp_consent_` row is the same as dropping the `wp_consent_` rows. |
| ConsentScript.WithoutWpCookiesSpec | includes/class-cookiefirst-plugin.php:988-998 | After the sweep, the jar holds exactly the rows that do not start with `wp_consent_`, in their old order. |
| ConsentScript.AfterUpdateDecides | includes/class-cookiefirst-plugin.php:1002-1042 | With a consent cookie that parses, each mapped category becomes `allow` exactly when all its CookieFirst categories are granted, and `deny` otherwise. Unmapped categories keep their consent, the store gains exactly the mapped keys, and the cookies do not change. |
| ConsentScript.AfterUpdateWithoutCookie | includes/class-cookiefirst-plugin.php:982-999 | Without a consent cookie no consent is set. Exactly the `wp_consent_` rows go, and the rest keep their order. |
| ConsentScript.AfterUpdateIdempotent | includes/class-cookiefirst-plugin.php:969-1046 | Running `updateWPConsent` a second time on its own result changes nothing. |
| Footer.FooterBridge | includes/class-cookiefirst-plugin.php:916-965 | The bridge is left out exactly when the Consent API plugin is inactive. It is an error exactly when the plugin is active and the lists cannot be read. Otherwise the map's keys are exactly the categories the lists mention. |
| Footer.FooterScript | includes/class-cookiefirst-plugin.php:861-927 | Something is emitted exactly when the gate opens. The script URL is built from the host and the API key. The bridge is left out exactly when the Consent API plugin is inactive. |
| Footer.SanitizedIgnoresPreview | includes/class-cookiefirst-plugin.php:865-871 | For sanitized settings, a preview render emits the same thing as a normal render. |
| Footer.SanitizedConsentFlag | includes/class-cookiefirst-plugin.php:875-879 | For sanitized settings, the flag is `optout` exactly when `opt-out` was submitted. |
| Footer.SanitizedListValid | includes/class-cookiefirst-plugin.php:930-933 | A mapping list read from sanitized settings can always be used as map keys, and it names only WordPress categories. |
| Footer.SanitizedMappingsValid | includes/class-cookiefirst-plugin.php:930-933 | All four lists read from sanitized settings can be used as keys, and every category they mention is a WordPress category. |
| Footer.SanitizedBridgeValid | includes/class-cookiefirst-plugin.php:916-965 | For sanitized settings with the Consent API active, a render that emits always emits the bridge map, never an error. The map's keys are WordPress categories only. |
| Footer.EmptyMappingOverridesDefault | includes/class-cookiefirst-plugin.php:930 | A submitted empty `marketing_mapping` is always read back, and as an empty list, not as the default `[marketing]`. |

## Left out

- Hook and loader wiring, the constructor, admin menus, settings registration, field and section rendering, the jQuery tag-input widget, the shortcode and the Gutenberg block. They are output and registration, not logic.
- `sanitize_text_field`, `parse_url(home_url())`, `is_preview`/`is_customize_preview`, `is_plugin_active`, `typeof wp_set_consent`, `decodeURIComponent` and `JSON.parse` are calls into WordPress or the browser. Each is a parameter, so what they compute is not modelled; record fields that are missing or falsy are whatever `parse` returns for them.
- `wp_enqueue_script`, `add_filter`, `add_action` and `json_encode` are not modelled. The emitted values and the filter closure are modelled directly.
- PHP booleans, integers, floats and objects as setting values are not modelled; a value is `null`, a string or an array. The same goes for PHP array keys: a mapping list is the sequence of its values, which is all the plugin's `foreach` reads.
- The debug mode. It only adds `console.log` output, which is not modelled.
- `setTimeout` and the `cf_consent`/`cf_consent_loaded` listeners. They only decide when `updateWPConsent` runs.
- JavaScript `for ... in` key order over `wpToCfMap`. The map is a Dafny `map`, and the final store does not depend on the order.
- The cookies `wp_set_consent` writes. The Consent API keeps its consent in `wp_consent_*` cookies; this model keeps that consent in a store of its own, apart from the cookie jar. So in the model the sweep of the `wp_consent_` rows is what clears consent when there is no consent cookie, and the store itself is left as it was. `wp_set_consent` is a foreign call.
- PHP 7 behaviour for a mapping list with an array element: PHP 7 skips that element with a warning instead of throwing. The model follows PHP 8 and returns `MappingError`.
- ConsentScript.ConsentPage.ExpireWpCookies: an expired cookie is modelled as a row removed by name. Browser path and domain matching for `path=/` is not modelled.
- Footer.FooterScript: `$options && ...` treats an empty option array as falsy. The model gives the same result, because an empty map has no `api_key`.
