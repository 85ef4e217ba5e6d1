/**
 * The PHP values the plugin's settings are made of, and the PHP built-ins
 * (isset, empty, string casts, in_array, str_replace) it applies to them.
 */
module Php {

  /**
   * A PHP value as it reaches the settings code: null, a string, or an
   * array, whose elements are kept in iteration order (array keys are not
   * modelled).
   */
  datatype Value = Null | Str(s: string) | Arr(items: seq<Value>)

  /** A PHP array with string keys, such as a submitted form or a stored option. */
  type Assoc = map<string, Value>

  /** `isset($m[$k])`: the key exists and its value is not null. */
  predicate Isset(m: Assoc, k: string) {
    k in m && !m[k].Null?
  }

  /** PHP's `empty()`: null, "", "0" and the empty array are empty. */
  predicate IsEmpty(v: Value): (r: bool)
    ensures !v.Arr? ==> (r <==> ToStr(v) == "" || ToStr(v) == "0")
    ensures v.Arr? ==> (r <==> |v.items| == 0)
  {
    match v
    case Null => true
    case Str(s) => s == "" || s == "0"
    case Arr(items) => items == []
  }

  /** The string conversion that `sprintf("%s", $v)` and `(string) $v` perform. */
  function ToStr(v: Value): string {
    match v
    case Null => ""
    case Str(s) => s
    case Arr(_) => "Array"
  }

  /**
   * `in_array($v, $haystack)` with PHP's loose comparison. Every haystack the
   * plugin uses holds non-numeric strings, against which loose comparison of
   * null, a string or an array is plain string equality.
   */
  predicate InArray(v: Value, haystack: seq<string>) {
    v.Str? && v.s in haystack
  }

  predicate StartsWith(s: string, prefix: string) {
    prefix <= s
  }

  /** `t` occurs somewhere in `s`. */
  predicate Occurs(s: string, t: string) {
    exists i :: 0 <= i <= |s| && t <= s[i..]
  }

  /** A prefix is an occurrence. */
  lemma PrefixOccurs(s: string, t: string)
    requires t <= s
    ensures Occurs(s, t)
  {
    assert s[0..] == s;
  }

  /** An occurrence after the first character is an occurrence. */
  lemma NoOccurrenceInTail(s: string, t: string)
    requires s != []
    ensures !Occurs(s, t) ==> !Occurs(s[1..], t)
  {
    if Occurs(s[1..], t) {
      var i :| 0 <= i <= |s[1..]| && t <= s[1..][i..];
      assert s[1..][i..] == s[i + 1..];
    }
  }

  /**
   * `str_replace($search, $rep, $s)`: scans `s` from the left and replaces
   * every non-overlapping occurrence of `search`; an empty `search` leaves
   * `s` unchanged.
   */
  function ReplaceAll(s: string, search: string, rep: string): (r: string)
    ensures search == [] ==> r == s
    decreases |s|
  {
    if search == [] || |s| < |search| then s
    else if s[..|search|] == search then rep + ReplaceAll(s[|search|..], search, rep)
    else [s[0]] + ReplaceAll(s[1..], search, rep)
  }

  /** A `search` that does not occur in `s` leaves `s` unchanged. */
  lemma {:induction false} ReplaceAllAbsent(s: string, search: string, rep: string)
    requires !Occurs(s, search)
    ensures ReplaceAll(s, search, rep) == s
    decreases |s|
  {
    if search != [] && |s| >= |search| {
      if s[..|search|] == search {
        PrefixOccurs(s, search);
      } else {
        NoOccurrenceInTail(s, search);
        ReplaceAllAbsent(s[1..], search, rep);
      }
    }
  }

  /** A string that does not contain the first character of `search` is left alone. */
  lemma {:induction false} ReplaceAllUntouched(s: string, search: string, rep: string)
    requires search != [] && search[0] !in s
    ensures ReplaceAll(s, search, rep) == s
  {
    if |s| >= |search| {
      assert s[..|search|][0] == s[0];
      ReplaceAllUntouched(s[1..], search, rep);
    }
  }

  /** A prefix without the first character of `search` is copied through. */
  lemma {:induction false} ReplaceAllSkip(p: string, t: string, search: string, rep: string)
    requires search != [] && search[0] !in p
    ensures ReplaceAll(p + t, search, rep) == p + ReplaceAll(t, search, rep)
  {
    if p != [] {
      var s := p + t;
      if |s| < |search| {
        assert ReplaceAll(t, search, rep) == t;
      } else {
        assert s[..|search|][0] == p[0];
        assert s[1..] == p[1..] + t;
        ReplaceAllSkip(p[1..], t, search, rep);
      }
    } else {
      assert p + t == t;
    }
  }

  /** An occurrence at the start is replaced and the scan goes on after it. */
  lemma ReplaceAllHead(t: string, search: string, rep: string)
    requires search != []
    ensures ReplaceAll(search + t, search, rep) == rep + ReplaceAll(t, search, rep)
  {
    var s := search + t;
    assert s[..|search|] == search;
    assert s[|search|..] == t;
  }
}
