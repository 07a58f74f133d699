/**
 * Deciding whether an element satisfies a rule's `filters`
 * (`matchesFilters` and `matchValue` in tools/hass/layout/index.js).
 */
module Matcher {
  import opened Wrappers
  import opened JsonValues
  import opened Runtime

  // ---------------------------------------------------------------------------
  // Recognising `/pattern/flags`: the regular expression ^\/(.*)\/(\w*)$
  // ---------------------------------------------------------------------------

  /** `\w` */
  predicate IsWordChar(c: char) {
    ('a' <= c <= 'z') || ('A' <= c <= 'Z') || ('0' <= c <= '9') || c == '_'
  }

  /** The characters `.` does not match. */
  predicate IsLineTerminator(c: char) {
    c == '\n' || c == '\r' || c == '\U{2028}' || c == '\U{2029}'
  }

  predicate AllWordChars(s: string) {
    forall i :: 0 <= i < |s| ==> IsWordChar(s[i])
  }

  predicate NoLineTerminator(s: string) {
    forall i :: 0 <= i < |s| ==> !IsLineTerminator(s[i])
  }

  /** The position of the last `/` in s. */
  function LastSlash(s: string): (r: Option<nat>)
    ensures r.Some? ==> r.value < |s| && s[r.value] == '/'
    ensures r.Some? ==> forall j :: r.value < j < |s| ==> s[j] != '/'
    ensures r.None? ==> forall j :: 0 <= j < |s| ==> s[j] != '/'
  {
    if s == [] then None
    else if s[|s| - 1] == '/' then Some(|s| - 1)
    else LastSlash(s[..|s| - 1])
  }

  /**
   * The captures `(pattern, flags)` of `/^\/(.*)\/(\w*)$/` on s. The greedy `.*`
   * stops at the last slash, because `\w` never matches a slash.
   */
  function RegexShape(s: string): (r: Option<(string, string)>)
    ensures r.Some? ==> s == "/" + r.value.0 + "/" + r.value.1
    ensures r.Some? ==> NoLineTerminator(r.value.0) && AllWordChars(r.value.1)
  {
    if |s| >= 2 && s[0] == '/' then
      match LastSlash(s)
      case Some(p) =>
        if 1 <= p && AllWordChars(s[p + 1..]) && NoLineTerminator(s[1..p]) then
          assert s == "/" + s[1..p] + "/" + s[p + 1..];
          Some((s[1..p], s[p + 1..]))
        else None
      case None => None
    else None
  }

  /** Every string built as `/pattern/flags` is recognised, with exactly those captures. */
  lemma RegexShapeComplete(pattern: string, flags: string)
    requires NoLineTerminator(pattern) && AllWordChars(flags)
    ensures RegexShape("/" + pattern + "/" + flags) == Some((pattern, flags))
  {
    var s := "/" + pattern + "/" + flags;
    var p := |pattern| + 1;
    assert s[p] == '/';
    assert forall j :: p < j < |s| ==> s[j] == flags[j - p - 1];
    assert LastSlash(s) == Some(p);
    assert s[1..p] == pattern;
    assert s[p + 1..] == flags;
  }

  /** A string of the expected value that is a filter pattern. */
  function RegexOf(expected: Json): Option<(string, string)> {
    match expected
    case Str(s) => RegexShape(s)
    case _ => None
  }

  // ---------------------------------------------------------------------------
  // String(actual ?? "")
  // ---------------------------------------------------------------------------

  /** `String(j)`: arrays are joined with commas, null members of an array read as empty. */
  function JsString(j: Json, host: Host): string
    decreases j, 1, 0
  {
    match j
    case Null => "null"
    case Bool(b) => if b then "true" else "false"
    case Num(n) => host.numberText(n)
    case Str(s) => s
    case Arr(items) => JoinItems(items, |items|, host)
    case Obj(_) => "[object Object]"
  }

  /** `items.slice(0, n).join(",")` */
  function JoinItems(items: seq<Json>, n: nat, host: Host): string
    requires n <= |items|
    decreases Arr(items), 0, n
  {
    if n == 0 then ""
    else
      var last := if items[n - 1] == Null then "" else JsString(items[n - 1], host);
      if n == 1 then last else JoinItems(items, n - 1, host) + "," + last
  }

  /** The text a filter pattern is run against: `String(actual ?? "")`. */
  function Subject(actual: Option<Json>, host: Host): (r: string)
    ensures actual.None? || actual == Some(Null) ==> r == ""
    ensures actual.Some? && actual.value.Str? ==> r == actual.value.s
    ensures actual.Some? && actual.value.Obj? ==> r == "[object Object]"
  {
    match actual
    case None => ""
    case Some(Null) => ""
    case Some(j) => JsString(j, host)
  }

  // ---------------------------------------------------------------------------
  // matchValue and matchesFilters
  // ---------------------------------------------------------------------------

  /**
   * `matchValue(actual, expected)`: an undefined expectation matches anything, a
   * `/pattern/flags` string is the host's regular expression test (false when the
   * pattern does not compile), and any other expectation asks for that very value.
   */
  function MatchValue(actual: Option<Json>, expected: Option<Json>, host: Host): (r: bool)
    ensures expected.None? ==> r
    ensures expected.Some? && RegexOf(expected.value).None? ==> (r <==> actual == expected)
    ensures expected.Some? && RegexOf(expected.value).Some? ==>
              var rx := RegexOf(expected.value).value;
              (r <==> host.regexTest(rx.0, rx.1, Subject(actual, host)) == Some(true))
  {
    match expected
    case None => true
    case Some(e) =>
      match RegexOf(e)
      case Some(rx) =>
        (match host.regexTest(rx.0, rx.1, Subject(actual, host))
         case Some(b) => b
         case None => false)
      case None =>
        // For null, arrays and objects the source compares JSON.stringify texts,
        // which on parsed values is equality that respects member order; for
        // the other values it compares with ===. Both come to value equality here.
        actual == Some(e)
  }

  /**
   * `matchesFilters(element, filters)`: an object or array filter matches iff every
   * one of its entries matches (array entries keyed by index); any other filter
   * matches everything.
   */
  function MatchesFilters(element: Option<Json>, filters: Json, host: Host): (r: bool)
    ensures filters.Obj? ==>
              (r <==> forall i :: 0 <= i < |filters.fields| ==>
                        EntryMatches(element, filters.fields[i].0, filters.fields[i].1, host))
    ensures filters.Arr? ==>
              (r <==> forall i :: 0 <= i < |filters.items| ==> EntryMatches(element, IndexKey(i), filters.items[i], host))
    ensures !IsContainer(filters) ==> r
    decreases filters, 1, 0
  {
    match filters
    case Obj(fields) => FieldsMatch(element, fields, |fields|, host)
    case Arr(items) => ItemsMatch(element, items, |items|, host)
    case _ => true
  }

  /**
   * The callback of `every` for one entry `[key, expected]`: a nested `{}` matches
   * even a missing attribute; a value that is neither an object nor a pattern asks
   * for exactly that value under the key.
   */
  function EntryMatches(element: Option<Json>, key: string, expected: Json, host: Host): (r: bool)
    ensures expected == Obj([]) ==> r
    ensures !expected.Obj? && RegexOf(expected).None? ==> (r <==> Get(element, key) == Some(expected))
    decreases expected, 2, 0
  {
    var actual := Get(element, key);
    if expected.Obj? then MatchesFilters(actual, expected, host)
    else MatchValue(actual, Some(expected), host)
  }

  /** `every` over the first n members of an object filter: each of them matches. */
  function FieldsMatch(element: Option<Json>, fields: seq<(string, Json)>, n: nat, host: Host): (r: bool)
    requires n <= |fields|
    ensures r <==> forall i :: 0 <= i < n ==> EntryMatches(element, fields[i].0, fields[i].1, host)
    decreases Obj(fields), 0, n
  {
    n == 0 || (FieldsMatch(element, fields, n - 1, host) && EntryMatches(element, fields[n - 1].0, fields[n - 1].1, host))
  }

  /** `every` over the first n entries of an array filter, whose keys are "0", "1", ...: each of them matches. */
  function ItemsMatch(element: Option<Json>, items: seq<Json>, n: nat, host: Host): (r: bool)
    requires n <= |items|
    ensures r <==> forall i :: 0 <= i < n ==> EntryMatches(element, IndexKey(i), items[i], host)
    decreases Arr(items), 0, n
  {
    n == 0 || (ItemsMatch(element, items, n - 1, host) && EntryMatches(element, IndexKey(n - 1), items[n - 1], host))
  }

  // ---------------------------------------------------------------------------
  // Properties
  // ---------------------------------------------------------------------------

  /** `{}` and any filter that is not an object or array match every element. */
  lemma WildcardFilters(element: Option<Json>, filters: Json, host: Host)
    requires filters == Obj([]) || filters == Arr([]) || !IsContainer(filters)
    ensures MatchesFilters(element, filters, host)
  {
  }

  /**
   * An attribute that reads as undefined (the element is missing, a scalar, or
   * lacks the key) fails any defined expectation that is neither an object nor a
   * pattern, so the whole filter fails.
   */
  lemma UndefinedFailsScalar(element: Option<Json>, fields: seq<(string, Json)>, i: nat, host: Host)
    requires i < |fields|
    requires !fields[i].1.Obj? && RegexOf(fields[i].1).None?
    requires Get(element, fields[i].0).None?
    ensures !MatchesFilters(element, Obj(fields), host)
  {
    assert !EntryMatches(element, fields[i].0, fields[i].1, host);
  }

  /** A pattern expectation is the host's regular expression test; a pattern that does not compile fails. */
  lemma PatternExpectation(actual: Option<Json>, pattern: string, flags: string, host: Host)
    requires NoLineTerminator(pattern) && AllWordChars(flags)
    ensures MatchValue(actual, Some(Str("/" + pattern + "/" + flags)), host) <==>
              host.regexTest(pattern, flags, Subject(actual, host)) == Some(true)
  {
    RegexShapeComplete(pattern, flags);
  }

  /**
   * Where `matchValue` compares an object (it serialises both sides), member
   * order counts, as it does for JSON.stringify.
   */
  lemma KeyOrderMatters(host: Host)
    ensures !MatchValue(Some(Obj([("a", Num(1.0)), ("b", Num(2.0))])),
                        Some(Obj([("b", Num(2.0)), ("a", Num(1.0))])), host)
  {
  }

  /**
   * An object inside an array expectation reaches `matchValue`, so it must have
   * its members in the same order: `{tags: [{a: 1, b: 2}]}` does not match
   * `{tags: [{b: 2, a: 1}]}`.
   */
  lemma KeyOrderInArray(host: Host)
    ensures !MatchesFilters(Some(Obj([("tags", Arr([Obj([("b", Num(2.0)), ("a", Num(1.0))])]))])),
                            Obj([("tags", Arr([Obj([("a", Num(1.0)), ("b", Num(2.0))])]))]), host)
  {
    var element := Obj([("tags", Arr([Obj([("b", Num(2.0)), ("a", Num(1.0))])]))]);
    var expected := Arr([Obj([("a", Num(1.0)), ("b", Num(2.0))])]);
    assert Keys(element.fields)[0] == "tags";
    assert Get(Some(element), "tags") == Some(Arr([Obj([("b", Num(2.0)), ("a", Num(1.0))])]));
    assert !EntryMatches(Some(element), "tags", expected, host);
  }

  /**
   * A plain-object expectation at filter level is matched key by key, so there
   * member order does not count: `{tags: {a: 1, b: 2}}` matches `{tags: {b: 2, a: 1}}`.
   */
  lemma KeyOrderIgnoredInObject(host: Host)
    ensures MatchesFilters(Some(Obj([("tags", Obj([("b", Num(2.0)), ("a", Num(1.0))]))])),
                           Obj([("tags", Obj([("a", Num(1.0)), ("b", Num(2.0))]))]), host)
  {
    var inner := [("b", Num(2.0)), ("a", Num(1.0))];
    var element := Obj([("tags", Obj(inner))]);
    var expected := Obj([("a", Num(1.0)), ("b", Num(2.0))]);
    assert Keys(element.fields)[0] == "tags";
    assert Get(Some(element), "tags") == Some(Obj(inner));
    assert Keys(inner)[0] == "b" && Keys(inner)[1] == "a";
    IndexOfAt(inner, 0, "b");
    IndexOfAt(inner, 1, "a");
    assert EntryMatches(Some(Obj(inner)), "a", Num(1.0), host);
    assert EntryMatches(Some(Obj(inner)), "b", Num(2.0), host);
    assert MatchesFilters(Some(Obj(inner)), expected, host);
    assert EntryMatches(Some(element), "tags", expected, host);
  }

  /** A nested object expectation against a string attribute fails: `{region: {"$eq": "us-east"}}`. */
  lemma NestedAgainstString(host: Host)
    ensures !MatchesFilters(Some(Obj([("region", Str("us-east"))])),
                            Obj([("region", Obj([("$eq", Str("us-east"))]))]), host)
  {
    var inner := [("$eq", Str("us-east"))];
    assert ParseIndex("$eq").None? by { assert !IsDigit("$eq"[0]); }
    UndefinedFailsScalar(Some(Str("us-east")), inner, 0, host);
  }

  /** `{name: "/^kitchen_/"}` asks the regular expression engine about the element's name. */
  lemma KitchenPattern(host: Host)
    ensures MatchesFilters(Some(Obj([("name", Str("kitchen_light"))])), Obj([("name", Str("/^kitchen_/"))]), host)
            <==> host.regexTest("^kitchen_", "", "kitchen_light") == Some(true)
  {
    assert "/^kitchen_/" == "/" + "^kitchen_" + "/" + "";
    PatternExpectation(Some(Str("kitchen_light")), "^kitchen_", "", host);
  }
}
