/**
 * `applyOverrides` and `applyScaleOnly` in tools/hass/layout/index.js: the
 * callback that tries every rule on a visited element, and the two entry points.
 */
module Engine {
  import opened Wrappers
  import opened JsonValues
  import opened Runtime
  import opened Matcher
  import opened Merger
  import opened Scaler
  import opened Traversal

  /** `rule.filters || {}`: the rule's filters, or `{}` when they are missing or falsy. */
  function FiltersOf(rule: Json): (r: Json)
    ensures Some(r) == Get(Some(rule), "filters") || r == Obj([])
    ensures !Falsy(r)
    ensures var f := Get(Some(rule), "filters"); f.Some? && !Falsy(f.value) ==> r == f.value
  {
    match Get(Some(rule), "filters")
    case Some(f) => if Falsy(f) then Obj([]) else f
    case None => Obj([])
  }

  /** The element after some rules have been tried, and whether any of them matched. */
  datatype Outcome = Outcome(element: Json, matched: bool)

  /** `!rule || typeof rule !== "object"`: the rules that are skipped without a look. */
  predicate Skipped(rule: Json) {
    !IsContainer(rule)
  }

  /** The loop body for one rule: skip it, or merge it when its filters match the element as it now is. */
  function Try(o: Outcome, rule: Json, host: Host): (r: Outcome)
    ensures r == o || r == Outcome(Merged(o.element, rule), true)
    ensures Skipped(rule) ==> r == o
  {
    if Skipped(rule) then o
    else if !MatchesFilters(Some(o.element), FiltersOf(rule), host) then o
    else Outcome(Merged(o.element, rule), true)
  }

  /** `overrides.forEach(...)` over the first n rules. */
  function RunRules(element: Json, rules: seq<Json>, n: nat, host: Host): Outcome
    requires n <= |rules|
  {
    if n == 0 then Outcome(element, false) else Try(RunRules(element, rules, n - 1, host), rules[n - 1], host)
  }

  /**
   * The callback `applyOverrides` hands to `traverse`: an element no rule matches is
   * left as it was, objects stay objects, and an array element is never written.
   */
  function Visit(element: Json, rules: seq<Json>, factor: Factor, host: Host): (r: Json)
    ensures !RunRules(element, rules, |rules|, host).matched ==> r == element
    ensures r.Obj? == element.Obj?
    ensures !element.Obj? ==> r == element
  {
    MatchedIffFired(element, rules, |rules|, host);
    RunRulesKind(element, rules, |rules|, host);
    var o := RunRules(element, rules, |rules|, host);
    if o.matched then ApplyScale(o.element, factor, host) else o.element
  }

  /** The callback with its `let matched` flag and its loop over the rules. */
  method VisitElement(element: Json, rules: seq<Json>, factor: Factor, host: Host) returns (r: Json)
    ensures r == Visit(element, rules, factor, host)
  {
    var current := element;
    var matched := false;
    var i := 0;
    while i < |rules|
      invariant 0 <= i <= |rules|
      invariant Outcome(current, matched) == RunRules(element, rules, i, host)
    {
      var rule := rules[i];
      if !Skipped(rule) && MatchesFilters(Some(current), FiltersOf(rule), host) {
        matched := true;
        current := MergeRule(current, rule);
      }
      i := i + 1;
    }
    if matched {
      current := ApplyScale(current, factor, host);
    }
    r := current;
  }

  function Visitor(rules: seq<Json>, factor: Factor, host: Host): Json -> Json {
    (element: Json) => Visit(element, rules, factor, host)
  }

  function ScaleVisitor(factor: Factor, host: Host): Json -> Json {
    (element: Json) => ApplyScale(element, factor, host)
  }

  /** Every rule in the list writes no `elements` (the condition under which the walk is modelled). */
  predicate SafeRules(rules: seq<Json>) {
    forall i :: 0 <= i < |rules| ==> WritesNoElements(rules[i])
  }

  /** The rules that `applyOverrides` runs, if any: a non-empty array. */
  predicate HasRules(overrides: Json) {
    overrides.Arr? && |overrides.items| > 0
  }

  lemma {:induction false} RunRulesWeight(element: Json, rules: seq<Json>, n: nat, host: Host)
    requires n <= |rules| && SafeRules(rules)
    ensures Weight(RunRules(element, rules, n, host).element) <= Weight(element)
    decreases n, 1
  {
    if n > 0 {
      RunRulesWeightStep(element, rules, n, host);
    }
  }

  /** The rules before rule n add no weight, and neither does rule n. */
  lemma {:induction false} RunRulesWeightStep(element: Json, rules: seq<Json>, n: nat, host: Host)
    requires 0 < n <= |rules| && SafeRules(rules)
    ensures Weight(RunRules(element, rules, n, host).element) <= Weight(element)
    decreases n, 0
  {
    RunRulesWeight(element, rules, n - 1, host);
    var o := RunRules(element, rules, n - 1, host);
    assert WritesNoElements(rules[n - 1]);
    TryWeight(o, rules[n - 1], host);
    assert RunRules(element, rules, n, host) == Try(o, rules[n - 1], host);
  }

  lemma TryWeight(o: Outcome, rule: Json, host: Host)
    requires WritesNoElements(rule)
    ensures Weight(Try(o, rule, host).element) <= Weight(o.element)
  {
    MergeWeight(o.element, rule);
  }

  /** With safe rules the callback never adds traversal work. */
  lemma VisitorNonIncreasing(rules: seq<Json>, factor: Factor, host: Host)
    requires SafeRules(rules)
    ensures NonIncreasing(Visitor(rules, factor, host))
  {
    forall x ensures Weight(Visitor(rules, factor, host)(x)) <= Weight(x) {
      RunRulesWeight(x, rules, |rules|, host);
      ScaleWeight(RunRules(x, rules, |rules|, host).element, factor, host);
    }
  }

  lemma ScaleVisitorNonIncreasing(factor: Factor, host: Host)
    ensures NonIncreasing(ScaleVisitor(factor, host))
  {
    forall x ensures Weight(ScaleVisitor(factor, host)(x)) <= Weight(x) {
      ScaleWeight(x, factor, host);
    }
  }

  /**
   * `applyScaleOnly(data, scaleFactor)`: a factor that scales nothing, or a document
   * without `elements` arrays, comes back unchanged; otherwise the document keeps its shape.
   */
  function ScaleOnly(data: Json, factor: Factor, host: Host): (r: Json)
    ensures NoScale(factor) ==> r == data
    ensures ElementsFree(data) ==> r == data
    ensures SameShape(data, r)
  {
    if NoScale(factor) then data
    else
      ScaleVisitorNonIncreasing(factor, host);
      UntouchedWhenFree(data, ScaleVisitor(factor, host));
      Traverse(data, ScaleVisitor(factor, host)).value
  }

  /** `applyOverrides(data, overrides, scaleFactor)` */
  function Overridden(data: Json, overrides: Json, factor: Factor, host: Host): (r: Json)
    requires HasRules(overrides) ==> SafeRules(overrides.items)
    ensures !HasRules(overrides) && NoScale(factor) ==> r == data
    ensures ElementsFree(data) ==> r == data
    ensures SameShape(data, r)
  {
    if !HasRules(overrides) then ScaleOnly(data, factor, host)
    else
      VisitorNonIncreasing(overrides.items, factor, host);
      UntouchedWhenFree(data, Visitor(overrides.items, factor, host));
      Traverse(data, Visitor(overrides.items, factor, host)).value
  }

  /** `applyScaleOnly` as the source runs it. */
  method ApplyScaleOnly(data: Json, factor: Factor, host: Host) returns (r: Json)
    ensures r == ScaleOnly(data, factor, host)
  {
    if NoScale(factor) {
      return data;
    }
    ScaleVisitorNonIncreasing(factor, host);
    var w := TraverseNode(data, ScaleVisitor(factor, host));
    r := w.value;
  }

  /** `applyOverrides` as the source runs it. */
  method ApplyOverrides(data: Json, overrides: Json, factor: Factor, host: Host) returns (r: Json)
    requires HasRules(overrides) ==> SafeRules(overrides.items)
    ensures r == Overridden(data, overrides, factor, host)
  {
    if !HasRules(overrides) {
      r := ApplyScaleOnly(data, factor, host);
      return;
    }
    VisitorNonIncreasing(overrides.items, factor, host);
    var w := TraverseNode(data, Visitor(overrides.items, factor, host));
    r := w.value;
  }

  // ---------------------------------------------------------------------------
  // Properties
  // ---------------------------------------------------------------------------

  /** The element as it is when rule i is tried: after the merges of the rules before it. */
  function Before(element: Json, rules: seq<Json>, i: nat, host: Host): Json
    requires i <= |rules|
  {
    RunRules(element, rules, i, host).element
  }

  /** Rule i matches: it is an object or array and its filters hold of the element as it then is. */
  predicate Fires(element: Json, rules: seq<Json>, i: nat, host: Host)
    requires i < |rules|
  {
    !Skipped(rules[i]) && MatchesFilters(Some(Before(element, rules, i, host)), FiltersOf(rules[i]), host)
  }

  /** Some rule matched exactly when one of them fired; until then the element is untouched. */
  lemma {:induction false} MatchedIffFired(element: Json, rules: seq<Json>, n: nat, host: Host)
    requires n <= |rules|
    ensures RunRules(element, rules, n, host).matched <==> exists i :: 0 <= i < n && Fires(element, rules, i, host)
    ensures !RunRules(element, rules, n, host).matched ==> RunRules(element, rules, n, host).element == element
  {
    if n > 0 {
      MatchedIffFired(element, rules, n - 1, host);
      if Fires(element, rules, n - 1, host) {
        assert RunRules(element, rules, n, host).matched;
      } else if RunRules(element, rules, n, host).matched {
        var i :| 0 <= i < n - 1 && Fires(element, rules, i, host);
      }
    }
  }

  /** Merging never changes the kind of the element, and an element that is not an object is never written. */
  lemma {:induction false} RunRulesKind(element: Json, rules: seq<Json>, n: nat, host: Host)
    requires n <= |rules|
    ensures RunRules(element, rules, n, host).element.Obj? == element.Obj?
    ensures !element.Obj? ==> RunRules(element, rules, n, host).element == element
  {
    if n > 0 {
      RunRulesKind(element, rules, n - 1, host);
    }
  }

  /** Each rule that fires is merged at once, over the merges of the rules before it. */
  lemma FiredMerges(element: Json, rules: seq<Json>, i: nat, host: Host)
    requires i < |rules|
    ensures Before(element, rules, i + 1, host) ==
              if Fires(element, rules, i, host) then Merged(Before(element, rules, i, host), rules[i])
              else Before(element, rules, i, host)
  {
  }

  /** Scaling runs at most once per visit, and only when some rule fired. */
  lemma ScaleOnlyWhenFired(element: Json, rules: seq<Json>, factor: Factor, host: Host)
    ensures (exists i :: 0 <= i < |rules| && Fires(element, rules, i, host)) ==>
              Visit(element, rules, factor, host) == ApplyScale(Before(element, rules, |rules|, host), factor, host)
    ensures (forall i :: 0 <= i < |rules| ==> !Fires(element, rules, i, host)) ==>
              Visit(element, rules, factor, host) == element
  {
    MatchedIffFired(element, rules, |rules|, host);
  }

  /**
   * The last matching rule wins: when rule i fires and its payload sets k to a
   * value that is not a plain object, the element holds exactly that value
   * right after it, and still after every later rule, as long as no later rule
   * that fires mentions k in its payload.
   */
  lemma LastWriterWins(element: Json, rules: seq<Json>, i: nat, n: nat, k: string, v: Json, host: Host)
    requires i < n <= |rules| && WellFormed(rules[i]) && Before(element, rules, i, host).Obj?
    requires Fires(element, rules, i, host)
    requires (k, v) in Entries(Payload(rules[i])) && !IsControlKey(k) && !IsPlainObject(v)
    requires forall j :: i < j < n && Fires(element, rules, j, host) ==> k !in Keys(Entries(Payload(rules[j])))
    ensures Before(element, rules, n, host).Obj?
    ensures Lookup(Before(element, rules, n, host).fields, k) == Some(v)
  {
    FiredWrites(element, rules, i, k, v, host);
    KeptThrough(element, rules, i, n, k, host);
  }

  lemma FiredWrites(element: Json, rules: seq<Json>, i: nat, k: string, v: Json, host: Host)
    requires i < |rules| && WellFormed(rules[i]) && Before(element, rules, i, host).Obj?
    requires Fires(element, rules, i, host)
    requires (k, v) in Entries(Payload(rules[i])) && !IsControlKey(k) && !IsPlainObject(v)
    ensures Before(element, rules, i + 1, host).Obj?
    ensures Lookup(Before(element, rules, i + 1, host).fields, k) == Some(v)
  {
    MergeWritesPayload(Before(element, rules, i, host).fields, rules[i], k, v);
  }

  /**
   * The rules after rule m and before rule n leave k's value alone when none of
   * them that fires mentions k in its payload.
   */
  lemma {:induction false} KeptThrough(element: Json, rules: seq<Json>, m: nat, n: nat, k: string, host: Host)
    requires m < n <= |rules| && Before(element, rules, m + 1, host).Obj?
    requires forall j :: m < j < n && Fires(element, rules, j, host) ==> k !in Keys(Entries(Payload(rules[j])))
    ensures Before(element, rules, n, host).Obj?
    ensures Lookup(Before(element, rules, n, host).fields, k) == Lookup(Before(element, rules, m + 1, host).fields, k)
    decreases n - m, 1
  {
    if m + 1 < n {
      KeptThroughStep(element, rules, m, n, k, host);
    }
  }

  /** The case m + 1 < n of KeptThrough: rule m + 1 keeps k, by firing without mentioning it or by not firing. */
  lemma {:induction false} KeptThroughStep(element: Json, rules: seq<Json>, m: nat, n: nat, k: string, host: Host)
    requires m + 1 < n <= |rules| && Before(element, rules, m + 1, host).Obj?
    requires forall j :: m < j < n && Fires(element, rules, j, host) ==> k !in Keys(Entries(Payload(rules[j])))
    ensures Before(element, rules, n, host).Obj?
    ensures Lookup(Before(element, rules, n, host).fields, k) == Lookup(Before(element, rules, m + 1, host).fields, k)
    decreases n - m, 0
  {
    if Fires(element, rules, m + 1, host) {
      UnmentionedKept(element, rules, m + 1, k, host);
    } else {
      FiredMerges(element, rules, m + 1, host);
    }
    KeptThrough(element, rules, m + 1, n, k, host);
  }

  /** A rule whose payload does not mention k leaves k's value alone, fired or not. */
  lemma UnmentionedKept(element: Json, rules: seq<Json>, m: nat, k: string, host: Host)
    requires m < |rules| && Before(element, rules, m, host).Obj?
    requires k !in Keys(Entries(Payload(rules[m])))
    ensures Before(element, rules, m + 1, host).Obj?
    ensures Lookup(Before(element, rules, m + 1, host).fields, k) == Lookup(Before(element, rules, m, host).fields, k)
  {
    var o := RunRules(element, rules, m, host);
    TryKeeps(o, rules[m], k, host);
    assert RunRules(element, rules, m + 1, host) == Try(o, rules[m], host);
  }

  lemma TryKeeps(o: Outcome, rule: Json, k: string, host: Host)
    requires o.element.Obj? && k !in Keys(Entries(Payload(rule)))
    ensures Try(o, rule, host).element.Obj?
    ensures Lookup(Try(o, rule, host).element.fields, k) == Lookup(o.element.fields, k)
  {
    MergeKeepsUnmentioned(o.element.fields, rule, k);
  }

  /** Rules are skipped on `null` and primitives: dropping them changes nothing. */
  function RuleObjects(rules: seq<Json>): (r: seq<Json>)
    ensures forall x :: x in r <==> x in rules && !Skipped(x)
    ensures |r| <= |rules|
  {
    if rules == [] then []
    else
      var init := RuleObjects(rules[..|rules| - 1]);
      var last := rules[|rules| - 1];
      assert rules == rules[..|rules| - 1] + [last];
      if Skipped(last) then init else init + [last]
  }

  lemma {:induction false} RunRulesPrefix(element: Json, a: seq<Json>, b: seq<Json>, n: nat, host: Host)
    requires n <= |a|
    ensures RunRules(element, a + b, n, host) == RunRules(element, a, n, host)
  {
    if n > 0 {
      RunRulesPrefix(element, a, b, n - 1, host);
      assert (a + b)[n - 1] == a[n - 1];
    }
  }

  lemma {:induction false} SkippedRulesIgnored(element: Json, rules: seq<Json>, host: Host)
    ensures RunRules(element, rules, |rules|, host) == RunRules(element, RuleObjects(rules), |RuleObjects(rules)|, host)
  {
    if rules != [] {
      var init := rules[..|rules| - 1];
      var last := rules[|rules| - 1];
      assert rules == init + [last];
      SkippedRulesIgnored(element, init, host);
      SkippedRulesStep(element, init, last, host);
    }
  }

  lemma SkippedRulesStep(element: Json, init: seq<Json>, last: Json, host: Host)
    requires RunRules(element, init, |init|, host) == RunRules(element, RuleObjects(init), |RuleObjects(init)|, host)
    ensures var rules := init + [last];
            RunRules(element, rules, |rules|, host) == RunRules(element, RuleObjects(rules), |RuleObjects(rules)|, host)
  {
    var rules := init + [last];
    var kept := RuleObjects(init);
    assert rules[..|rules| - 1] == init;
    RunRulesPrefix(element, init, [last], |init|, host);
    var o := RunRules(element, kept, |kept|, host);
    assert RunRules(element, rules, |rules|, host) == Try(o, last, host);
    if !Skipped(last) {
      assert RuleObjects(rules) == kept + [last];
      RunRulesPrefix(element, kept, [last], |kept|, host);
      assert RunRules(element, kept + [last], |kept| + 1, host) == Try(o, last, host);
    } else {
      assert RuleObjects(rules) == kept;
    }
  }

  /** A list made only of skipped rules leaves the document unchanged, whatever the factor. */
  lemma SkippedRulesNoChange(data: Json, rules: seq<Json>, factor: Factor, host: Host)
    requires |rules| > 0 && forall i :: 0 <= i < |rules| ==> Skipped(rules[i])
    ensures SafeRules(rules)
    ensures Overridden(data, Arr(rules), factor, host) == data
  {
    assert SafeRules(rules) by {
      forall i | 0 <= i < |rules| ensures WritesNoElements(rules[i]) {
        assert Entries(Payload(rules[i])) == [];
      }
    }
    VisitorNonIncreasing(rules, factor, host);
    forall x ensures Visitor(rules, factor, host)(x) == x {
      forall i | 0 <= i < |rules| ensures !Fires(x, rules, i, host) { }
      ScaleOnlyWhenFired(x, rules, factor, host);
    }
    TraverseIdentity(data, Visitor(rules, factor, host));
  }

  /** Every item of the first n, scaled. */
  function ScaledItems(items: seq<Json>, n: nat, factor: Factor, host: Host): (r: seq<Json>)
    requires n <= |items|
    ensures |r| == n && forall i :: 0 <= i < n ==> r[i] == ApplyScale(items[i], factor, host)
  {
    if n == 0 then [] else ScaledItems(items, n - 1, factor, host) + [ApplyScale(items[n - 1], factor, host)]
  }

  /** A scaled item without `elements` is not walked into further. */
  lemma ScaledItemUntouched(x: Json, factor: Factor, host: Host)
    requires ElementsFree(x)
    ensures NonIncreasing(ScaleVisitor(factor, host))
    ensures Traverse(ScaleVisitor(factor, host)(x), ScaleVisitor(factor, host)) == Walk(ApplyScale(x, factor, host), [])
  {
    ScaleVisitorNonIncreasing(factor, host);
    ScaleKeepsElementsFree(x, factor, host);
    ElementsFreeUntouched(ApplyScale(x, factor, host), ScaleVisitor(factor, host));
  }

  lemma {:induction false} ScaleElementsLoop(items: seq<Json>, n: nat, factor: Factor, host: Host)
    requires n <= |items| && forall i :: 0 <= i < |items| ==> ElementsFree(items[i])
    ensures NonIncreasing(ScaleVisitor(factor, host))
    ensures VisitElements([(ElementsKey, Arr(items))], n, ScaleVisitor(factor, host)).value == ScaledItems(items, n, factor, host)
  {
    ScaleVisitorNonIncreasing(factor, host);
    SingleElementsIndex(Arr(items));
    if n > 0 {
      ScaleElementsLoop(items, n - 1, factor, host);
      ScaledItemUntouched(items[n - 1], factor, host);
    }
  }

  /**
   * In scale-only mode every item of a top-level `elements` array is scaled
   * (when the items hold no `elements` of their own), whether or not any rule
   * would match it.
   */
  lemma ScaleOnlyScalesEveryElement(items: seq<Json>, factor: Factor, host: Host)
    requires !NoScale(factor) && forall i :: 0 <= i < |items| ==> ElementsFree(items[i])
    ensures ScaleOnly(Obj([(ElementsKey, Arr(items))]), factor, host) ==
              Obj([(ElementsKey, Arr(ScaledItems(items, |items|, factor, host)))])
  {
    var visit := ScaleVisitor(factor, host);
    ScaleElementsLoop(items, |items|, factor, host);
    var scaled := ScaledItems(items, |items|, factor, host);
    assert ElementsFree(Arr(scaled)) by {
      forall i | 0 <= i < |scaled| ensures ElementsFree(scaled[i]) {
        ScaleKeepsElementsFree(items[i], factor, host);
      }
    }
    ElementsOnlyNode(items, visit);
  }

  // ---------------------------------------------------------------------------
  // Worked cases
  // ---------------------------------------------------------------------------

  /** `{filters: {type: "light"}, overrides: {style: {color: "red"}}}` */
  function LightRule(): Json {
    Obj([("filters", Obj([("type", Str("light"))])), ("overrides", Obj([("style", Obj([("color", Str("red"))]))]))])
  }

  function Lamp(): Json {
    Obj([("type", Str("light")), ("name", Str("lamp1"))])
  }

  lemma LightRuleParts()
    ensures FiltersOf(LightRule()) == Obj([("type", Str("light"))])
    ensures Writes(Entries(Payload(LightRule()))) == [("style", Obj([("color", Str("red"))]))]
  {
    var fields := LightRule().fields;
    assert Keys(fields)[0] == "filters";
    IndexOfAt(fields, 0, "filters");
    assert Keys(fields)[1] == "overrides";
    IndexOfAt(fields, 1, "overrides");
    assert Payload(LightRule()) == Obj([("style", Obj([("color", Str("red"))]))]);
  }

  lemma LampMatches(host: Host)
    ensures MatchesFilters(Some(Lamp()), Obj([("type", Str("light"))]), host)
  {
    var fields := Lamp().fields;
    assert Keys(fields)[0] == "type";
    IndexOfAt(fields, 0, "type");
    assert Get(Some(Lamp()), "type") == Some(Str("light"));
    assert RegexOf(Str("light")).None?;
    assert EntryMatches(Some(Lamp()), "type", Str("light"), host);
  }

  lemma LampMerged()
    ensures Merged(Lamp(), LightRule()) ==
              Obj([("type", Str("light")), ("name", Str("lamp1")), ("style", Obj([("color", Str("red"))]))])
  {
    LightRuleParts();
    var red := [("color", Str("red"))];
    var fields := Lamp().fields;
    assert MergeMembers([], red, 0) == [];
    assert DeepMerge([], red) == red;
    assert MergedValue(None, Obj(red)) == Obj(red);
    assert "style" !in Keys(fields);
    assert Lookup(fields, "style") == None;
    assert IndexOf(fields, "style") == None;
    assert MergeMembers(fields, [("style", Obj(red))], 0) == fields;
    assert Put(fields, "style", Obj(red)) == fields + [("style", Obj(red))];
    assert MergeMembers(fields, [("style", Obj(red))], 1) == Put(fields, "style", Obj(red));
    assert DeepMerge(fields, [("style", Obj(red))]) == fields + [("style", Obj(red))];
    assert Merged(Lamp(), LightRule()) == Obj(DeepMerge(fields, [("style", Obj(red))]));
  }

  /**
   * `{filters: {type: "light"}, overrides: {style: {color: "red"}}}` on
   * `{type: "light", name: "lamp1"}` with factor 1: the style is merged in and no
   * `scale` is added.
   */
  lemma LightGoesRed(host: Host)
    ensures Visit(Lamp(), [LightRule()], DefaultFactor, host)
            == Obj([("type", Str("light")), ("name", Str("lamp1")), ("style", Obj([("color", Str("red"))]))])
  {
    LightRuleParts();
    LampMatches(host);
    LampMerged();
    assert RunRules(Lamp(), [LightRule()], 1, host) == Outcome(Merged(Lamp(), LightRule()), true);
  }

  /** Two matching rules setting `a` to 1 and then to 2 leave `a: 2`. */
  lemma SecondRuleWins(element: Json, host: Host)
    requires element.Obj?
    ensures var r := Visit(element, [Obj([("a", Num(1.0))]), Obj([("a", Num(2.0))])], DefaultFactor, host);
            r.Obj? && Lookup(r.fields, "a") == Some(Num(2.0))
  {
    var rules := [Obj([("a", Num(1.0))]), Obj([("a", Num(2.0))])];
    assert FiltersOf(rules[0]) == Obj([]);
    assert FiltersOf(rules[1]) == Obj([]);
    assert MatchesFilters(Some(element), Obj([]), host);
    assert RunRules(element, rules, 1, host) == Outcome(Merged(element, rules[0]), true);
    assert Before(element, rules, 1, host).Obj?;
    assert Fires(element, rules, 1, host);
    assert ("a", Num(2.0)) in Entries(Payload(rules[1])) by {
      assert Payload(rules[1]) == rules[1];
    }
    assert WellFormed(rules[1]);
    LastWriterWins(element, rules, 1, 2, "a", Num(2.0), host);
  }

  /** `{filters: {type: t}, a: x}` */
  function TypedRule(t: string, x: real): Json {
    Obj([("filters", Obj([("type", Str(t))])), ("a", Num(x))])
  }

  lemma TypedRuleParts(t: string, x: real)
    ensures FiltersOf(TypedRule(t, x)) == Obj([("type", Str(t))])
    ensures Payload(TypedRule(t, x)) == TypedRule(t, x)
    ensures WellFormed(TypedRule(t, x))
    ensures "type" !in Keys(Entries(Payload(TypedRule(t, x))))
  {
    var fields := TypedRule(t, x).fields;
    assert Keys(fields) == ["filters", "a"];
    IndexOfAt(fields, 0, "filters");
  }

  /** On a light, the light rule fires. */
  lemma LightRuleFires(host: Host)
    ensures var element := Obj([("type", Str("light"))]);
            Get(Some(element), "type") == Some(Str("light")) &&
            Fires(element, [TypedRule("light", 1.0), TypedRule("fan", 5.0)], 0, host)
  {
    var element := Obj([("type", Str("light"))]);
    var rules := [TypedRule("light", 1.0), TypedRule("fan", 5.0)];
    TypedRuleParts("light", 1.0);
    assert Get(Some(element), "type") == Some(Str("light")) by {
      assert Keys(element.fields)[0] == "type";
    }
    assert EntryMatches(Some(element), "type", Str("light"), host);
  }

  /** On a light, the light rule fires and the fan rule after it does not. */
  lemma LightRuleOnly(host: Host)
    ensures var rules := [TypedRule("light", 1.0), TypedRule("fan", 5.0)];
            var element := Obj([("type", Str("light"))]);
            Fires(element, rules, 0, host) && !Fires(element, rules, 1, host)
  {
    var element := Obj([("type", Str("light"))]);
    var rules := [TypedRule("light", 1.0), TypedRule("fan", 5.0)];
    LightRuleFires(host);
    var after := Before(element, rules, 1, host);
    assert after.Obj? && Get(Some(after), "type") == Some(Str("light")) by {
      TypedRuleParts("light", 1.0);
      UnmentionedKept(element, rules, 0, "type", host);
    }
    assert FiltersOf(rules[1]) == Obj([("type", Str("fan"))]) by {
      TypedRuleParts("fan", 5.0);
    }
    assert !EntryMatches(Some(after), "type", Str("fan"), host);
  }

  /**
   * A later rule that does not fire does not take a key over: on
   * `{type: "light"}`, the rules `{filters: {type: "light"}, a: 1}` and then
   * `{filters: {type: "fan"}, a: 5}` leave `a: 1`.
   */
lemma NonFiringRuleIgnored(host: Host)
    ensures var rules := [TypedRule("light", 1.0), TypedRule("fan", 5.0)];
            var out := Before(Obj([("type", Str("light"))]), rules, 2, host);
            out.Obj? && Lookup(out.fields, "a") == Some(Num(1.0))
  {
    var element := Obj([("type", Str("light"))]);
    var rules := [TypedRule("light", 1.0), TypedRule("fan", 5.0)];
    TypedRuleParts("light", 1.0);
    TypedRuleParts("fan", 5.0);
    LightRuleOnly(host);
    assert ("a", Num(1.0)) in Entries(Payload(rules[0])) by {
      assert TypedRule("light", 1.0).fields[1] == ("a", Num(1.0));
    }
    LastWriterWins(element, rules, 0, 2, "a", Num(1.0), host);
  }
}
