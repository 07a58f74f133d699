/**
 * Writing a rule's payload into a matched element
 * (`mergeRule`, `deepMerge` and `isPlainObject` in tools/hass/layout/index.js).
 * Objects are values here: `deepMerge` returns a new object and never changes
 * its arguments, and `mergeRule` returns the element as it is after the writes.
 */
module Merger {
  import opened Wrappers
  import opened JsonValues

  // ---------------------------------------------------------------------------
  // deepMerge
  // ---------------------------------------------------------------------------

  /**
   * The value written for `key` when merging `value` over `current`: plain
   * objects are merged into the current value (or into `{}` when that is not a
   * plain object); every other value, arrays included, replaces it.
   */
  function MergedValue(current: Option<Json>, value: Json): (r: Json)
    ensures r.Obj? <==> value.Obj?
    ensures !value.Obj? ==> r == value
    ensures value.Obj? ==> forall k :: k in Keys(r.fields) <==> k in Keys(PlainFields(current)) || k in Keys(value.fields)
    decreases value, 2, 0
  {
    match value
    case Obj(vf) => Obj(DeepMerge(PlainFields(current), vf))
    case _ => value
  }

  /**
   * `deepMerge(target, source)`: the result holds the target's keys, in the
   * target's order and first, and otherwise exactly the source's keys.
   */
  function DeepMerge(target: seq<(string, Json)>, source: seq<(string, Json)>): (r: seq<(string, Json)>)
    ensures |r| >= |target| && Keys(r)[..|target|] == Keys(target)
    ensures forall k :: k in Keys(r) <==> k in Keys(target) || k in Keys(source)
    decreases Obj(source), 1, 0
  {
    MergeMembersKeys(target, source, |source|);
    assert source[..|source|] == source;
    MergeMembers(target, source, |source|)
  }

  /** `output` after the loop has handled the first n entries of `source`. */
  function MergeMembers(target: seq<(string, Json)>, source: seq<(string, Json)>, n: nat): seq<(string, Json)>
    requires n <= |source|
    decreases Obj(source), 0, n, 0
  {
    if n == 0 then target
    else
      var out := MergeMembers(target, source, n - 1);
      Put(out, source[n - 1].0, MergedValue(Lookup(out, source[n - 1].0), source[n - 1].1))
  }

  lemma {:induction false} MergeMembersKeys(target: seq<(string, Json)>, source: seq<(string, Json)>, n: nat)
    requires n <= |source|
    ensures |MergeMembers(target, source, n)| >= |target|
    ensures Keys(MergeMembers(target, source, n))[..|target|] == Keys(target)
    ensures forall k :: k in Keys(MergeMembers(target, source, n)) <==>
              k in Keys(target) || k in Keys(source[..n])
    decreases Obj(source), 0, n, 1
  {
    if n > 0 {
      MergeMembersKeys(target, source, n - 1);
      var out := MergeMembers(target, source, n - 1);
      var k := source[n - 1].0;
      KeysPut(out, k, MergedValue(Lookup(out, k), source[n - 1].1));
      assert Keys(source[..n]) == Keys(source[..n - 1]) + [k];
      assert (Keys(out) + [k])[..|target|] == Keys(out)[..|target|];
    }
  }

  lemma {:induction false} MergeMembersPrefix(target: seq<(string, Json)>, a: seq<(string, Json)>, b: seq<(string, Json)>, n: nat)
    requires n <= |a|
    ensures MergeMembers(target, a + b, n) == MergeMembers(target, a, n)
    decreases n, 1
  {
    if n > 0 {
      MergeMembersPrefixStep(target, a, b, n);
    }
  }

  /** The case n > 0 of MergeMembersPrefix. */
  lemma {:induction false} MergeMembersPrefixStep(target: seq<(string, Json)>, a: seq<(string, Json)>, b: seq<(string, Json)>, n: nat)
    requires 0 < n
    requires n <= |a|
    ensures MergeMembers(target, a + b, n) == MergeMembers(target, a, n)
    decreases n, 0
  {
    MergeMembersPrefix(target, a, b, n - 1);
    assert (a + b)[n - 1] == a[n - 1];
  }

  /** Merging one more source member is one more write on top of the merge so far. */
  lemma DeepMergeSnoc(target: seq<(string, Json)>, source: seq<(string, Json)>, k: string, v: Json)
    ensures DeepMerge(target, source + [(k, v)]) ==
              var out := DeepMerge(target, source); Put(out, k, MergedValue(Lookup(out, k), v))
  {
    MergeMembersPrefix(target, source, [(k, v)], |source|);
  }

  lemma {:induction false} MergeMembersKeeps(target: seq<(string, Json)>, source: seq<(string, Json)>, n: nat, k: string)
    requires n <= |source|
    requires forall i :: 0 <= i < n ==> source[i].0 != k
    ensures Lookup(MergeMembers(target, source, n), k) == Lookup(target, k)
    decreases n, 1
  {
    if n > 0 {
      MergeMembersKeepsStep(target, source, n, k);
    }
  }

  /** The case n > 0 of MergeMembersKeeps. */
  lemma {:induction false} MergeMembersKeepsStep(target: seq<(string, Json)>, source: seq<(string, Json)>, n: nat, k: string)
    requires 0 < n
    requires n <= |source|
    requires forall i :: 0 <= i < n ==> source[i].0 != k
    ensures Lookup(MergeMembers(target, source, n), k) == Lookup(target, k)
    decreases n, 0
  {
    MergeMembersKeeps(target, source, n - 1, k);
    var out := MergeMembers(target, source, n - 1);
    LookupPut(out, source[n - 1].0, MergedValue(Lookup(out, source[n - 1].0), source[n - 1].1), k);
  }

  lemma {:induction false} MergeMembersWrites(target: seq<(string, Json)>, source: seq<(string, Json)>, n: nat, i: nat)
    requires UniqueKeys(source)
    requires i < n <= |source|
    ensures Lookup(MergeMembers(target, source, n), source[i].0) ==
              Some(MergedValue(Lookup(target, source[i].0), source[i].1))
  {
    var out := MergeMembers(target, source, n - 1);
    var k := source[n - 1].0;
    LookupPut(out, k, MergedValue(Lookup(out, k), source[n - 1].1), source[i].0);
    if i == n - 1 {
      MergeMembersKeeps(target, source, n - 1, k);
    } else {
      MergeMembersWrites(target, source, n - 1, i);
    }
  }

  /** A key the source does not mention keeps the target's value. */
  lemma DeepMergeKeepsTarget(target: seq<(string, Json)>, source: seq<(string, Json)>, k: string)
    requires k !in Keys(source)
    ensures Lookup(DeepMerge(target, source), k) == Lookup(target, k)
  {
    forall i | 0 <= i < |source| ensures source[i].0 != k {
      assert Keys(source)[i] == source[i].0;
    }
    MergeMembersKeeps(target, source, |source|, k);
  }

  /**
   * A key the source mentions ends up with the source value merged over the
   * target's: a plain object merges recursively, anything else replaces.
   */
  lemma DeepMergeWrites(target: seq<(string, Json)>, source: seq<(string, Json)>, i: nat)
    requires UniqueKeys(source) && i < |source|
    ensures Lookup(DeepMerge(target, source), source[i].0) == Some(MergedValue(Lookup(target, source[i].0), source[i].1))
    ensures !source[i].1.Obj? ==> Lookup(DeepMerge(target, source), source[i].0) == Some(source[i].1)
  {
    MergeMembersWrites(target, source, |source|, i);
  }

  /** Every member of the source would be written back as the value `out` already holds. */
  ghost predicate Absorbs(out: seq<(string, Json)>, source: seq<(string, Json)>) {
    forall i :: 0 <= i < |source| ==>
      Lookup(out, source[i].0) == Some(MergedValue(Lookup(out, source[i].0), source[i].1))
  }

  lemma {:induction false} MergeMembersAbsorbed(out: seq<(string, Json)>, source: seq<(string, Json)>, n: nat)
    requires n <= |source| && Absorbs(out, source)
    ensures MergeMembers(out, source, n) == out
    decreases n, 1
  {
    if n > 0 {
      MergeMembersAbsorbedStep(out, source, n);
    }
  }

  /** The case n > 0 of MergeMembersAbsorbed. */
  lemma {:induction false} MergeMembersAbsorbedStep(out: seq<(string, Json)>, source: seq<(string, Json)>, n: nat)
    requires 0 < n
    requires n <= |source| && Absorbs(out, source)
    ensures MergeMembers(out, source, n) == out
    decreases n, 0
  {
    MergeMembersAbsorbed(out, source, n - 1);
    var k := source[n - 1].0;
    PutSame(out, k, MergedValue(Lookup(out, k), source[n - 1].1));
  }

  /** Merging the same source a second time changes nothing. */
  lemma {:induction false} DeepMergeIdempotent(target: seq<(string, Json)>, source: seq<(string, Json)>)
    requires WellFormed(Obj(source))
    ensures DeepMerge(DeepMerge(target, source), source) == DeepMerge(target, source)
    decreases Obj(source)
  {
    var once := DeepMerge(target, source);
    forall i | 0 <= i < |source|
      ensures Lookup(once, source[i].0) == Some(MergedValue(Lookup(once, source[i].0), source[i].1))
    {
      DeepMergeWrites(target, source, i);
      match source[i].1
      case Obj(vf) =>
        assert WellFormed(source[i].1);
        DeepMergeIdempotent(PlainFields(Lookup(target, source[i].0)), vf);
      case _ =>
    }
    MergeMembersAbsorbed(once, source, |source|);
  }

  /** A merge whose source writes no `elements` array anywhere cannot add traversal work. */
  lemma {:induction false} DeepMergeWeight(target: seq<(string, Json)>, source: seq<(string, Json)>)
    requires forall i :: 0 <= i < |source| ==> source[i].0 != ElementsKey && ElementsFree(source[i].1)
    ensures Weight(Obj(DeepMerge(target, source))) <= Weight(Obj(target))
    decreases Obj(source)
  {
    MergeMembersWeight(target, source, |source|);
  }

  lemma {:induction false} MergeMembersWeight(target: seq<(string, Json)>, source: seq<(string, Json)>, n: nat)
    requires n <= |source|
    requires forall i :: 0 <= i < |source| ==> source[i].0 != ElementsKey && ElementsFree(source[i].1)
    ensures Weight(Obj(MergeMembers(target, source, n))) <= Weight(Obj(target))
    decreases Obj(source), n, 1
  {
    if n > 0 {
      MergeMembersWeightStep(target, source, n);
    }
  }

  /** The case n > 0 of MergeMembersWeight. */
  lemma {:induction false} MergeMembersWeightStep(target: seq<(string, Json)>, source: seq<(string, Json)>, n: nat)
    requires 0 < n
    requires n <= |source|
    requires forall i :: 0 <= i < |source| ==> source[i].0 != ElementsKey && ElementsFree(source[i].1)
    ensures Weight(Obj(MergeMembers(target, source, n))) <= Weight(Obj(target))
    decreases Obj(source), n, 0
  {
    MergeMembersWeight(target, source, n - 1);
    var out := MergeMembers(target, source, n - 1);
    var (k, v) := source[n - 1];
    var current := Lookup(out, k);
    var written := MergedValue(current, v);
    WeightPut(out, k, written);
    var before := match current case Some(prev) => Weight(prev) case None => 0;
    assert Weight(written) <= before by {
      if v.Obj? {
        assert ElementsFree(v);
        DeepMergeWeight(PlainFields(current), v.fields);
        if !(current.Some? && current.value.Obj?) {
          assert Weight(Obj([])) == 0;
        }
      } else {
        ElementsFreeWeightless(v);
      }
    }
  }

  // ---------------------------------------------------------------------------
  // mergeRule
  // ---------------------------------------------------------------------------

  /** `isPlainObject(rule?.overrides) ? rule.overrides : rule` */
  function Payload(rule: Json): (r: Json)
    ensures var o := Get(Some(rule), "overrides"); o.Some? && IsPlainObject(o.value) ==> Some(r) == o
    ensures var o := Get(Some(rule), "overrides"); !(o.Some? && IsPlainObject(o.value)) ==> r == rule
  {
    match Get(Some(rule), "overrides")
    case Some(Obj(o)) => Obj(o)
    case _ => rule
  }

  /** The rule's own keys, which are never written into an element. */
  predicate IsControlKey(k: string) {
    k == "filters" || k == "overrides"
  }

  /** The payload entries `mergeRule` writes: all but the control keys, in the payload's order. */
  function Writes(entries: seq<(string, Json)>): (r: seq<(string, Json)>)
    ensures forall e :: e in r <==> e in entries && !IsControlKey(e.0)
    ensures forall k :: k in Keys(r) <==> k in Keys(entries) && !IsControlKey(k)
    ensures |r| <= |entries|
  {
    if entries == [] then []
    else
      var rest := Writes(entries[..|entries| - 1]);
      var last := entries[|entries| - 1];
      assert entries == entries[..|entries| - 1] + [last];
      assert Keys(entries) == Keys(entries[..|entries| - 1]) + [last.0];
      if IsControlKey(last.0) then rest
      else
        assert Keys(rest + [last]) == Keys(rest) + [last.0];
        rest + [last]
  }

  /**
   * The element after `mergeRule(element, rule)`: the payload's entries, less the
   * control keys, merged in order as `deepMerge` merges a source. Writes into an
   * array element are not modelled.
   */
  function Merged(element: Json, rule: Json): (r: Json)
    ensures r.Obj? <==> element.Obj?
    ensures !element.Obj? ==> r == element
    ensures element.Obj? ==>
              forall k :: k in Keys(r.fields) <==>
                k in Keys(element.fields) || (k in Keys(Entries(Payload(rule))) && !IsControlKey(k))
  {
    match element
    case Obj(fields) => Obj(DeepMerge(fields, Writes(Entries(Payload(rule)))))
    case _ => element
  }

  /** `mergeRule` itself: the loop over the payload's entries. */
  method MergeRule(element: Json, rule: Json) returns (r: Json)
    ensures r == Merged(element, rule)
  {
    if !element.Obj? {
      return element;
    }
    var entries := Entries(Payload(rule));
    var fields := element.fields;
    var i := 0;
    while i < |entries|
      invariant 0 <= i <= |entries|
      invariant fields == DeepMerge(element.fields, Writes(entries[..i]))
    {
      var (key, value) := entries[i];
      assert entries[..i + 1][..i] == entries[..i];
      if !IsControlKey(key) {
        DeepMergeSnoc(element.fields, Writes(entries[..i]), key, value);
        fields := Put(fields, key, MergedValue(Lookup(fields, key), value));
      }
      i := i + 1;
    }
    assert entries[..|entries|] == entries;
    r := Obj(fields);
  }

  lemma {:induction false} WritesUnique(entries: seq<(string, Json)>)
    requires UniqueKeys(entries)
    ensures UniqueKeys(Writes(entries))
    ensures forall i :: 0 <= i < |Writes(entries)| ==> Writes(entries)[i] in entries
  {
    if entries != [] {
      var init := entries[..|entries| - 1];
      WritesUnique(init);
      var last := entries[|entries| - 1];
      if !IsControlKey(last.0) {
        var rest := Writes(init);
        forall i | 0 <= i < |rest| ensures rest[i].0 != last.0 {
          var j :| 0 <= j < |init| && rest[i] == init[j];
        }
      }
    }
  }

  /** Object.entries gives distinct keys: an object's are unique, an array's are distinct indices. */
  lemma EntriesUnique(j: Json)
    requires WellFormed(j)
    ensures UniqueKeys(Entries(j))
  {
    if j.Arr? {
      forall a, b | 0 <= a < b < |Entries(j)| ensures Entries(j)[a].0 != Entries(j)[b].0 {
        ParseIndexOfIndexKey(a);
        ParseIndexOfIndexKey(b);
      }
    }
  }

  lemma PayloadWellFormed(rule: Json)
    requires WellFormed(rule)
    ensures WellFormed(Payload(rule))
  {
    if rule.Obj? {
      match Lookup(rule.fields, "overrides")
      case Some(Obj(o)) =>
        var i := IndexOf(rule.fields, "overrides").value;
        assert WellFormed(rule.fields[i].1);
      case _ =>
    }
  }

  /** The payload entries of a rule whose keys and values come from a parsed document are well formed. */
  lemma WritesWellFormed(rule: Json)
    requires WellFormed(rule)
    ensures WellFormed(Obj(Writes(Entries(Payload(rule)))))
  {
    var p := Payload(rule);
    PayloadWellFormed(rule);
    EntriesUnique(p);
    WritesUnique(Entries(p));
    var w := Writes(Entries(p));
    forall i | 0 <= i < |w| ensures WellFormed(w[i].1) {
      var j :| 0 <= j < |Entries(p)| && Entries(p)[j] == w[i];
    }
  }

  /** `filters` and `overrides` are never written into the element. */
  lemma MergeSkipsControlKeys(fields: seq<(string, Json)>, rule: Json, k: string)
    requires IsControlKey(k)
    ensures Merged(Obj(fields), rule).fields == DeepMerge(fields, Writes(Entries(Payload(rule))))
    ensures Lookup(Merged(Obj(fields), rule).fields, k) == Lookup(fields, k)
  {
    DeepMergeKeepsTarget(fields, Writes(Entries(Payload(rule))), k);
  }

  /** Element keys the payload does not mention keep their values. */
  lemma MergeKeepsUnmentioned(fields: seq<(string, Json)>, rule: Json, k: string)
    requires k !in Keys(Entries(Payload(rule)))
    ensures Lookup(Merged(Obj(fields), rule).fields, k) == Lookup(fields, k)
  {
    DeepMergeKeepsTarget(fields, Writes(Entries(Payload(rule))), k);
  }

  /**
   * A payload entry `(k, v)` with k not a control key leaves `v` merged over the
   * element's old value; when v is not a plain object (an array, say) it
   * replaces the old value wholesale.
   */
  lemma MergeWritesPayload(fields: seq<(string, Json)>, rule: Json, k: string, v: Json)
    requires WellFormed(rule)
    requires (k, v) in Entries(Payload(rule)) && !IsControlKey(k)
    ensures Lookup(Merged(Obj(fields), rule).fields, k) == Some(MergedValue(Lookup(fields, k), v))
    ensures !IsPlainObject(v) ==> Lookup(Merged(Obj(fields), rule).fields, k) == Some(v)
  {
    var entries := Entries(Payload(rule));
    PayloadWellFormed(rule);
    EntriesUnique(Payload(rule));
    WritesUnique(entries);
    var w := Writes(entries);
    var j :| 0 <= j < |entries| && entries[j] == (k, v);
    assert k in Keys(entries) by { assert Keys(entries)[j] == k; }
    assert k in Keys(w);
    var i :| 0 <= i < |w| && Keys(w)[i] == k;
    var a :| 0 <= a < |entries| && entries[a] == w[i];
    assert entries[a].0 == entries[j].0;
    assert a == j;
    DeepMergeWrites(fields, w, i);
  }

  /** Applying the same rule twice leaves the element as applying it once. */
  lemma MergeIdempotent(element: Json, rule: Json)
    requires WellFormed(rule)
    ensures Merged(Merged(element, rule), rule) == Merged(element, rule)
  {
    if element.Obj? {
      WritesWellFormed(rule);
      DeepMergeIdempotent(element.fields, Writes(Entries(Payload(rule))));
    }
  }

  /**
   * A rule whose payload writes no `elements` member and no value holding one,
   * so that merging it never gives the walk more to descend into.
   */
  predicate WritesNoElements(rule: Json) {
    var w := Writes(Entries(Payload(rule)));
    forall i :: 0 <= i < |w| ==> w[i].0 != ElementsKey && ElementsFree(w[i].1)
  }

  /** Merging such a rule never adds traversal work. */
  lemma MergeWeight(element: Json, rule: Json)
    requires WritesNoElements(rule)
    ensures Weight(Merged(element, rule)) <= Weight(element)
  {
    if element.Obj? {
      DeepMergeWeight(element.fields, Writes(Entries(Payload(rule))));
    }
  }
}
