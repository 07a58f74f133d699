/**
 * `traverse(node, onElement)` in tools/hass/layout/index.js.
 *
 * The callback mutates the element it is given and the walk then descends into
 * the mutated element; on values this is: visit the element, then traverse the
 * result, and put what comes back where the element was. A walk returns the new
 * tree together with the log of the values handed to the callback, in call order.
 *
 * Termination: the callback may not add `elements` arrays (see `NonIncreasing`);
 * every call then continues on a tree with less `Weight`, or on a strict subtree
 * with the same `Weight`.
 */
module Traversal {
  import opened Wrappers
  import opened JsonValues

  /** A traversal result: the new value and the values passed to the callback, in order. */
  datatype Walk<T> = Walk(value: T, visited: seq<Json>)

  /** The callback never adds traversal work. */
  ghost predicate NonIncreasing(visit: Json -> Json) {
    forall x :: Weight(visit(x)) <= Weight(x)
  }

  /** `traverse(node, visit)` */
  function Traverse(node: Json, visit: Json -> Json): (w: Walk<Json>)
    requires NonIncreasing(visit)
    ensures !IsContainer(node) ==> w == Walk(node, [])
    ensures SameShape(node, w.value)
    ensures Weight(w.value) <= Weight(node)
    ensures forall x | x in w.visited :: IsContainer(x)
    decreases Weight(node), node, 3, 0
  {
    match node
    case Arr(items) =>
      var t := TraverseItems(items, |items|, visit);
      ArrWeightMonotone(t.value, items);
      Walk(Arr(t.value), t.visited)
    case Obj(fields) =>
      (match ElementsIndex(fields)
       case None =>
         var m := TraverseMembers(fields, None, |fields|, visit);
         MembersWeight(m.value, fields);
         Walk(Obj(m.value), m.visited)
       case Some(i) =>
         var e := VisitElements(fields, |fields[i].1.items|, visit);
         ArrWeightMonotone(e.value, fields[i].1.items);
         var m := TraverseMembers(fields, Some(Arr(e.value)), |fields|, visit);
         MembersWeight(m.value, fields);
         Walk(Obj(m.value), e.visited + m.visited))
    case _ => Walk(node, [])
  }

  /** `node.forEach((child) => traverse(child, visit))` over the first n children. */
  function TraverseItems(items: seq<Json>, n: nat, visit: Json -> Json): (w: Walk<seq<Json>>)
    requires n <= |items| && NonIncreasing(visit)
    ensures |w.value| == n
    ensures forall k :: 0 <= k < n ==> Weight(w.value[k]) <= Weight(items[k])
    ensures forall x | x in w.visited :: IsContainer(x)
    decreases Weight(Arr(items)), Arr(items), 2, n
  {
    if n == 0 then Walk([], [])
    else
      var prev := TraverseItems(items, n - 1, visit);
      ItemWeightBound(items, n - 1);
      var t := Traverse(items[n - 1], visit);
      Walk(prev.value + [t.value], prev.visited + t.visited)
  }

  /**
   * The loop over `node.elements` for the first n items: each object item is
   * passed to the callback and the result is traversed; other items stay.
   */
  function VisitElements(fields: seq<(string, Json)>, n: nat, visit: Json -> Json): (w: Walk<seq<Json>>)
    requires ElementsIndex(fields).Some?
    requires n <= |fields[ElementsIndex(fields).value].1.items|
    requires NonIncreasing(visit)
    ensures |w.value| == n
    ensures forall k :: 0 <= k < n ==> Weight(w.value[k]) <= Weight(fields[ElementsIndex(fields).value].1.items[k])
    ensures forall x | x in w.visited :: IsContainer(x)
    decreases Weight(Obj(fields)), Obj(fields), 2, n
  {
    if n == 0 then Walk([], [])
    else
      var i := ElementsIndex(fields).value;
      var items := fields[i].1.items;
      var prev := VisitElements(fields, n - 1, visit);
      var x := items[n - 1];
      if IsContainer(x) then
        FieldWeightBound(fields, i);
        ItemWeightBound(items, n - 1);
        var t := Traverse(visit(x), visit);
        Walk(prev.value + [t.value], prev.visited + [x] + t.visited)
      else
        Walk(prev.value + [x], prev.visited)
  }

  /**
   * `Object.values(node).forEach(traverse)` over the first n members. When the
   * node has an `elements` array, `elements` is that array after the loop over
   * its items, which is what the member holds by then.
   */
  function TraverseMembers(fields: seq<(string, Json)>, elements: Option<Json>, n: nat, visit: Json -> Json)
    : (w: Walk<seq<(string, Json)>>)
    requires n <= |fields| && NonIncreasing(visit)
    requires elements.Some? ==>
               ElementsIndex(fields).Some? && elements.value.Arr? &&
               Weight(elements.value) <= Weight(fields[ElementsIndex(fields).value].1)
    ensures |w.value| == n
    ensures forall k :: 0 <= k < n ==> w.value[k].0 == fields[k].0
    ensures forall k :: 0 <= k < n ==> Weight(w.value[k].1) <= Weight(fields[k].1)
    ensures forall k :: 0 <= k < n ==> (w.value[k].1.Arr? <==> fields[k].1.Arr?)
    ensures forall x | x in w.visited :: IsContainer(x)
    decreases Weight(Obj(fields)), Obj(fields), 1, n
  {
    if n == 0 then Walk([], [])
    else
      var prev := TraverseMembers(fields, elements, n - 1, visit);
      FieldWeightBound(fields, n - 1);
      var t := Traverse(Member(fields, elements, n - 1), visit);
      Walk(prev.value + [(fields[n - 1].0, t.value)], prev.visited + t.visited)
  }

  /**
   * The k-th value `Object.values` yields: the member itself, or for `elements`
   * the array as the loop over its items left it.
   */
  function Member(fields: seq<(string, Json)>, elements: Option<Json>, k: nat): (r: Json)
    requires k < |fields|
    requires elements.Some? ==>
               ElementsIndex(fields).Some? && elements.value.Arr? &&
               Weight(elements.value) <= Weight(fields[ElementsIndex(fields).value].1)
    ensures Weight(r) <= Weight(fields[k].1)
    ensures r.Arr? <==> fields[k].1.Arr?
    ensures elements.None? ==> r == fields[k].1
  {
    if elements.Some? && ElementsIndex(fields) == Some(k) then elements.value else fields[k].1
  }

  /** Members that keep their keys, their kind and at most their weight keep the object's weight bound. */
  lemma MembersWeight(out: seq<(string, Json)>, fields: seq<(string, Json)>)
    requires |out| == |fields|
    requires forall k :: 0 <= k < |fields| ==> out[k].0 == fields[k].0
    requires forall k :: 0 <= k < |fields| ==> Weight(out[k].1) <= Weight(fields[k].1)
    requires forall k :: 0 <= k < |fields| ==> (out[k].1.Arr? <==> fields[k].1.Arr?)
    ensures Keys(out) == Keys(fields)
    ensures Weight(Obj(out)) <= Weight(Obj(fields))
  {
    assert Keys(out) == Keys(fields);
    ObjWeightMonotone(out, fields);
  }

  // ---------------------------------------------------------------------------
  // The walk as the source writes it: loops that call the callback
  // ---------------------------------------------------------------------------

  /** `traverse` with its `forEach` loops; it computes exactly `Traverse`. */
  method TraverseNode(node: Json, visit: Json -> Json) returns (w: Walk<Json>)
    requires NonIncreasing(visit)
    ensures w == Traverse(node, visit)
    decreases Weight(node), node, 3, 0
  {
    match node {
      case Arr(items) =>
        var t := TraverseItemsLoop(items, visit);
        w := Walk(Arr(t.value), t.visited);
      case Obj(fields) =>
        if ElementsIndex(fields).Some? {
          var i := ElementsIndex(fields).value;
          var e := VisitElementsLoop(fields, visit);
          ArrWeightMonotone(e.value, fields[i].1.items);
          var m := TraverseMembersLoop(fields, Some(Arr(e.value)), visit);
          w := Walk(Obj(m.value), e.visited + m.visited);
        } else {
          var m := TraverseMembersLoop(fields, None, visit);
          w := Walk(Obj(m.value), m.visited);
        }
      case _ =>
        w := Walk(node, []);
    }
  }

  /** `node.forEach((child) => traverse(child, visit))` */
  method TraverseItemsLoop(items: seq<Json>, visit: Json -> Json) returns (w: Walk<seq<Json>>)
    requires NonIncreasing(visit)
    ensures w == TraverseItems(items, |items|, visit)
    decreases Weight(Arr(items)), Arr(items), 2, 0
  {
    w := Walk([], []);
    var k := 0;
    while k < |items|
      invariant 0 <= k <= |items|
      invariant w == TraverseItems(items, k, visit)
    {
      w := TraverseItem(items, k, w, visit);
      k := k + 1;
    }
  }

  /** One turn of that loop: traverse child k and add its result and its calls. */
  method TraverseItem(items: seq<Json>, k: nat, prev: Walk<seq<Json>>, visit: Json -> Json) returns (w: Walk<seq<Json>>)
    requires k < |items| && NonIncreasing(visit) && prev == TraverseItems(items, k, visit)
    ensures w == TraverseItems(items, k + 1, visit)
    decreases Weight(Arr(items)), Arr(items), 1, 0
  {
    ItemWeightBound(items, k);
    var t := TraverseNode(items[k], visit);
    w := Walk(prev.value + [t.value], prev.visited + t.visited);
  }

  /** `node.elements.forEach(...)`: visit each object or array item, then traverse it. */
  method VisitElementsLoop(fields: seq<(string, Json)>, visit: Json -> Json) returns (w: Walk<seq<Json>>)
    requires ElementsIndex(fields).Some? && NonIncreasing(visit)
    ensures w == VisitElements(fields, |fields[ElementsIndex(fields).value].1.items|, visit)
    decreases Weight(Obj(fields)), Obj(fields), 2, 0
  {
    var n := |fields[ElementsIndex(fields).value].1.items|;
    w := Walk([], []);
    var k := 0;
    while k < n
      invariant 0 <= k <= n
      invariant w == VisitElements(fields, k, visit)
    {
      w := VisitElementsItem(fields, k, w, visit);
      k := k + 1;
    }
  }

  /** One turn of that loop: item k goes to the callback and is then traversed, or is kept when it is a scalar or `null`. */
  method VisitElementsItem(fields: seq<(string, Json)>, k: nat, prev: Walk<seq<Json>>, visit: Json -> Json)
    returns (w: Walk<seq<Json>>)
    requires ElementsIndex(fields).Some? && NonIncreasing(visit)
    requires k < |fields[ElementsIndex(fields).value].1.items|
    requires prev == VisitElements(fields, k, visit)
    ensures w == VisitElements(fields, k + 1, visit)
    decreases Weight(Obj(fields)), Obj(fields), 1, 0
  {
    var i := ElementsIndex(fields).value;
    var x := fields[i].1.items[k];
    if IsContainer(x) {
      FieldWeightBound(fields, i);
      ItemWeightBound(fields[i].1.items, k);
      var t := TraverseNode(visit(x), visit);
      w := Walk(prev.value + [t.value], prev.visited + [x] + t.visited);
    } else {
      w := Walk(prev.value + [x], prev.visited);
    }
  }

  /** `Object.values(node).forEach((value) => traverse(value, visit))` */
  method TraverseMembersLoop(fields: seq<(string, Json)>, elements: Option<Json>, visit: Json -> Json)
    returns (w: Walk<seq<(string, Json)>>)
    requires NonIncreasing(visit)
    requires elements.Some? ==>
               ElementsIndex(fields).Some? && elements.value.Arr? &&
               Weight(elements.value) <= Weight(fields[ElementsIndex(fields).value].1)
    ensures w == TraverseMembers(fields, elements, |fields|, visit)
    decreases Weight(Obj(fields)), Obj(fields), 2, 0
  {
    w := Walk([], []);
    var k := 0;
    while k < |fields|
      invariant 0 <= k <= |fields|
      invariant w == TraverseMembers(fields, elements, k, visit)
    {
      w := TraverseMember(fields, elements, k, w, visit);
      k := k + 1;
    }
  }

  /** One turn of that loop: traverse member k and add its result and its calls. */
  method TraverseMember(fields: seq<(string, Json)>, elements: Option<Json>, k: nat, prev: Walk<seq<(string, Json)>>,
                        visit: Json -> Json) returns (w: Walk<seq<(string, Json)>>)
    requires k < |fields| && NonIncreasing(visit)
    requires elements.Some? ==>
               ElementsIndex(fields).Some? && elements.value.Arr? &&
               Weight(elements.value) <= Weight(fields[ElementsIndex(fields).value].1)
    requires prev == TraverseMembers(fields, elements, k, visit)
    ensures w == TraverseMembers(fields, elements, k + 1, visit)
    decreases Weight(Obj(fields)), Obj(fields), 1, 0
  {
    FieldWeightBound(fields, k);
    var t := TraverseNode(Member(fields, elements, k), visit);
    w := Walk(prev.value + [(fields[k].0, t.value)], prev.visited + t.visited);
  }

  // ---------------------------------------------------------------------------
  // Properties
  // ---------------------------------------------------------------------------

  /** A callback that changes nothing leaves the document as it was. */
  lemma {:induction false} TraverseIdentity(node: Json, visit: Json -> Json)
    requires NonIncreasing(visit) && forall x :: visit(x) == x
    ensures Traverse(node, visit).value == node
    decreases Weight(node), node, 4, 0
  {
    match node
    case Arr(items) =>
      ItemsIdentity(items, |items|, visit);
      assert TraverseItems(items, |items|, visit).value == items[..|items|];
    case Obj(fields) =>
      ObjIdentity(fields, visit);
    case _ =>
  }

  lemma {:induction false} ObjIdentity(fields: seq<(string, Json)>, visit: Json -> Json)
    requires NonIncreasing(visit) && forall x :: visit(x) == x
    ensures Traverse(Obj(fields), visit).value == Obj(fields)
    decreases Weight(Obj(fields)), Obj(fields), 3, 0
  {
    if ElementsIndex(fields).Some? {
      var i := ElementsIndex(fields).value;
      var items := fields[i].1.items;
      ElementsIdentity(fields, |items|, visit);
      assert VisitElements(fields, |items|, visit).value == items;
      MembersIdentity(fields, Some(fields[i].1), |fields|, visit);
      assert TraverseMembers(fields, Some(fields[i].1), |fields|, visit).value == fields;
    } else {
      MembersIdentity(fields, None, |fields|, visit);
      assert TraverseMembers(fields, None, |fields|, visit).value == fields;
    }
  }

  lemma {:induction false} ItemsIdentity(items: seq<Json>, n: nat, visit: Json -> Json)
    requires n <= |items| && NonIncreasing(visit) && forall x :: visit(x) == x
    ensures TraverseItems(items, n, visit).value == items[..n]
    decreases Weight(Arr(items)), Arr(items), 2, n, 1
  {
    if n > 0 {
      ItemsIdentityStep(items, n, visit);
    }
  }

  /** The case n > 0 of ItemsIdentity. */
  lemma {:induction false} ItemsIdentityStep(items: seq<Json>, n: nat, visit: Json -> Json)
    requires 0 < n
    requires n <= |items| && NonIncreasing(visit) && forall x :: visit(x) == x
    ensures TraverseItems(items, n, visit).value == items[..n]
    decreases Weight(Arr(items)), Arr(items), 2, n, 0
  {
    assert TraverseItems(items, n - 1, visit).value == items[..n - 1] by {
      ItemsIdentity(items, n - 1, visit);
    }
    ItemWeightBound(items, n - 1);
    assert Traverse(items[n - 1], visit).value == items[n - 1] by {
      TraverseIdentity(items[n - 1], visit);
    }
    assert items[..n] == items[..n - 1] + [items[n - 1]];
  }

  lemma {:induction false} ElementsIdentity(fields: seq<(string, Json)>, n: nat, visit: Json -> Json)
    requires ElementsIndex(fields).Some?
    requires n <= |fields[ElementsIndex(fields).value].1.items|
    requires NonIncreasing(visit) && forall x :: visit(x) == x
    ensures VisitElements(fields, n, visit).value == fields[ElementsIndex(fields).value].1.items[..n]
    decreases Weight(Obj(fields)), Obj(fields), 2, n, 1
  {
    if n > 0 {
      ElementsIdentityStep(fields, n, visit);
    }
  }

  /** The case n > 0 of ElementsIdentity. */
  lemma {:induction false} ElementsIdentityStep(fields: seq<(string, Json)>, n: nat, visit: Json -> Json)
    requires 0 < n
    requires ElementsIndex(fields).Some?
    requires n <= |fields[ElementsIndex(fields).value].1.items|
    requires NonIncreasing(visit) && forall x :: visit(x) == x
    ensures VisitElements(fields, n, visit).value == fields[ElementsIndex(fields).value].1.items[..n]
    decreases Weight(Obj(fields)), Obj(fields), 2, n, 0
  {
    var i := ElementsIndex(fields).value;
    var items := fields[i].1.items;
    ElementsIdentity(fields, n - 1, visit);
    if IsContainer(items[n - 1]) {
      FieldWeightBound(fields, i);
      ItemWeightBound(items, n - 1);
      assert visit(items[n - 1]) == items[n - 1];
      TraverseIdentity(items[n - 1], visit);
    }
    assert items[..n] == items[..n - 1] + [items[n - 1]];
  }

  lemma {:induction false} MembersIdentity(fields: seq<(string, Json)>, elements: Option<Json>, n: nat, visit: Json -> Json)
    requires n <= |fields| && NonIncreasing(visit) && forall x :: visit(x) == x
    requires elements.Some? ==> ElementsIndex(fields).Some? && elements.value == fields[ElementsIndex(fields).value].1
    ensures TraverseMembers(fields, elements, n, visit).value == fields[..n]
    decreases Weight(Obj(fields)), Obj(fields), 1, n, 1
  {
    if n > 0 {
      MembersIdentityStep(fields, elements, n, visit);
    }
  }

  /** The case n > 0 of MembersIdentity. */
  lemma {:induction false} MembersIdentityStep(fields: seq<(string, Json)>, elements: Option<Json>, n: nat, visit: Json -> Json)
    requires 0 < n
    requires n <= |fields| && NonIncreasing(visit) && forall x :: visit(x) == x
    requires elements.Some? ==> ElementsIndex(fields).Some? && elements.value == fields[ElementsIndex(fields).value].1
    ensures TraverseMembers(fields, elements, n, visit).value == fields[..n]
    decreases Weight(Obj(fields)), Obj(fields), 1, n, 0
  {
    assert TraverseMembers(fields, elements, n - 1, visit).value == fields[..n - 1] by {
      MembersIdentity(fields, elements, n - 1, visit);
    }
    assert Traverse(fields[n - 1].1, visit).value == fields[n - 1].1 by {
      FieldWeightBound(fields, n - 1);
      TraverseIdentity(fields[n - 1].1, visit);
    }
    MembersUnfold(fields, elements, n, visit);
    assert fields[..n] == fields[..n - 1] + [fields[n - 1]];
  }

  /** Member n - 1, when its walk returns it unchanged, is appended unchanged. */
  lemma MembersUnfold(fields: seq<(string, Json)>, elements: Option<Json>, n: nat, visit: Json -> Json)
    requires 0 < n <= |fields| && NonIncreasing(visit)
    requires elements.Some? ==> ElementsIndex(fields).Some? && elements.value == fields[ElementsIndex(fields).value].1
    requires Traverse(fields[n - 1].1, visit).value == fields[n - 1].1
    ensures TraverseMembers(fields, elements, n, visit).value
            == TraverseMembers(fields, elements, n - 1, visit).value + [fields[n - 1]]
  {
    assert Member(fields, elements, n - 1) == fields[n - 1].1;
  }

  /**
   * Walking the members keeps each member's kind: objects stay objects, arrays
   * stay arrays, and scalars and `null` come back as they were.
   */
  lemma {:induction false} TraverseMembersKinds(fields: seq<(string, Json)>, elements: Option<Json>, n: nat,
                                                visit: Json -> Json)
    requires n <= |fields| && NonIncreasing(visit)
    requires elements.Some? ==>
               ElementsIndex(fields).Some? && elements.value.Arr? &&
               Weight(elements.value) <= Weight(fields[ElementsIndex(fields).value].1)
    ensures forall k :: 0 <= k < n ==>
              (TraverseMembers(fields, elements, n, visit).value[k].1.Obj? <==> fields[k].1.Obj?)
    ensures forall k :: 0 <= k < n && !IsContainer(fields[k].1) ==>
              TraverseMembers(fields, elements, n, visit).value[k].1 == fields[k].1
    decreases n
  {
    if n > 0 {
      TraverseMembersKinds(fields, elements, n - 1, visit);
      FieldWeightBound(fields, n - 1);
      var prev := TraverseMembers(fields, elements, n - 1, visit);
      var t := Traverse(Member(fields, elements, n - 1), visit);
      assert TraverseMembers(fields, elements, n, visit).value == prev.value + [(fields[n - 1].0, t.value)];
    }
  }

  /** A tree without any `elements` member is neither visited nor changed. */
  lemma {:induction false} ElementsFreeUntouched(node: Json, visit: Json -> Json)
    requires NonIncreasing(visit) && ElementsFree(node)
    ensures Traverse(node, visit) == Walk(node, [])
    decreases node, 1
  {
    match node
    case Arr(items) =>
      ItemsUntouched(items, |items|, visit);
      assert items[..|items|] == items;
    case Obj(fields) =>
      assert ElementsKey !in Keys(fields) by {
        forall k | 0 <= k < |fields| ensures Keys(fields)[k] != ElementsKey { }
      }
      MembersUntouched(fields, |fields|, visit);
      assert fields[..|fields|] == fields;
    case _ =>
  }

  /** The same, as an implication that holds of every tree. */
  lemma UntouchedWhenFree(node: Json, visit: Json -> Json)
    requires NonIncreasing(visit)
    ensures ElementsFree(node) ==> Traverse(node, visit) == Walk(node, [])
  {
    if ElementsFree(node) {
      ElementsFreeUntouched(node, visit);
    }
  }

  lemma {:induction false} ItemsUntouched(items: seq<Json>, n: nat, visit: Json -> Json)
    requires n <= |items| && NonIncreasing(visit) && ElementsFree(Arr(items))
    ensures TraverseItems(items, n, visit) == Walk(items[..n], [])
    decreases Arr(items), 0, n, 1
  {
    if n > 0 {
      ItemsUntouchedStep(items, n, visit);
    }
  }

  /** The case n > 0 of ItemsUntouched. */
  lemma {:induction false} ItemsUntouchedStep(items: seq<Json>, n: nat, visit: Json -> Json)
    requires 0 < n
    requires n <= |items| && NonIncreasing(visit) && ElementsFree(Arr(items))
    ensures TraverseItems(items, n, visit) == Walk(items[..n], [])
    decreases Arr(items), 0, n, 0
  {
    ItemsUntouched(items, n - 1, visit);
    ElementsFreeUntouched(items[n - 1], visit);
    assert items[..n] == items[..n - 1] + [items[n - 1]];
  }

  lemma {:induction false} MembersUntouched(fields: seq<(string, Json)>, n: nat, visit: Json -> Json)
    requires n <= |fields| && NonIncreasing(visit) && ElementsFree(Obj(fields))
    ensures TraverseMembers(fields, None, n, visit) == Walk(fields[..n], [])
    decreases Obj(fields), 0, n, 1
  {
    if n > 0 {
      MembersUntouchedStep(fields, n, visit);
    }
  }

  /** The case n > 0 of MembersUntouched. */
  lemma {:induction false} MembersUntouchedStep(fields: seq<(string, Json)>, n: nat, visit: Json -> Json)
    requires 0 < n
    requires n <= |fields| && NonIncreasing(visit) && ElementsFree(Obj(fields))
    ensures TraverseMembers(fields, None, n, visit) == Walk(fields[..n], [])
    decreases Obj(fields), 0, n, 0
  {
    MembersUntouched(fields, n - 1, visit);
    ElementsFreeUntouched(fields[n - 1].1, visit);
    assert fields[..n] == fields[..n - 1] + [fields[n - 1]];
  }

  /** One step of the walk on an object with an `elements` array: first the loop over the array, then the members. */
  lemma TraverseElementsNode(fields: seq<(string, Json)>, visit: Json -> Json)
    requires NonIncreasing(visit) && ElementsIndex(fields).Some?
    ensures var i := ElementsIndex(fields).value;
            var e := VisitElements(fields, |fields[i].1.items|, visit);
            Weight(Arr(e.value)) <= Weight(fields[i].1) &&
            Traverse(Obj(fields), visit) ==
              Walk(Obj(TraverseMembers(fields, Some(Arr(e.value)), |fields|, visit).value),
                   e.visited + TraverseMembers(fields, Some(Arr(e.value)), |fields|, visit).visited)
  {
    var i := ElementsIndex(fields).value;
    ArrWeightMonotone(VisitElements(fields, |fields[i].1.items|, visit).value, fields[i].1.items);
  }

  /**
   * A node whose only member is an `elements` array: its items are visited and
   * descended into, and when what comes back holds no `elements` member the
   * second pass over the array changes nothing.
   */
  lemma ElementsOnlyNode(items: seq<Json>, visit: Json -> Json)
    requires NonIncreasing(visit)
    ensures ElementsIndex([(ElementsKey, Arr(items))]) == Some(0)
    ensures var e := VisitElements([(ElementsKey, Arr(items))], |items|, visit);
            ElementsFree(Arr(e.value)) ==>
              Traverse(Obj([(ElementsKey, Arr(items))]), visit) == Walk(Obj([(ElementsKey, Arr(e.value))]), e.visited)
  {
    var fields := [(ElementsKey, Arr(items))];
    SingleElementsIndex(Arr(items));
    TraverseElementsNode(fields, visit);
    var e := VisitElements(fields, |items|, visit);
    if ElementsFree(Arr(e.value)) {
      SingleMemberUntouched(Arr(items), Arr(e.value), visit);
      assert e.visited + [] == e.visited;
    }
  }

  /** The pass over the one member of `{elements: x0}` once the array holds x, which has no `elements` member. */
  lemma SingleMemberUntouched(x0: Json, x: Json, visit: Json -> Json)
    requires NonIncreasing(visit) && x.Arr? && ElementsFree(x) && Weight(x) <= Weight(x0)
    requires ElementsIndex([(ElementsKey, x0)]) == Some(0)
    ensures TraverseMembers([(ElementsKey, x0)], Some(x), 1, visit) == Walk([(ElementsKey, x)], [])
  {
    var fields := [(ElementsKey, x0)];
    ElementsFreeUntouched(x, visit);
    var prev := TraverseMembers(fields, Some(x), 0, visit);
    assert prev == Walk([], []);
    var t := Traverse(x, visit);
    assert t == Walk(x, []);
    assert TraverseMembers(fields, Some(x), 1, visit) == Walk(prev.value + [(fields[0].0, t.value)], prev.visited + t.visited);
    assert prev.value + [(fields[0].0, t.value)] == [(ElementsKey, x)];
    assert prev.visited + t.visited == [];
  }

  /** The items of a list that are objects or arrays, in order. */
  function ContainerItems(items: seq<Json>): (r: seq<Json>)
    ensures forall x | x in r :: IsContainer(x) && x in items
  {
    if items == [] then []
    else
      var init := ContainerItems(items[..|items| - 1]);
      var last := items[|items| - 1];
      if IsContainer(last) then init + [last] else init
  }

  /** ContainerItems keeps every object and array item of the list, and nothing else. */
  lemma {:induction false} ContainerItemsExact(items: seq<Json>)
    ensures forall x :: x in ContainerItems(items) <==> x in items && IsContainer(x)
  {
    if items != [] {
      ContainerItemsExact(items[..|items| - 1]);
      assert items == items[..|items| - 1] + [items[|items| - 1]];
    }
  }

  /** The callback never puts an `elements` member into a value that had none. */
  ghost predicate KeepsElementsFree(visit: Json -> Json) {
    forall x :: ElementsFree(x) ==> ElementsFree(visit(x))
  }

  lemma {:induction false} FlatElementsLoop(items: seq<Json>, n: nat, visit: Json -> Json)
    requires n <= |items| && NonIncreasing(visit) && KeepsElementsFree(visit)
    requires forall i :: 0 <= i < |items| ==> ElementsFree(items[i])
    ensures ElementsIndex([(ElementsKey, Arr(items))]) == Some(0)
    ensures VisitElements([(ElementsKey, Arr(items))], n, visit).visited == ContainerItems(items[..n])
    ensures ElementsFree(Arr(VisitElements([(ElementsKey, Arr(items))], n, visit).value))
    decreases n, 1
  {
    SingleElementsIndex(Arr(items));
    if n > 0 {
      FlatElementsStep(items, n, visit);
    }
  }

  /** The case n > 0 of FlatElementsLoop. */
  lemma {:induction false} FlatElementsStep(items: seq<Json>, n: nat, visit: Json -> Json)
    requires 0 < n
    requires n <= |items| && NonIncreasing(visit) && KeepsElementsFree(visit)
    requires forall i :: 0 <= i < |items| ==> ElementsFree(items[i])
    ensures ElementsIndex([(ElementsKey, Arr(items))]) == Some(0)
    ensures VisitElements([(ElementsKey, Arr(items))], n, visit).visited == ContainerItems(items[..n])
    ensures ElementsFree(Arr(VisitElements([(ElementsKey, Arr(items))], n, visit).value))
    decreases n, 0
  {
    FlatElementsLoop(items, n - 1, visit);
    assert items[..n][..n - 1] == items[..n - 1];
    VisitedItemUntouched(items[n - 1], visit);
  }

  lemma VisitedItemUntouched(x: Json, visit: Json -> Json)
    requires NonIncreasing(visit) && KeepsElementsFree(visit) && ElementsFree(x)
    ensures ElementsFree(visit(x)) && Traverse(visit(x), visit) == Walk(visit(x), [])
  {
    ElementsFreeUntouched(visit(x), visit);
  }

  /**
   * Under `{elements: items}` whose items hold no `elements` of their own, the
   * callback receives exactly the object and array items, once each, in array
   * order; scalars and `null` items are passed over.
   */
  lemma FlatElementsVisits(items: seq<Json>, visit: Json -> Json)
    requires NonIncreasing(visit) && KeepsElementsFree(visit)
    requires forall i :: 0 <= i < |items| ==> ElementsFree(items[i])
    ensures Traverse(Obj([(ElementsKey, Arr(items))]), visit).visited == ContainerItems(items)
  {
    FlatElementsLoop(items, |items|, visit);
    assert items[..|items|] == items;
    ElementsOnlyNode(items, visit);
  }

  // ---------------------------------------------------------------------------
  // Repeated visits of nested elements
  // ---------------------------------------------------------------------------

  /** `{elements: [{elements: [ ... leaf ... ]}]}`, d levels deep. */
  function Nest(leaf: Json, d: nat): Json {
    if d == 0 then leaf else Obj([(ElementsKey, Arr([Nest(leaf, d - 1)]))])
  }

  function Pow2(d: nat): nat {
    if d == 0 then 1 else 2 * Pow2(d - 1)
  }

  /** The callback that changes nothing. */
  function Keep(x: Json): Json { x }

  /**
   * The item of `elements` is passed to the callback, then the walk descends
   * into it, and then descends into it a second time through the `elements`
   * member itself.
   */
  lemma NestVisits(leaf: Json, d: nat, visit: Json -> Json)
    requires visit == Keep
    requires leaf.Obj? && d >= 1
    ensures NonIncreasing(visit)
    ensures Traverse(Nest(leaf, d), visit).visited ==
              [Nest(leaf, d - 1)] + Traverse(Nest(leaf, d - 1), visit).visited + Traverse(Nest(leaf, d - 1), visit).visited
  {
    var child := Nest(leaf, d - 1);
    var fields := [(ElementsKey, Arr([child]))];
    SingleElementsIndex(Arr([child]));
    assert ElementsIndex(fields) == Some(0);
    assert IsContainer(child) && visit(child) == child;
    TraverseIdentity(child, visit);
    var t := Traverse(child, visit);
    var e := VisitElements(fields, 1, visit);
    assert VisitElements(fields, 0, visit) == Walk([], []);
    assert fields[ElementsIndex(fields).value].1.items[0] == child;
    assert Traverse(visit(child), visit) == t;
    assert e.value == [t.value];
    assert e.visited == [child] + t.visited;
    var m := TraverseMembers(fields, Some(Arr([child])), 1, visit);
    assert TraverseItems([child], 1, visit) == Walk([t.value], t.visited);
    assert Traverse(Arr([child]), visit).visited == t.visited;
    assert TraverseMembers(fields, Some(Arr([child])), 0, visit) == Walk([], []);
    assert m.visited == t.visited;
    assert Nest(leaf, d) == Obj(fields);
  }

  /** The calls a tree d levels deep makes, as `NestVisits` describes them. */
  function NestLog(leaf: Json, d: nat): seq<Json> {
    if d == 0 then [] else [Nest(leaf, d - 1)] + NestLog(leaf, d - 1) + NestLog(leaf, d - 1)
  }

  lemma {:induction false} NestLogTraverse(leaf: Json, d: nat, visit: Json -> Json)
    requires visit == Keep
    requires leaf.Obj? && ElementsFree(leaf)
    ensures NonIncreasing(visit)
    ensures Traverse(Nest(leaf, d), visit).visited == NestLog(leaf, d)
  {
    assert NonIncreasing(visit);
    if d == 0 {
      ElementsFreeUntouched(leaf, visit);
    } else {
      NestLogTraverse(leaf, d - 1, visit);
      NestVisits(leaf, d, visit);
    }
  }

  lemma NestAboveLeaf(leaf: Json, d: nat)
    requires ElementsFree(leaf) && d >= 1
    ensures Nest(leaf, d) != leaf
  {
    assert Nest(leaf, d).fields[0].0 == ElementsKey;
  }

  lemma {:induction false} NestLogLength(leaf: Json, d: nat)
    ensures |NestLog(leaf, d)| == Pow2(d) - 1
  {
    if d > 0 {
      NestLogLength(leaf, d - 1);
    }
  }

  lemma {:induction false} NestLogLeaf(leaf: Json, d: nat)
    requires ElementsFree(leaf) && d >= 1
    ensures multiset(NestLog(leaf, d))[leaf] == Pow2(d - 1)
  {
    var inner := NestLog(leaf, d - 1);
    var top := Nest(leaf, d - 1);
    assert NestLog(leaf, d) == [top] + inner + inner;
    assert multiset(NestLog(leaf, d))[leaf] == multiset([top])[leaf] + 2 * multiset(inner)[leaf] by {
      assert multiset(NestLog(leaf, d)) == multiset([top]) + multiset(inner) + multiset(inner);
    }
    if d > 1 {
      NestLogLeaf(leaf, d - 1);
      NestAboveLeaf(leaf, d - 1);
      assert multiset([top])[leaf] == 0;
    } else {
      assert top == leaf;
      assert inner == [];
    }
  }

  /**
   * With a callback that changes nothing, a tree d levels deep makes 2^d - 1
   * calls, and its innermost element is passed to the callback 2^(d-1) times.
   */
  lemma NestRepeats(leaf: Json, d: nat)
    requires leaf.Obj? && ElementsFree(leaf) && d >= 1
    ensures NonIncreasing(Keep)
    ensures |Traverse(Nest(leaf, d), Keep).visited| == Pow2(d) - 1
    ensures multiset(Traverse(Nest(leaf, d), Keep).visited)[leaf] == Pow2(d - 1)
  {
    NestLogTraverse(leaf, d, Keep);
    NestLogLength(leaf, d);
    NestLogLeaf(leaf, d);
  }
}
