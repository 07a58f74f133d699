/**
 * The document the engine works on: the value that YAML.load (for the dashboard)
 * or JSON.parse (for the rule list) hands over. An object keeps its members in
 * insertion order, which is the order Object.entries, Object.values and
 * JSON.stringify see for non-integer keys.
 */
module JsonValues {
  import opened Wrappers

  datatype Json =
    | Null
    | Bool(b: bool)
    | Num(n: real)  // finite numbers only: YAML's .nan, .inf and -.inf are not modelled
    | Str(s: string)
    | Arr(items: seq<Json>)
    | Obj(fields: seq<(string, Json)>)

  /** `value && typeof value === "object"`: arrays and objects, but not null. */
  predicate IsContainer(j: Json) {
    j.Arr? || j.Obj?
  }

  /**
   * `Object.prototype.toString.call(value) === "[object Object]"`: true of plain
   * objects only, false of arrays, null and primitives.
   */
  predicate IsPlainObject(j: Json): (r: bool)
    ensures r <==> IsContainer(j) && !j.Arr?
  {
    j.Obj?
  }

  /** `isPlainObject(v) ? v : {}`, as the members of the resulting object. */
  function PlainFields(v: Option<Json>): (r: seq<(string, Json)>)
    ensures v.Some? && IsPlainObject(v.value) ==> r == v.value.fields
    ensures v.None? || !IsPlainObject(v.value) ==> r == []
  {
    match v
    case Some(Obj(fields)) => fields
    case _ => []
  }

  /** `!value` for the values a parsed document can hold. */
  predicate Falsy(j: Json) {
    j == Null || j == Bool(false) || j == Num(0.0) || j == Str("")
  }

  // ---------------------------------------------------------------------------
  // Object members
  // ---------------------------------------------------------------------------

  function Keys(fields: seq<(string, Json)>): seq<string> {
    seq(|fields|, i requires 0 <= i < |fields| => fields[i].0)
  }

  predicate UniqueKeys(fields: seq<(string, Json)>) {
    forall i, j :: 0 <= i < j < |fields| ==> fields[i].0 != fields[j].0
  }

  /** A JavaScript object never holds the same key twice, at any depth. */
  predicate WellFormed(j: Json) {
    match j
    case Arr(items) => forall i :: 0 <= i < |items| ==> WellFormed(items[i])
    case Obj(fields) => UniqueKeys(fields) && forall i :: 0 <= i < |fields| ==> WellFormed(fields[i].1)
    case _ => true
  }

  /** The position of key `k`, if the object has it. */
  function IndexOf(fields: seq<(string, Json)>, k: string): (r: Option<nat>)
    ensures r.Some? ==> r.value < |fields| && fields[r.value].0 == k
    ensures r.Some? ==> forall j :: 0 <= j < r.value ==> fields[j].0 != k
    ensures r.None? <==> k !in Keys(fields)
  {
    if fields == [] then None
    else if fields[0].0 == k then
      assert Keys(fields)[0] == k;
      Some(0)
    else
      assert Keys(fields) == [fields[0].0] + Keys(fields[1..]);
      match IndexOf(fields[1..], k)
      case None => None
      case Some(i) => Some(i + 1)
  }

  /** `obj[k]` on a plain object: the value of the first member with key k, or undefined. */
  function Lookup(fields: seq<(string, Json)>, k: string): (r: Option<Json>)
    ensures r.Some? <==> k in Keys(fields)
  {
    match IndexOf(fields, k)
    case Some(i) => Some(fields[i].1)
    case None => None
  }

  /** What Lookup finds is the value of the first member with key k. */
  lemma LookupFound(fields: seq<(string, Json)>, k: string)
    ensures Lookup(fields, k).Some? ==>
              exists i :: 0 <= i < |fields| && fields[i] == (k, Lookup(fields, k).value) &&
                          forall j :: 0 <= j < i ==> fields[j].0 != k
  {
    if Lookup(fields, k).Some? {
      var i := IndexOf(fields, k).value;
      assert fields[i] == (k, Lookup(fields, k).value);
    }
  }

  /** The first member with a key is what Lookup finds under it; with unique keys, every member is. */
  lemma LookupAt(fields: seq<(string, Json)>, i: nat)
    requires i < |fields| && forall j :: 0 <= j < i ==> fields[j].0 != fields[i].0
    ensures Lookup(fields, fields[i].0) == Some(fields[i].1)
  {
    IndexOfAt(fields, i, fields[i].0);
  }

  /** `obj[k] = v`: an existing key keeps its position, a new key goes last. */
  function Put(fields: seq<(string, Json)>, k: string, v: Json): seq<(string, Json)> {
    match IndexOf(fields, k)
    case Some(i) => fields[i := (k, v)]
    case None => fields + [(k, v)]
  }

  lemma IndexOfKeys(f: seq<(string, Json)>, g: seq<(string, Json)>, k: string)
    requires Keys(f) == Keys(g)
    ensures IndexOf(f, k) == IndexOf(g, k)
  {
    assert |f| == |Keys(f)| == |g|;
    assert forall i :: 0 <= i < |f| ==> f[i].0 == Keys(f)[i] == g[i].0;
    match IndexOf(f, k)
    case None =>
    case Some(i) =>
      IndexOfAt(g, i, k);
  }

  /** IndexOf finds the first position holding the key. */
  lemma IndexOfAt(fields: seq<(string, Json)>, i: nat, k: string)
    requires i < |fields| && fields[i].0 == k
    requires forall j :: 0 <= j < i ==> fields[j].0 != k
    ensures IndexOf(fields, k) == Some(i)
  {
    assert Keys(fields)[i] == k;
  }

  lemma UniqueIndexOf(fields: seq<(string, Json)>, i: nat)
    requires UniqueKeys(fields) && i < |fields|
    ensures IndexOf(fields, fields[i].0) == Some(i)
  {
    assert fields[i].0 in Keys(fields) by { assert Keys(fields)[i] == fields[i].0; }
  }

  /** Writing a key leaves every other key's value as it was. */
  lemma LookupPut(fields: seq<(string, Json)>, k: string, v: Json, k': string)
    ensures Lookup(Put(fields, k, v), k') == if k' == k then Some(v) else Lookup(fields, k')
  {
    var r := Put(fields, k, v);
    if k' == k {
      match IndexOf(fields, k)
      case Some(i) => IndexOfAt(r, i, k);
      case None =>
        forall j | 0 <= j < |fields| ensures fields[j].0 != k {
          assert Keys(fields)[j] == fields[j].0;
        }
        IndexOfAt(r, |fields|, k);
    } else {
      match IndexOf(fields, k')
      case None =>
        assert k' !in Keys(r) by {
          forall i | 0 <= i < |r| ensures Keys(r)[i] != k' {
            if i < |fields| { assert Keys(fields)[i] == fields[i].0; }
          }
        }
      case Some(j) =>
        IndexOfAt(r, j, k');
    }
  }

  /** Writing a key keeps the key order, and adds the key at the end if it is new. */
  lemma KeysPut(fields: seq<(string, Json)>, k: string, v: Json)
    ensures Keys(Put(fields, k, v)) == if k in Keys(fields) then Keys(fields) else Keys(fields) + [k]
  {
  }

  lemma UniquePut(fields: seq<(string, Json)>, k: string, v: Json)
    requires UniqueKeys(fields)
    ensures UniqueKeys(Put(fields, k, v))
  {
    var r := Put(fields, k, v);
    KeysPut(fields, k, v);
    forall i, j | 0 <= i < j < |r| ensures r[i].0 != r[j].0 {
      assert Keys(r)[i] == r[i].0 && Keys(r)[j] == r[j].0;
      if j < |fields| {
        assert Keys(fields)[i] == fields[i].0 && Keys(fields)[j] == fields[j].0;
      }
    }
  }

  /** Writing back the value a key already has changes nothing. */
  lemma PutSame(fields: seq<(string, Json)>, k: string, v: Json)
    requires Lookup(fields, k) == Some(v)
    ensures Put(fields, k, v) == fields
  {
  }

  // ---------------------------------------------------------------------------
  // Property keys of arrays and strings
  // ---------------------------------------------------------------------------

  function DigitChar(d: nat): char
    requires d < 10
  {
    "0123456789"[d]
  }

  /** The decimal spelling of an index (Object.entries gives array indices as such keys). */
  function NatToString(n: nat): string
    decreases n
  {
    if n < 10 then [DigitChar(n)] else NatToString(n / 10) + [DigitChar(n % 10)]
  }

  /** The property key of array index i. */
  function IndexKey(i: nat): string {
    NatToString(i)
  }

  predicate IsDigit(c: char) {
    '0' <= c <= '9'
  }

  function DigitsValue(s: string): nat
    requires forall i :: 0 <= i < |s| ==> IsDigit(s[i])
  {
    if s == [] then 0
    else
      assert IsDigit(s[|s| - 1]);
      DigitsValue(s[..|s| - 1]) * 10 + (s[|s| - 1] as int - '0' as int)
  }

  /** A key that names an array or string index: decimal digits without a leading zero. */
  function ParseIndex(key: string): Option<nat> {
    if key == [] || (exists i :: 0 <= i < |key| && !IsDigit(key[i])) || (|key| > 1 && key[0] == '0') then None
    else Some(DigitsValue(key))
  }

  lemma {:induction false} NatToStringDigits(n: nat)
    ensures |NatToString(n)| > 0
    ensures forall i :: 0 <= i < |NatToString(n)| ==> IsDigit(NatToString(n)[i])
    ensures n >= 10 ==> NatToString(n)[0] != '0'
    ensures DigitsValue(NatToString(n)) == n
    decreases n
  {
    if n >= 10 {
      NatToStringDigits(n / 10);
      var s := NatToString(n);
      assert s[..|s| - 1] == NatToString(n / 10);
      if n / 10 < 10 {
        assert NatToString(n / 10)[0] == DigitChar(n / 10);
      }
    }
  }

  /** Index keys round-trip: the key Object.entries writes for index n reads back as n. */
  lemma ParseIndexOfIndexKey(n: nat)
    ensures ParseIndex(IndexKey(n)) == Some(n)
  {
    NatToStringDigits(n);
  }

  /** `actual?.[key]`: own properties of objects, indices and `length` of arrays and strings. */
  function Get(actual: Option<Json>, key: string): (r: Option<Json>)
    ensures actual.Some? && actual.value.Obj? ==> r == Lookup(actual.value.fields, key)
    ensures actual.None? || (actual.Some? && !actual.value.Obj? && !actual.value.Arr? && !actual.value.Str?) ==> r.None?
  {
    match actual
    case None => None
    case Some(Obj(fields)) => Lookup(fields, key)
    case Some(Arr(items)) =>
      if key == "length" then Some(Num(|items| as real))
      else (match ParseIndex(key)
            case Some(i) => if i < |items| then Some(items[i]) else None
            case None => None)
    case Some(Str(s)) =>
      if key == "length" then Some(Num(|s| as real))
      else (match ParseIndex(key)
            case Some(i) => if i < |s| then Some(Str([s[i]])) else None
            case None => None)
    case Some(_) => None
  }

  /** On an array, the key written for index i reads item i, or undefined past the end; `length` reads the item count. */
  lemma GetArray(items: seq<Json>, i: nat)
    ensures Get(Some(Arr(items)), IndexKey(i)) == if i < |items| then Some(items[i]) else None
    ensures Get(Some(Arr(items)), "length") == Some(Num(|items| as real))
  {
    IndexKeyNotLength(i);
  }

  /** On a string, the key written for index i reads the one-character string at i, or undefined past the end. */
  lemma GetString(s: string, i: nat)
    ensures Get(Some(Str(s)), IndexKey(i)) == if i < |s| then Some(Str([s[i]])) else None
    ensures Get(Some(Str(s)), "length") == Some(Num(|s| as real))
  {
    IndexKeyNotLength(i);
  }

  /** On an array or a string, a key that is neither `length` nor an index reads as undefined. */
  lemma GetOtherKey(actual: Json, key: string)
    requires actual.Arr? || actual.Str?
    requires key != "length" && ParseIndex(key).None?
    ensures Get(Some(actual), key).None?
  {
  }

  lemma IndexKeyNotLength(i: nat)
    ensures IndexKey(i) != "length" && ParseIndex(IndexKey(i)) == Some(i)
  {
    ParseIndexOfIndexKey(i);
    NatToStringDigits(i);
    assert IsDigit(IndexKey(i)[0]);
  }

  /** Object.entries of an object or an array. */
  function Entries(j: Json): (r: seq<(string, Json)>)
    ensures j.Obj? ==> r == j.fields
    ensures j.Arr? ==> |r| == |j.items| && forall i :: 0 <= i < |r| ==> r[i] == (IndexKey(i), j.items[i])
  {
    match j
    case Obj(fields) => fields
    case Arr(items) => seq(|items|, i requires 0 <= i < |items| => (IndexKey(i), items[i]))
    case _ => []
  }

  // ---------------------------------------------------------------------------
  // The `elements` convention and the measure that bounds a traversal
  // ---------------------------------------------------------------------------

  const ElementsKey := "elements"

  /** The position of the object's `elements` member when that member is an array. */
  function ElementsIndex(fields: seq<(string, Json)>): (r: Option<nat>)
    ensures r.Some? ==> r.value < |fields| && fields[r.value].0 == ElementsKey && fields[r.value].1.Arr?
    ensures r.Some? <==> (match Lookup(fields, ElementsKey) case Some(v) => v.Arr? case None => false)
  {
    match IndexOf(fields, ElementsKey)
    case Some(i) => if fields[i].1.Arr? then Some(i) else None
    case None => None
  }

  /** `{elements: x}` with x an array has its `elements` member first. */
  lemma SingleElementsIndex(x: Json)
    requires x.Arr?
    ensures ElementsIndex([(ElementsKey, x)]) == Some(0)
  {
    assert Keys([(ElementsKey, x)])[0] == ElementsKey;
    IndexOfAt([(ElementsKey, x)], 0, ElementsKey);
  }

  function Sum(ns: seq<nat>): nat {
    if ns == [] then 0 else Sum(ns[..|ns| - 1]) + ns[|ns| - 1]
  }

  /**
   * The number of objects, at any depth, whose `elements` member is an array.
   * A traversal visits items of such arrays only, so it is bounded by this measure.
   */
  function Weight(j: Json): nat
    decreases j, 1
  {
    match j
    case Arr(items) => Sum(ItemWeights(items))
    case Obj(fields) => Sum(FieldWeights(fields)) + (if ElementsIndex(fields).Some? then 1 else 0)
    case _ => 0
  }

  function ItemWeights(items: seq<Json>): seq<nat>
    decreases Arr(items), 0
  {
    seq(|items|, i requires 0 <= i < |items| => Weight(items[i]))
  }

  function FieldWeights(fields: seq<(string, Json)>): seq<nat>
    decreases Obj(fields), 0
  {
    seq(|fields|, i requires 0 <= i < |fields| => Weight(fields[i].1))
  }

  lemma {:induction false} SumAtLeastElement(ns: seq<nat>, i: nat)
    requires i < |ns|
    ensures ns[i] <= Sum(ns)
  {
    if i < |ns| - 1 {
      SumAtLeastElement(ns[..|ns| - 1], i);
    }
  }

  lemma {:induction false} SumZero(ns: seq<nat>)
    requires forall i :: 0 <= i < |ns| ==> ns[i] == 0
    ensures Sum(ns) == 0
  {
    if ns != [] {
      SumZero(ns[..|ns| - 1]);
    }
  }

  lemma {:induction false} SumMonotone(ns: seq<nat>, ms: seq<nat>)
    requires |ns| == |ms|
    requires forall i :: 0 <= i < |ns| ==> ns[i] <= ms[i]
    ensures Sum(ns) <= Sum(ms)
  {
    if ns != [] {
      SumMonotone(ns[..|ns| - 1], ms[..|ms| - 1]);
    }
  }

  lemma {:induction false} SumUpdate(ns: seq<nat>, i: nat, x: nat)
    requires i < |ns|
    ensures Sum(ns[i := x]) + ns[i] == Sum(ns) + x
  {
    if i < |ns| - 1 {
      assert ns[i := x][..|ns| - 1] == ns[..|ns| - 1][i := x];
      SumUpdate(ns[..|ns| - 1], i, x);
    } else {
      assert ns[i := x][..|ns| - 1] == ns[..|ns| - 1];
    }
  }

  lemma SumAppend(ns: seq<nat>, x: nat)
    ensures Sum(ns + [x]) == Sum(ns) + x
  {
    assert (ns + [x])[..|ns|] == ns;
  }

  lemma ItemWeightBound(items: seq<Json>, i: nat)
    requires i < |items|
    ensures Weight(items[i]) <= Weight(Arr(items))
  {
    SumAtLeastElement(ItemWeights(items), i);
  }

  lemma FieldWeightBound(fields: seq<(string, Json)>, i: nat)
    requires i < |fields|
    ensures Weight(fields[i].1) <= Weight(Obj(fields))
    ensures ElementsIndex(fields) == Some(i) ==> Weight(fields[i].1) < Weight(Obj(fields))
  {
    SumAtLeastElement(FieldWeights(fields), i);
  }

  /** Objects with the same keys and pointwise lighter values weigh no more. */
  lemma ObjWeightMonotone(f: seq<(string, Json)>, g: seq<(string, Json)>)
    requires Keys(f) == Keys(g)
    requires forall i :: 0 <= i < |f| ==> Weight(f[i].1) <= Weight(g[i].1)
    requires forall i :: 0 <= i < |f| ==> (f[i].1.Arr? <==> g[i].1.Arr?)
    ensures Weight(Obj(f)) <= Weight(Obj(g))
  {
    assert |f| == |Keys(f)| == |g|;
    IndexOfKeys(f, g, ElementsKey);
    SumMonotone(FieldWeights(f), FieldWeights(g));
  }

  lemma ArrWeightMonotone(xs: seq<Json>, ys: seq<Json>)
    requires |xs| == |ys|
    requires forall i :: 0 <= i < |xs| ==> Weight(xs[i]) <= Weight(ys[i])
    ensures Weight(Arr(xs)) <= Weight(Arr(ys))
  {
    SumMonotone(ItemWeights(xs), ItemWeights(ys));
  }

  /** Writing a key other than `elements` changes the weight by exactly the values' difference. */
  lemma WeightPut(fields: seq<(string, Json)>, k: string, v: Json)
    requires k != ElementsKey
    ensures Weight(Obj(Put(fields, k, v))) + (match Lookup(fields, k) case Some(prev) => Weight(prev) case None => 0)
            == Weight(Obj(fields)) + Weight(v)
  {
    var r := Put(fields, k, v);
    LookupPut(fields, k, v, ElementsKey);
    assert ElementsIndex(r).Some? == ElementsIndex(fields).Some?;
    match IndexOf(fields, k)
    case Some(i) =>
      assert FieldWeights(r) == FieldWeights(fields)[i := Weight(v)];
      SumUpdate(FieldWeights(fields), i, Weight(v));
    case None =>
      assert FieldWeights(r) == FieldWeights(fields) + [Weight(v)];
      SumAppend(FieldWeights(fields), Weight(v));
  }

  /** No object at any depth has an `elements` key. */
  predicate ElementsFree(j: Json) {
    match j
    case Arr(items) => forall i :: 0 <= i < |items| ==> ElementsFree(items[i])
    case Obj(fields) => forall i :: 0 <= i < |fields| ==> fields[i].0 != ElementsKey && ElementsFree(fields[i].1)
    case _ => true
  }

  lemma {:induction false} ElementsFreeWeightless(j: Json)
    requires ElementsFree(j)
    ensures Weight(j) == 0
  {
    match j
    case Arr(items) =>
      forall i | 0 <= i < |items| ensures ItemWeights(items)[i] == 0 {
        ElementsFreeWeightless(items[i]);
      }
      SumZero(ItemWeights(items));
    case Obj(fields) =>
      forall i | 0 <= i < |fields| ensures FieldWeights(fields)[i] == 0 {
        ElementsFreeWeightless(fields[i].1);
      }
      SumZero(FieldWeights(fields));
      assert ElementsKey !in Keys(fields) by {
        forall i | 0 <= i < |fields| ensures Keys(fields)[i] != ElementsKey { }
      }
    case _ =>
  }

  /** The top-level shape a traversal keeps: kind, object keys, array length. */
  predicate SameShape(a: Json, b: Json) {
    match a
    case Arr(xs) => b.Arr? && |b.items| == |xs|
    case Obj(f) => b.Obj? && Keys(b.fields) == Keys(f)
    case _ => b == a
  }
}
