/**
 * `applyScale` in tools/hass/layout/index.js, as an opaque step: its two guards
 * are modelled exactly, and the new `style.scale` text is the host's
 * `scaleText` (the floating-point arithmetic is not interpreted).
 */
module Scaler {
  import opened Wrappers
  import opened JsonValues
  import opened Runtime

  const StyleKey := "style"
  const ScaleKey := "scale"

  /** The element's `style` once `applyScale` has replaced a non-object by `{}`. */
  function StyleOf(fields: seq<(string, Json)>): seq<(string, Json)> {
    PlainFields(Lookup(fields, StyleKey))
  }

  /** The text written to `style.scale`: the host's rounded percentage followed by `%`. */
  function ScaleText(fields: seq<(string, Json)>, factor: Factor, host: Host): string {
    host.scaleText(Lookup(StyleOf(fields), ScaleKey), factor) + "%"
  }

  /**
   * The element after `applyScale(element, scaleFactor)`. Scalars, `null`, and a
   * factor of 1, NaN or at most 0 leave the element exactly as it was, with no
   * `style` created; objects stay objects and arrays stay arrays. Writes to an
   * array element are not modelled.
   */
  function ApplyScale(element: Json, factor: Factor, host: Host): (r: Json)
    ensures !IsContainer(element) || NoScale(factor) ==> r == element
    ensures r.Obj? == element.Obj? && r.Arr? == element.Arr?
  {
    if !IsContainer(element) then element
    else if NoScale(factor) then element
    else
      match element
      case Obj(fields) =>
        var style := StyleOf(fields);
        Obj(Put(fields, StyleKey, Obj(Put(style, ScaleKey, Str(ScaleText(fields, factor, host))))))
      case _ => element
  }

  /**
   * With a factor that scales, an object element ends with a plain-object `style`
   * whose `scale` is the new percentage text; the rest of the old style is kept
   * when it was a plain object, and dropped otherwise; no other member changes.
   */
  lemma ScaleWrites(fields: seq<(string, Json)>, factor: Factor, host: Host, k: string)
    requires !NoScale(factor)
    ensures ApplyScale(Obj(fields), factor, host).Obj?
    ensures var out := ApplyScale(Obj(fields), factor, host).fields;
            Lookup(out, StyleKey).Some? && IsPlainObject(Lookup(out, StyleKey).value) &&
            Lookup(Lookup(out, StyleKey).value.fields, ScaleKey) == Some(Str(ScaleText(fields, factor, host)))
    ensures var out := ApplyScale(Obj(fields), factor, host).fields;
            k != ScaleKey ==> Lookup(Lookup(out, StyleKey).value.fields, k) == Lookup(StyleOf(fields), k)
    ensures var out := ApplyScale(Obj(fields), factor, host).fields;
            k != StyleKey ==> Lookup(out, k) == Lookup(fields, k)
  {
    var style := StyleOf(fields);
    var s := Obj(Put(style, ScaleKey, Str(ScaleText(fields, factor, host))));
    LookupPut(fields, StyleKey, s, StyleKey);
    LookupPut(fields, StyleKey, s, k);
    LookupPut(style, ScaleKey, Str(ScaleText(fields, factor, host)), ScaleKey);
    LookupPut(style, ScaleKey, Str(ScaleText(fields, factor, host)), k);
  }

  /** The element's members keep their order; `style` is appended when it was missing. */
  lemma ScaleKeys(fields: seq<(string, Json)>, factor: Factor, host: Host)
    requires !NoScale(factor)
    ensures Keys(ApplyScale(Obj(fields), factor, host).fields) ==
              if StyleKey in Keys(fields) then Keys(fields) else Keys(fields) + [StyleKey]
  {
    var style := StyleOf(fields);
    KeysPut(fields, StyleKey, Obj(Put(style, ScaleKey, Str(ScaleText(fields, factor, host)))));
  }

  /** Scaling never creates an `elements` array, so it adds no traversal work. */
  lemma ScaleWeight(element: Json, factor: Factor, host: Host)
    ensures Weight(ApplyScale(element, factor, host)) <= Weight(element)
  {
    if element.Obj? && !NoScale(factor) {
      var fields := element.fields;
      var style := StyleOf(fields);
      var text := Str(ScaleText(fields, factor, host));
      WeightPut(style, ScaleKey, text);
      WeightPut(fields, StyleKey, Obj(Put(style, ScaleKey, text)));
      assert Weight(Obj([])) == 0;
    }
  }

  lemma PutElementsFree(fields: seq<(string, Json)>, k: string, v: Json)
    requires ElementsFree(Obj(fields)) && k != ElementsKey && ElementsFree(v)
    ensures ElementsFree(Obj(Put(fields, k, v)))
  {
  }

  /** Scaling an element that holds no `elements` member gives one that holds none either. */
  lemma ScaleKeepsElementsFree(element: Json, factor: Factor, host: Host)
    requires ElementsFree(element)
    ensures ElementsFree(ApplyScale(element, factor, host))
  {
    if element.Obj? && !NoScale(factor) {
      var fields := element.fields;
      var style := StyleOf(fields);
      assert ElementsFree(Obj(style)) by {
        if IndexOf(fields, StyleKey).Some? {
          var i := IndexOf(fields, StyleKey).value;
          assert ElementsFree(fields[i].1);
        }
      }
      var text := Str(ScaleText(fields, factor, host));
      PutElementsFree(style, ScaleKey, text);
      PutElementsFree(fields, StyleKey, Obj(Put(style, ScaleKey, text)));
    }
  }
}
