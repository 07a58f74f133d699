# Layout override engine: a Dafny model

The Home Assistant layout tool (tools/hass/layout/index.js) takes an
already-parsed dashboard document and a list of JSON rules. Each rule has `filters` and a payload.
The tool walks the document, and every element it finds inside an `elements` array is checked against
every rule in list order. When a rule's filters match, its payload is deep-merged into the element at
once. An element that matched some rule then gets its `style.scale` rescaled by the scale factor. With
no rules, every element is rescaled (scale-only mode). The rules text is read with its comments
stripped first.

The model works on values:

- `JsonValues.Json` is a parsed document. Objects keep their members in insertion order. `undefined` is
  `Option.None`.
- The source mutates elements in place. Here each operation returns the new value.
- Where the source has loops that keep state, the model has a method with that loop and its
  invariants. Each method is proved equal to a function, and the properties are lemmas about those
  functions:
  - `Engine.VisitElement`, the `matched` flag;
  - `Merger.MergeRule`, the loop over the payload entries;
  - `Traversal.TraverseNode` with `TraverseItemsLoop`, `VisitElementsLoop` and `TraverseMembersLoop`, the
    `forEach` walks.
- Things the engine uses but does not define are fields of `Runtime.Host`, passed in by the caller:
  - the RegExp engine;
  - `String(number)`;
  - the floating-point arithmetic of `applyScale`.

Modules:

- `Wrappers`: `Option`.
- `JsonValues`: the values, member lookup and write, `Object.entries`, `actual?.[key]` on objects,
  arrays and strings, and the traversal measure `Weight`.
- `Runtime`: the scale factor (`Factor`), the `NoScale` guard and the `Host`.
- `Matcher`: `matchesFilters`, `matchValue` and recognising `/pattern/flags`.
- `Merger`: `deepMerge`, `isPlainObject` (as `JsonValues.IsPlainObject`) and `mergeRule`.
- `Scaler`: `applyScale`, its guard and the writes it makes.
- `Traversal`: `traverse`, which returns the new tree and the log of callback calls in order.
- `Engine`: `applyOverrides` and `applyScaleOnly`.
- `Comments`: `stripJsonComments`, as the two left-to-right scans its two global replacements perform.

Five points of the code's behaviour shape the model:

- **Repeated visits.** Each item of an `elements` array is traversed twice, at line 142 and again at
  line 147, because `Object.values` at line 147 includes the `elements` array itself. An element d
  levels below the root's `elements` is therefore passed to the callback 2^(d-1) times; the model
  states this for a callback that changes nothing (`Traversal.NestRepeats`).
- **Scale guard.** `applyScale` returns at line 199, before line 201 creates `style`. A factor of 1,
  NaN or at most 0 therefore leaves the element exactly as it was, with no `style` member created
  (`Scaler.ApplyScale`, `Engine.LightGoesRed`).
- **Array items.** Line 140 tests `typeof element === "object"`, so array items of `elements` are passed
  to the callback as well as objects (`Traversal.FlatElementsVisits`).
- **Line comments.** The pattern at line 226 keeps a `//` whose preceding character is `:` or `\`;
  either character protects it (`Comments.KeptUnchanged`, `Comments.KeptPrefix`).
- **Termination.** The measure `Weight` counts the objects whose `elements` member is an array. The
  walk terminates when the callback never raises it (`Traversal.NonIncreasing`). In `applyOverrides`
  that holds when no rule payload writes an `elements` member or a value holding one
  (`Engine.SafeRules`). On some payloads the source recurses without bound (in practice a stack-overflow `RangeError`, reported as a processing error by the `try` at
  lines 72-81), as described under
  "Left out".

## Model

| member | source | states |
|---|---|---|
| JsonValues.PlainFields | tools/hass/layout/index.js:219-221 | `isPlainObject(v) ? v : {}`: the object's own members when v is a plain object, no members for arrays, `null`, scalars and undefined |
| JsonValues.IsPlainObject | tools/hass/layout/index.js:219-221 | `isPlainObject`: true exactly for objects, false for arrays, `null`, scalars and undefined |
| JsonValues.Lookup | tools/hass/layout/index.js:190 | `element[key]` on an object: a value exactly when the key is one of its members |
| JsonValues.LookupFound | tools/hass/layout/index.js:190 | what `element[key]` reads is the value of the first member with that key |
| JsonValues.LookupAt | tools/hass/layout/index.js:190 | the first member with a key is what `element[key]` reads under it; with unique keys, every member is |
| JsonValues.LookupPut | tools/hass/layout/index.js:190-192 | after `element[key] = v`, reading key gives v and every other key reads as before |
| JsonValues.KeysPut | tools/hass/layout/index.js:190-192 | `element[key] = v` keeps the member order, and a new key is appended last |
| JsonValues.PutSame | tools/hass/layout/index.js:190-192 | writing back the value a key already holds changes nothing |
| JsonValues.Get | tools/hass/layout/index.js:156 | `actual?.[key]`: an object's member; undefined on undefined, `null`, numbers and booleans |
| JsonValues.GetArray | tools/hass/layout/index.js:156 | on an array, the key of index i reads item i, or undefined past the end, and `length` reads the item count |
| JsonValues.GetString | tools/hass/layout/index.js:156 | on a string, the key of index i reads the one-character string at i, or undefined past the end, and `length` reads the length |
| JsonValues.GetOtherKey | tools/hass/layout/index.js:156 | on an array or a string, a key that is neither `length` nor an index reads as undefined |
| JsonValues.Entries | tools/hass/layout/index.js:155 | `Object.entries`: an object's members in order; an array's items keyed "0", "1", … |
| JsonValues.ParseIndexOfIndexKey | tools/hass/layout/index.js:155 | the key `Object.entries` gives array index n reads back as index n, so array entries have distinct keys |
| Matcher.RegexShape | tools/hass/layout/index.js:169 | a recognised string is exactly `/` + pattern + `/` + flags, with word-character flags and a pattern without line terminators |
| Matcher.RegexShapeComplete | tools/hass/layout/index.js:169 | every such string is recognised, with exactly that pattern and those flags |
| Matcher.MatchesFilters | tools/hass/layout/index.js:150-162 | an object filter matches iff every entry matches the element's attribute under its key; an array filter iff every item matches the attribute at its index; any other filter (`null`, missing, a scalar) matches everything |
| Matcher.EntryMatches | tools/hass/layout/index.js:155-161 | one entry of `every`: a nested `{}` expectation always holds, and a non-object, non-pattern expectation holds iff the attribute is that very value |
| Matcher.FieldsMatch | tools/hass/layout/index.js:155-161 | `every` over the first n entries of an object filter holds iff each of them matches |
| Matcher.ItemsMatch | tools/hass/layout/index.js:155-161 | the same for an array filter, entry i being keyed by index i |
| Matcher.MatchValue | tools/hass/layout/index.js:164-183 | an undefined expectation matches anything; a `/pattern/flags` string holds iff the host's RegExp test on `String(actual ?? "")` is true; any other expectation holds iff the attribute is that value (JSON-serialised equality for objects, arrays and `null`, `===` otherwise) |
| Matcher.Subject | tools/hass/layout/index.js:173 | `String(actual ?? "")`: the empty string for undefined and `null`, the string itself, and `[object Object]` for an object |
| Matcher.WildcardFilters | tools/hass/layout/index.js:151-155 | one-step consequence of `MatchesFilters`: `{}`, `[]` and every filter that is not an object or array match every element, even a missing one |
| Matcher.UndefinedFailsScalar | tools/hass/layout/index.js:155-161 | when the attribute reads as undefined, a defined expectation that is neither an object nor a pattern makes the whole filter fail |
| Matcher.PatternExpectation | tools/hass/layout/index.js:168-177 | a `/pattern/flags` expectation holds iff the host's RegExp test on `String(actual ?? "")` is true; a pattern that does not compile fails |
| Matcher.KeyOrderMatters | tools/hass/layout/index.js:179-181 | where `matchValue` compares objects, the same members in another order do not match: serialisation is key-order sensitive |
| Matcher.KeyOrderInArray | tools/hass/layout/index.js:155-181 | `{tags: [{a: 1, b: 2}]}` does not match `{tags: [{b: 2, a: 1}]}`: an object inside an array expectation is compared by serialisation |
| Matcher.KeyOrderIgnoredInObject | tools/hass/layout/index.js:157-158 | `{tags: {a: 1, b: 2}}` matches `{tags: {b: 2, a: 1}}`: a plain-object expectation is matched key by key |
| Matcher.NestedAgainstString | tools/hass/layout/index.js:157-160 | `{region: {"$eq": "us-east"}}` does not match `{region: "us-east"}` |
| Matcher.KitchenPattern | tools/hass/layout/index.js:169-173 | `{name: "/^kitchen_/"}` matches iff the RegExp `^kitchen_` accepts the name |
| Merger.DeepMergeSnoc | tools/hass/layout/index.js:209-215 | each source member is one more write on top of the merge so far: plain objects merge into the current value (or `{}`), anything else replaces it |
| Merger.MergedValue | tools/hass/layout/index.js:210-214 | the value one write stores: a plain object stays an object whose keys are the current plain object's keys plus its own; any other value is stored as it is |
| Merger.DeepMerge | tools/hass/layout/index.js:207-217 | the result has the target's keys first and in order, and its key set is target keys ∪ source keys |
| Merger.DeepMergeKeepsTarget | tools/hass/layout/index.js:208-216 | target values under keys the source does not mention are kept |
| Merger.DeepMergeWrites | tools/hass/layout/index.js:210-214 | a source key ends up with its value merged over the target's; a value that is not a plain object (an array included) replaces it |
| Merger.DeepMergeIdempotent | tools/hass/layout/index.js:207-217 | merging the same source a second time changes nothing |
| Merger.DeepMergeWeight | tools/hass/layout/index.js:207-217 | a source that writes no `elements` anywhere adds no `elements` arrays to the result |
| Merger.Writes | tools/hass/layout/index.js:187-188 | an entry is written iff it is a payload entry whose key is neither `filters` nor `overrides`, so `filters` and `overrides` are never written and no other key is lost |
| Merger.Payload | tools/hass/layout/index.js:186 | the payload is `rule.overrides` when that is a plain object, and the rule itself otherwise |
| Merger.Merged | tools/hass/layout/index.js:185-195 | an object element stays an object whose keys are its own plus the written payload keys; any other element is returned as it was |
| Merger.MergeRule | tools/hass/layout/index.js:185-195 | the loop over `Object.entries(payload)` computes `Merged`: the element with the written entries deep-merged in, in order |
| Merger.MergeSkipsControlKeys | tools/hass/layout/index.js:188 | `filters` and `overrides` are never written into the element |
| Merger.MergeKeepsUnmentioned | tools/hass/layout/index.js:187-194 | element keys the payload does not mention keep their values |
| Merger.MergeWritesPayload | tools/hass/layout/index.js:186-193 | every written payload entry (from `rule.overrides` when that is a plain object, else from the rule) is merged over the old value, and replaces it when it is not a plain object |
| Merger.MergeIdempotent | tools/hass/layout/index.js:185-195 | applying the same rule twice leaves the element as applying it once |
| Merger.MergeWeight | tools/hass/layout/index.js:185-195 | a rule that writes no `elements` gives the walk no more arrays to descend into |
| Scaler.ApplyScale | tools/hass/layout/index.js:197-205 | scalars, `null`, and a factor of 1, NaN or at most 0 leave the element exactly as it was, with no `style` created; objects stay objects and arrays stay arrays |
| Runtime.NoScale | tools/hass/layout/index.js:121 | the factor is left alone exactly when it is not a positive number other than 1 (positive infinity scales) |
| Scaler.ScaleWrites | tools/hass/layout/index.js:201-204 | with a factor that scales, `style` becomes a plain object whose `scale` is the new percentage text; the rest of a plain-object style and every other member are kept |
| Scaler.ScaleKeys | tools/hass/layout/index.js:201 | member order is kept, and `style` comes last when it was missing |
| Scaler.ScaleWeight | tools/hass/layout/index.js:197-205 | scaling adds no `elements` array |
| Scaler.ScaleKeepsElementsFree | tools/hass/layout/index.js:201-204 | scaling an element without an `elements` member at any depth gives one without as well |
| Traversal.Traverse | tools/hass/layout/index.js:128-148 | the walk leaves scalars and `null` alone, keeps the node's kind, keys and length, and passes only objects and arrays to the callback |
| Traversal.TraverseItems | tools/hass/layout/index.js:134 | walking the first n children of an array gives n results, none heavier than its child |
| Traversal.VisitElements | tools/hass/layout/index.js:139-144 | the `elements` loop keeps the array length and passes only objects and arrays to the callback |
| Traversal.TraverseMembers | tools/hass/layout/index.js:147 | walking the first n members keeps their keys and which of them are arrays, and passes only objects and arrays to the callback |
| Traversal.TraverseMembersKinds | tools/hass/layout/index.js:147 | walking the members keeps each member's kind: objects stay objects, arrays stay arrays, and scalars and `null` come back as they were |
| Traversal.TraverseNode | tools/hass/layout/index.js:128-148 | `traverse` with its `forEach` loops computes exactly `Traverse` |
| Traversal.TraverseItemsLoop | tools/hass/layout/index.js:134 | `node.forEach(traverse)` computes `TraverseItems` |
| Traversal.VisitElementsLoop | tools/hass/layout/index.js:138-145 | visit each object or array item, then traverse what the callback left: computes `VisitElements` |
| Traversal.TraverseMembersLoop | tools/hass/layout/index.js:147 | `Object.values(node).forEach(traverse)` computes `TraverseMembers`, with `elements` as the loop above left it |
| Traversal.TraverseItem | tools/hass/layout/index.js:134 | one turn of `node.forEach(traverse)`: from `TraverseItems` of the first k children to that of the first k+1 |
| Traversal.VisitElementsItem | tools/hass/layout/index.js:139-144 | one turn of the loop over `elements`: an object or array item is logged, visited and traversed, any other item is kept; from `VisitElements` of k items to k+1 |
| Traversal.TraverseMember | tools/hass/layout/index.js:147 | one turn of `Object.values(node).forEach(traverse)`: from `TraverseMembers` of k members to k+1 |
| Traversal.TraverseIdentity | tools/hass/layout/index.js:128-148 | a callback that changes nothing leaves the document as it was |
| Traversal.ElementsFreeUntouched | tools/hass/layout/index.js:128-148 | a tree without any `elements` member makes no calls and is not changed |
| Traversal.ElementsOnlyNode | tools/hass/layout/index.js:138-147 | in `{elements: items}` the items are visited and descended into; when the results hold no `elements`, the second pass over the array changes nothing |
| Traversal.ContainerItems | tools/hass/layout/index.js:140 | the items passed to the callback: objects and arrays taken from the list |
| Traversal.ContainerItemsExact | tools/hass/layout/index.js:140 | an item is passed to the callback iff it is an object or an array of the list |
| Traversal.FlatElementsVisits | tools/hass/layout/index.js:138-145 | under `{elements: items}` with no deeper `elements`, the callback gets exactly the object and array items, once each, in array order |
| Traversal.NestVisits | tools/hass/layout/index.js:139-147 | with a callback that changes nothing, a nested `elements` item is passed to the callback, then walked, then walked again through `Object.values` |
| Traversal.NestRepeats | tools/hass/layout/index.js:139-147 | with a callback that changes nothing, a tree d levels deep makes 2^d - 1 calls, and its innermost element is passed 2^(d-1) times |
| Engine.FiltersOf | tools/hass/layout/index.js:108 | `rule.filters` or else `{}`: the rule's filters when they are truthy, `{}` otherwise, never a falsy value |
| Engine.Try | tools/hass/layout/index.js:107-110 | trying one rule either leaves the outcome alone or merges the rule and sets `matched`; a `null` or primitive rule always leaves it alone |
| Engine.RunRulesKind | tools/hass/layout/index.js:106-111 | the rules keep an object an object and leave any other element as it was |
| Engine.Visit | tools/hass/layout/index.js:104-115 | the callback leaves an element no rule matched exactly as it was, keeps an object an object, and returns any other value unchanged |
| Engine.VisitElement | tools/hass/layout/index.js:104-115 | the callback with its `matched` flag and rule loop computes `Visit` |
| Engine.ApplyScaleOnly | tools/hass/layout/index.js:120-126 | `applyScaleOnly` returns the data untouched for a no-op factor, and otherwise walks it scaling every element |
| Engine.ScaleOnly | tools/hass/layout/index.js:120-126 | a no-op factor returns the data untouched; so does a tree with no `elements` member; the walk keeps the data's shape |
| Engine.ApplyOverrides | tools/hass/layout/index.js:99-118 | with no rules (not a non-empty array) it is scale-only mode, and otherwise it walks the data with the rule callback |
| Engine.Overridden | tools/hass/layout/index.js:99-118 | with no rules and a no-op factor, or with no `elements` member anywhere, the data comes back untouched; the result keeps the data's shape |
| Engine.RunRulesWeight | tools/hass/layout/index.js:106-111 | trying rules that write no `elements` adds no `elements` arrays |
| Engine.VisitorNonIncreasing | tools/hass/layout/index.js:104-115 | with such rules the callback never gives the walk more to do, so the walk terminates |
| Engine.ScaleVisitorNonIncreasing | tools/hass/layout/index.js:124 | the scale-only callback never gives the walk more to do |
| Engine.MatchedIffFired | tools/hass/layout/index.js:105-111 | `matched` is set iff some rule fired on the element as earlier rules left it, and the element is untouched until one does |
| Engine.FiredMerges | tools/hass/layout/index.js:106-111 | the definition of `Before`, one rule at a time: a firing rule is merged over the merges of the rules before it |
| Engine.ScaleOnlyWhenFired | tools/hass/layout/index.js:112-114 | the element is scaled exactly once, after all merges, if some rule fired, and otherwise returned as it was |
| Engine.FiredWrites | tools/hass/layout/index.js:106-111 | right after a firing rule whose payload holds a non-object value under k, the element holds exactly that value |
| Engine.LastWriterWins | tools/hass/layout/index.js:106-111 | that value survives every later rule, unless a later rule that fires mentions k in its payload: the last matching writer wins |
| Engine.KeptThrough | tools/hass/layout/index.js:106-111 | the rules after rule m and before rule n leave k's value as rule m left it when none of them that fires mentions k |
| Engine.UnmentionedKept | tools/hass/layout/index.js:106-111 | a rule whose payload does not mention k leaves k's value alone, whether it fires or not |
| Engine.RuleObjects | tools/hass/layout/index.js:107 | a rule is kept iff it is an object or an array of the list: exactly the rules that are not skipped |
| Engine.SkippedRulesIgnored | tools/hass/layout/index.js:107 | `null` and primitive rules are skipped: dropping them changes nothing |
| Engine.SkippedRulesNoChange | tools/hass/layout/index.js:104-115 | a list made only of `null` and primitive rules leaves the document unchanged, whatever the factor |
| Engine.ScaledItems | tools/hass/layout/index.js:124 | every one of the items, scaled |
| Engine.ScaleOnlyScalesEveryElement | tools/hass/layout/index.js:120-126 | in scale-only mode every item of a top-level `elements` array is scaled and nothing else changes |
| Engine.LightGoesRed | tools/hass/layout/index.js:104-115 | `{filters: {type: "light"}, overrides: {style: {color: "red"}}}` turns a lamp's style red and adds no `scale` at factor 1 |
| Engine.SecondRuleWins | tools/hass/layout/index.js:106-111 | two matching rules setting `a` to 1 and then 2 leave `a: 2` |
| Engine.LightRuleOnly | tools/hass/layout/index.js:106-108 | on `{type: "light"}`, the rule filtering on `type: "light"` fires and the rule after it filtering on `type: "fan"` does not, the element still being a light |
| Engine.NonFiringRuleIgnored | tools/hass/layout/index.js:106-111 | on `{type: "light"}`, `{filters: {type: "light"}, a: 1}` then `{filters: {type: "fan"}, a: 5}` leave `a: 1`: a rule that does not fire writes nothing |
| Comments.CloseFrom | tools/hass/layout/index.js:225 | finds the first star-slash at or after i, or reports that there is none |
| Comments.StripBlocks | tools/hass/layout/index.js:225 | the block-comment pass never lengthens the text; what it removes is stated by `Comments.BlockRemoved` and `Comments.BlockRemovedAfter` |
| Comments.LineEnd | tools/hass/layout/index.js:226 | where `.*` stops: at the first line terminator, or at the end |
| Comments.StripLines | tools/hass/layout/index.js:226 | the line-comment pass never lengthens the text; what it removes is stated by `Comments.LineCommentRemoved` and `Comments.LineCommentAfter` |
| Comments.StripJsonComments | tools/hass/layout/index.js:223-227 | the output is never longer than the input |
| Comments.NoBlockUnchanged | tools/hass/layout/index.js:225 | text without a slash-star passes the first pass unchanged |
| Comments.KeptUnchanged | tools/hass/layout/index.js:226 | text whose every `//` follows `:` or `\` passes the second pass unchanged |
| Comments.NoLineCommentUnchanged | tools/hass/layout/index.js:226 | text without `//` passes the second pass unchanged |
| Comments.PlainTextUnchanged | tools/hass/layout/index.js:223-227 | text with neither slash-star nor `//` is returned unchanged |
| Comments.UrlsKept | tools/hass/layout/index.js:223-227 | a whole text with no slash-star in which every `//` follows `:` or `\` is returned unchanged |
| Comments.KeptPrefix | tools/hass/layout/index.js:226 | a stretch of text in which every `//` follows `:` or `\`, ending in `:` or `\`, passes the second pass unchanged whatever follows, and the scan resumes after it in mid-line |
| Comments.Terminators | tools/hass/layout/index.js:226 | the line terminators of a text, in order |
| Comments.StripLinesKeepsLines | tools/hass/layout/index.js:226 | the second pass deletes only up to the end of a line: every line terminator survives, in order |
| Comments.BlockRemoved | tools/hass/layout/index.js:225 | a block comment with no star-slash inside is removed, and the scan goes on right after it |
| Comments.NoBlockPrefix | tools/hass/layout/index.js:225 | text without a slash-star passes the first pass unchanged whatever follows it, unless what follows starts with a star |
| Comments.BlockRemovedAfter | tools/hass/layout/index.js:225 | after such text, a block comment is removed and the text before it stays |
| Comments.CommentLineEnd | tools/hass/layout/index.js:226 | the `.*` of a line comment stops where the comment text ends, at the line terminator or the end |
| Comments.LineCommentRemoved | tools/hass/layout/index.js:226 | at a line start, `//` and the rest of its line are removed; the line terminator stays |
| Comments.LineCommentAfter | tools/hass/layout/index.js:226 | after a character other than `\` and `:` (and other than `/` at a line start), `//` and the rest of its line are removed and that character stays |
| Comments.UrlExample | tools/hass/layout/index.js:226 | `"https://example.com"` survives |
| Comments.BlockCommentExample | tools/hass/layout/index.js:225 | `a/*x*/b` becomes `ab` |
| Comments.LineCommentExample | tools/hass/layout/index.js:226 | `1 //c` followed by a newline and `2` keeps the character before the comment and the newline |

## Left out

- The editor, status chip, auto-resize and debounce (UI and timing): they are DOM plumbing outside the engine.
- `loadOverrides` and its fetch, `YAML.load`, `YAML.dump`, `JSON.parse` and `structuredClone`: these are I/O or library calls, so the model starts from parsed values.
- Scaler.ApplyScale: the new `style.scale` text is `Host.scaleText`, left uninterpreted. The model does not interpret `parseFloat`, `Number(…) || 100`, `Math.round(next * 100) / 100` or number formatting, because they are floating-point arithmetic. Compounding of repeated scales is therefore not stated.
- Matcher.MatchValue: the RegExp engine is `Host.regexTest`, which returns None when the constructor throws. `String(number)` is `Host.numberText`. Only the `/pattern/flags` shape is modelled exactly.
- Engine.ApplyOverrides: requires every rule payload to write no `elements` member and no value holding one, which the source does not demand. A payload that injects `elements` is traversed right after the merge and can match again. The tree can then grow without bound, or become cyclic, so the source recurses without bound (in practice a stack-overflow `RangeError`, which the `try` at lines 72-81 reports as a processing error). The model keeps the walk terminating by excluding that.
- Engine.Overridden: carries the same requirement on the rules as `Engine.ApplyOverrides`.
- Merger.Merged: writes into an element that is an array (`element[key] = …` on an array) are not modelled. The array is returned unchanged.
- Scaler.ApplyScale: scaling an element that is an array, which would set a `style` property on the array, is not modelled. The array is returned unchanged.
- Aliasing is not modelled, because values have no identity here. This covers the rule arrays `mergeRule` assigns by reference and the shallow copies `deepMerge` makes. It also covers later in-place changes seen through both references.
- `deepMerge` does not mutate its arguments. This holds trivially of a function on values, so no lemma states it.
- Non-plain objects from YAML (such as `Date`), `__proto__` keys and inherited properties: the model's objects are own-member records only.
- JavaScript's ordering of integer-like keys before other keys: `Object.entries` is taken as insertion order.
- Document numbers are modelled as finite only. YAML's `.nan`, `.inf` and `-.inf` are left out, and so is `JSON.stringify` writing them as `null` (which makes `{x: null}` equal to a NaN attribute at line 180).
- JSON.stringify equality is modelled as value equality. This ignores `-0` versus `0`.
- `actual?.[key]` on a string indexes and counts in UTF-16 code units; the model indexes and counts `char`s, so `length` and indexing differ for characters outside the Basic Multilingual Plane.
- Traversal.FlatElementsVisits: covers only items with no `elements` of their own and a callback that adds none. For deeper trees, `Traversal.NestRepeats` states the repeated visits on a nested chain.
- Traversal.ElementsOnlyNode: covers only the case where the visited items hold no `elements` afterwards.
- Engine.ScaleOnlyScalesEveryElement: covers a top-level `elements` array whose items hold no `elements` of their own.
- Engine.LastWriterWins: covers values that are not plain objects. A later plain-object write under the same key merges rather than wins, as `Merger.DeepMergeWrites` states.
- JsonValues.Lookup: its own contract says only whether a value is found. Which value it is (that of the first member with the key) is stated by `JsonValues.LookupFound` and `JsonValues.LookupAt`, kept apart because the clause slows every proof that reads a member.
- JsonValues.Get: its own contract covers objects and the values that have no properties. The array and string cases (`length` and index keys) are stated by `JsonValues.GetArray`, `JsonValues.GetString` and `JsonValues.GetOtherKey`.
- Traversal.TraverseMembers: its own contract keeps keys and which members are arrays. That every member keeps its kind is stated by `Traversal.TraverseMembersKinds`, kept apart for the cost of the walk's proofs.
- Traversal.ContainerItems: its own contract says only that what it keeps is an object or array item of the list. That every such item is kept is stated by `Traversal.ContainerItemsExact`.
