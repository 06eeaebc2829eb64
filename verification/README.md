# nodiak CRDT handles, modelled in Dafny

This project models the client-side core of nodiak's support for Riak's convergent data
types: the `Counter`, `Set` and `Map` handles of `lib/counter.js`, `lib/set.js` and
`lib/map.js`. A handle is either a root, which talks to the store itself, or embedded in a
map, in which case it stages its changes for that map. The model covers:

- how the handles stage mutations;
- how a map turns its staged tree into the single `update` document a save POSTs;
- how a save anywhere in the tree becomes one POST by the topmost map;
- how a fetched value is materialised back into typed values and child handles;
- the validation and error paths of the root counter and root set.

Layout, one module per file:

- `wrappers.dfy` — `Option` and `Result`.
- `json.dfy` — the JSON values the client stages and sends. A JavaScript object is an entry
  list in insertion order: `Get` is property lookup and `Put` is property assignment. Also
  here: `parseInt` results (`Amount`: an integer or NaN) and the client's own `Error`
  objects.
- `field_codec.dfy` — wire field names `<name>_<tag>` and `split_type_and_name`.
- `counter_update.dfy`, `set_update.dfy` — the pure parts of a counter and a set:
  - validation;
  - staging as a state transformer;
  - the update fragment each contributes to its map's document.
- `tree.dfy` — the node tree as an arena.
  - Class `Arena` holds `nodes`, the handles, and `log`, the requests handed to the store
    client.
  - A handle is an index. An embedded node names its map (`embeddedinmap`) by index.
  - The invariant `WellFormed` says two things: a parent is an earlier map, and a map
    staged in a map's `toadd` comes later. This is what makes save delegation and the
    recursive update document terminate.
  - Module `Tree` also holds the shared map operations that walk the tree:
    `get_update_structure`, `save` and the cached branch of `value`.
- `counter.dfy`, `set.dfy`, `map.dfy` — the handles' methods on the arena. Each states the
  new `nodes` and `log` through the pure functions above.

A callback is modelled by whether one was supplied (`cb`). `Sync` records what happens to
it before the method returns:

- `Quiet`: it is not called, or it is handed to the store client with a request.
- `Called`: it is called, with an error or with null.
- `Throws`: the error path calls a callback that was never supplied.

The model follows lib/*.js as written; in particular:

- `map.js` has no structural-inference helper. `map()` and `set()` ignore a value that is
  not a handle (map.js:131-163).
- `counter(field)` without an amount still creates the child and calls its `add`, which
  stages `parseInt(undefined)`, that is NaN. The update document therefore carries `null`
  for the field, and a callback still triggers a save (map.js:81-92).
- A root set posts each `add`/`remove` at once and never stages (set.js:57-76). No set
  method ever clears its staged lists.
- There are no namespace-dependent resource paths. Every handle builds one fixed path in
  its `query`.

## Model

| member | source | states |
|---|---|---|
| Json.Get | lib/map.js:196 | property lookup finds nothing exactly when the key is absent, and otherwise a value stored under that key |
| Json.GetAppend | lib/set.js:132-150 | looking up in two dictionaries written one after the other finds the first one's value when it has the key, otherwise the second one's |
| Json.PutLookup | lib/map.js:61 | after property assignment the key holds the new value and every other key holds what it held before |
| Json.PutKeys | lib/map.js:61 | property assignment keeps an existing key in its position and appends a new key at the end |
| Json.PutEntries | lib/map.js:61 | after property assignment every entry is the new one or was there before |
| FieldCodec.LastIndexOf | lib/map.js:289 | the result is -1 or a position holding the character, and no later position holds it |
| FieldCodec.SplitTypeAndName | lib/map.js:288-299 | no tag exactly when the field has no underscore, and then the name is the whole field; otherwise name + "_" + tag rebuilds the field and the tag has no underscore (the split is at the last one) |
| FieldCodec.SplitEncode | lib/map.js:288-299 | splitting name + "_" + tag gives back (name, tag) for any tag without an underscore, even when the name contains underscores |
| FieldCodec.SplitEncodeTags | lib/map.js:235-251 | every wire name a mutator writes decodes to its logical name and its tag, for all five tags |
| FieldCodec.SplitAtLastUnderscore | lib/map.js:289-294 | "a_b_set" is the set field "a_b" |
| CounterUpdate.Fresh | lib/counter.js:33-37 | a new counter has no staged delta, and its cached value is the seed unchanged |
| CounterUpdate.Negate | lib/counter.js:86 | negating keeps NaN as NaN and turns an integer into its opposite |
| CounterUpdate.RootAdd | lib/counter.js:59-73 | a root `add` succeeds exactly for a non-zero integer and sends that integer; otherwise the error is "Value needs to be an integer (positive or negative)" with the amount as `data` |
| CounterUpdate.StageDelta | lib/counter.js:74-75 | an embedded `add` makes the amount the staged delta, unvalidated, and keeps the seed |
| CounterUpdate.Fragment | lib/counter.js:47-49 | the fragment is the staged integer, and null when nothing or NaN is staged |
| CounterUpdate.StageDeltaLastWins | lib/counter.js:75 | deltas do not accumulate: the last `add` alone decides the staged delta and the fragment |
| CounterUpdate.SubtractIsAddNegated | lib/counter.js:85-88 | `subtract(n)` is accepted exactly when `add(n)` is, and then sends -n |
| CounterUpdate.AddFourSubtractTwo | test/test.js:556-578 | `add(4)` then `subtract(2)` sends 4 and -2, which sum to 2 |
| SetUpdate.Fresh | lib/set.js:33-38 | a new set has empty staged lists, and its cached value is the seed unchanged |
| SetUpdate.Elements | lib/set.js:86-90 | an array contributes its elements in order; any other value contributes itself |
| SetUpdate.Stage | lib/set.js:78-90 | an embedded `add`/`remove` appends the element(s) at the end of the list the operation names; the other list and the seed are unchanged, and nothing is ever dropped |
| SetUpdate.RootBody | lib/set.js:59-76 | a root operation succeeds exactly for a truthy element; the body has one key, the operation name or the operation name plus "_all" for an array, mapped to the element; otherwise the error is "Element must be provided" |
| SetUpdate.ListPart | lib/set.js:134-148 | a list of length 0 gives no key, length 1 gives the singular key with its element, longer lists give the `_all` key with the whole list |
| SetUpdate.Fragment | lib/set.js:132-150 | the fragment's keys are among add, add_all, remove and remove_all; it never has both add and add_all, nor both remove and remove_all; each list is encoded by its length |
| SetUpdate.AccumulationExample | lib/set.js:80-90 | adding "a", then ["b","c"], then removing "b" stages add_all ["a","b","c"] and remove "b" |
| Tree.UpdateStructure | lib/map.js:192-211 | the update document is an object with exactly the keys of `toadd`, in the same order |
| Tree.EncodeEntries | lib/map.js:195-209 | the encoded entries keep the staged keys in order |
| Tree.UpdateStructureAt | lib/map.js:195-209 | entry k of the document encodes entry k of `toadd`: a plain value passes through, a map child becomes `{update: <child's document>}`, a counter or set child becomes its own fragment |
| Tree.UpdateStructureGet | lib/map.js:195-209 | looking up a key in the document finds the encoding of what `toadd` holds under it, and nothing if `toadd` holds nothing there |
| Tree.RootOf | lib/map.js:172-173 | the delegation target is the node itself or a map it is embedded in (at any depth), has no parent, and is a map whenever the node is a map or is embedded |
| Tree.RootIsTopmost | lib/map.js:170-188 | the only ancestor without a parent is the delegation target: the save reaches the top |
| Tree.Strings | lib/map.js:181 | the remove list is sent element by element as strings |
| Tree.SaveBody | lib/map.js:175-182 | the POST body has `update`, the root's update document, and `remove`, the root's remove list, exactly when that list is non-empty; no other key |
| Tree.Save | lib/map.js:170-188 | a save on a node embedded at any depth appends exactly one POST, by the topmost map with that map's body, and changes no staged state |
| Tree.MapAnswer | lib/map.js:213-226 | a map with a fetched value answers it; otherwise the answer is its parent's; a fetch is made only by the root, and only when no map on the path holds a value |
| Tree.MapValue | lib/map.js:213-226 | `value` on a map answers as MapAnswer and logs one GET by the root exactly when it fetches |
| Tree.MapValueStepAsWritten | lib/map.js:217-220 | one call of `value` as written: an embedded map without a value calls `value` on a map, namely itself |
| Tree.ReceiverAfterAsWritten | lib/map.js:217-220 | following the calls as written always stays on a map |
| Tree.AsWrittenValueNeverAnswers | lib/map.js:217-220 | as written, an embedded map without a fetched value calls `value` on itself again after any number of calls, so it never answers |
| Tree.MapValueStepCorrect | lib/map.js:213-226 | delegating to the parent instead moves strictly toward the root and keeps the final answer, and agrees with the code wherever the code answers |
| RiakCounter.New | lib/counter.js:25-38 | the constructor appends a counter with no staged delta, the given seed and parent, and sends nothing |
| RiakCounter.Add | lib/counter.js:58-82 | a root counter POSTs a valid amount as text/plain, or reports the error without sending (calling an absent callback throws); an embedded counter only overwrites its delta and calls back with null; either way the counter itself is returned |
| RiakCounter.Subtract | lib/counter.js:85-88 | `subtract(n)` does exactly what `add` of the negated amount does |
| RiakCounter.Value | lib/counter.js:91-110 | a root counter fetches; an embedded counter answers a truthy cached seed without I/O, otherwise it answers what its map answers, through the corrected map delegation of the Findings row: where the map is itself embedded and has no value, the source recurses forever (counter.js:104, map.js:218) and the model asks the next map up |
| RiakCounter.AddThenSubtract | test/test.js:556-578 | on a root counter, `add(4)` then `subtract(2)` POSTs 4 and then -2 and nothing else |
| RiakSet.New | lib/set.js:25-39 | the constructor appends a set with empty staged lists, the given seed and parent, and sends nothing |
| RiakSet.Operation | lib/set.js:53-97 | a root set POSTs the one-key body or reports "Element must be provided" without sending, and never stages; an embedded set stages and, given a callback, makes its map's save, which is one POST by the topmost map |
| RiakSet.Add | lib/set.js:100-103 | `add` is the "add" operation and returns the set |
| RiakSet.Remove | lib/set.js:106-109 | `remove` is the "remove" operation and returns the set |
| RiakSet.Value | lib/set.js:112-129 | a root set fetches; an embedded set answers a truthy cached seed without I/O, otherwise what its map answers, through the corrected map delegation of the Findings row: where the map is itself embedded and has no value, the source recurses forever (set.js:123, map.js:218) and the model asks the next map up |
| RiakMap.StageField | lib/map.js:76 | staging under a key sets that key alone, keeps the order of existing keys, appends a new key, and leaves removals and the fetched value alone |
| RiakMap.StageRemove | lib/map.js:50-51 | a removal appends the wire name at the end of `toremove`, duplicates kept, and leaves `toadd` unchanged |
| RiakMap.StageRegister | lib/map.js:59-61 | `register(f, v)` overwrites `<f>_register` with v and leaves every other key and the removals unchanged |
| RiakMap.FlagValue | lib/map.js:108-116 | a flag's wire value is "enable" or "disable", and "enable" exactly for boolean true or the string "enable" |
| RiakMap.StageFlag | lib/map.js:105-118 | `flag(f, x)` stores the wire value under `<f>_flag` and leaves every other key and the removals unchanged |
| RiakMap.Attach | lib/map.js:82-83 | a fresh child is appended with this map as its parent and staged under its key; nothing else changes |
| RiakMap.RemoveField | lib/map.js:50-56 | `remove_field` stages the removal, saves only when given a callback, and returns the map |
| RiakMap.RegisterRemove | lib/map.js:68-70 | removes `<f>_register` |
| RiakMap.CounterRemove | lib/map.js:99-101 | removes `<f>_counter` |
| RiakMap.FlagRemove | lib/map.js:126-128 | removes `<f>_flag` |
| RiakMap.MapRemove | lib/map.js:146-148 | removes `<f>_map` |
| RiakMap.SetRemove | lib/map.js:165-167 | removes `<f>_set` |
| RiakMap.Register | lib/map.js:59-66 | `register` stages the value, saves only when given a callback, and returns the map |
| RiakMap.Flag | lib/map.js:105-123 | `flag` stages the wire value, saves only when given a callback, and returns the map |
| RiakMap.CounterField | lib/map.js:73-96 | an existing counter is staged under f and returned; otherwise a fresh counter embedded here is staged under `<f>_counter` with the amount as its delta and returned; the map saves only when given a callback |
| RiakMap.MapField | lib/map.js:131-143 | an existing map is staged under f and returned; otherwise a fresh empty map embedded here is staged under `<f>_map` and returned; the map saves only when given a callback |
| RiakMap.SetField | lib/map.js:151-163 | an existing set is staged under f and returned; otherwise a fresh empty set embedded here is staged under `<f>_set` and returned; the map saves only when given a callback |
| RiakMap.SetValue | lib/map.js:238 | an assignment into the fetched value sets that name alone and keeps the tree well formed |
| RiakMap.Reset | lib/map.js:231-233 | a value with keys starts the fetched value as an empty object |
| RiakMap.Load | lib/map.js:228-255 | loading changes only this map's fetched value and appends nodes embedded below it; a value with keys always leaves a fetched value; anything else (an empty object, a non-object) changes nothing |
| RiakMap.LoadEntries | lib/map.js:234-253 | the entry loop keeps the fetched value present and touches nothing outside this map's subtree |
| RiakMap.LoadEntry | lib/map.js:235-252 | a register is copied as is; a flag becomes true exactly for "enable" or true; a counter or set becomes a child embedded here, seeded with the raw entry; a map becomes an embedded child map, and that child together with every node below it is exactly what loading the raw entry into a fresh map embedded here yields; any other tag, or no tag, changes nothing |
| RiakMap.LoadRegisterEntry | lib/map.js:237-238 | the entry `"x_register": w` stores w under "x" in an empty fetched value |
| RiakMap.LoadOneRegister | lib/map.js:230-240 | loading `{"x_register": w}` leaves a fetched value holding exactly w under "x" |
| RiakMap.NestedLoadExample | lib/map.js:243-244 | the entry `"m_map": {"x_register": w}` stores a new child under "m" whose own fetched value holds exactly w under "x" |
| RiakMap.New | lib/map.js:27-41 | the constructor appends an empty map and loads the given value into it, sending nothing |
| RiakMap.Materialize | lib/map.js:228-255 | the in-place `for…in` loop leaves exactly the tree Load describes |
| RiakMap.LoadEntryInPlace | lib/map.js:235-252 | one pass of the `switch` leaves exactly the tree LoadEntry describes |
| RiakMap.RegisterRoundTrip | lib/map.js:235-238 | after `register(f, v)` the update document carries v under `<f>_register`, and reading that entry back stores v under f |
| RiakMap.FlagRoundTrip | lib/map.js:240-241 | after `flag(f, x)` the document carries "enable"/"disable" under `<f>_flag`, and that reads back as true exactly when x was true or "enable" |
| RiakMap.RemoveKeepsStaged | lib/map.js:50-56 | after a removal the next save lists the wire name last under `remove`, while the update document still has every staged key |
| RiakMap.FreshCounterSaved | lib/map.js:82-92 | `counter(f, amount)` puts the amount under `<f>_counter` in the update document, or null for NaN |
| RiakMap.FreshMapSaved | lib/map.js:135-136 | `map(f)` puts `{update: {}}` under `<f>_map` in the update document |
| RiakMap.FreshSetSaved | lib/map.js:155-156 | `set(f)` puts `{}` under `<f>_set` in the update document |
| RiakMap.LoadedMapAnswersLocally | lib/map.js:214-215 | a map constructed from a value with keys answers `value` from its own cache |

## Left out

- The `query` methods (map.js:44-47, set.js:47-50, counter.js:41-44) build resource paths
  with `encodeURIComponent`. Here a request is a log entry: verb, target handle, content
  type and body. Paths, buckets and the client are not modelled.
- GET response handling is not modelled: `fetch_value` (map.js:258-280) and the response
  callbacks of `Counter.value` and `Set.value`. A fetch is the logged GET and the answer
  `Fetching`.
- Calling callbacks asynchronously, and the store's answers, are I/O outside the model. A
  callback handed to the client appears as `Quiet`.
- The constructors' bucket/name argument juggling (map.js:28-33 and the same lines in
  set.js and counter.js) only decides the name. The model takes the name as given.
- lib/backends/poolee.js (connection pooling over HTTP) is not part of this model.
- Amounts are the result of `parseInt`: an integer or NaN. How `parseInt` reads strings,
  and `amount * -1` on non-numbers, are not modelled. JSON numbers are integers; floating
  point is left out.
- `typeof`/`instanceof` tests are tags on nodes. A value passed to `register` is plain
  JSON, so a handle stored as a register is not modelled.
- RiakMap.MapField: requires an existing map to come after this map in the arena, so it
  excludes every map created before this one, including acyclic cases such as creating
  `sub`, then `root`, then calling `root.map("s", sub)`, which the source stages and encodes
  without trouble. The reason is the index order that makes `UpdateStructure` terminate. A
  rank that excludes only real cycles (this map reachable from the existing one through
  staged maps) is not modelled. On such a cycle the source's `get_update_structure`
  recurses forever.
- Staging an existing counter, set or map does not change that handle's own
  `embeddedinmap`, as in the source. A root counter staged this way contributes `null`.
- RiakMap.Load: a `null` value counts as "no keys". The source evaluates
  `Object.keys(null)` there, which throws; that path is not modelled.
- RiakMap.Load: a non-empty array starts an empty fetched value and then skips every index,
  as the source does.
- A JSON object here is an entry list and may hold the same key twice, which no JavaScript
  object can. `Put` never creates a duplicate, and a duplicate in a loaded value is applied
  entry by entry, so the later entry wins as it would in a parsed object.
- JavaScript enumerates integer-like object keys first, in ascending order, and other keys
  in insertion order. The model keeps insertion order for all keys, in `toadd` as well as
  in a loaded value. The two differ only for integer-like staged keys, such as
  `counter("3", existingCounter)`.
- `undefined` is not a JSON value here. So `register(f)` with no value, or an embedded
  set's `add()` with no element, is not modelled; `JSON.stringify` would drop such a key or
  turn such an element into `null`.
- Reloading an existing fetched value happens only in `fetch_value`, which is left out. The
  model loads only into a freshly constructed map.
- `Counter.add` on an embedded counter tests its callback by truthiness, and the other
  mutators by `typeof === 'function'`. A supplied callback is modelled as a function in
  both cases.

## Findings

| source | as written | input that shows it | evidently intended | confidence | as-written member | corrected member |
|---|---|---|---|---|---|---|
| lib/map.js:217-220 | an embedded map without a fetched value answers `value` by calling `this.value(...)`, i.e. itself, in the same state | `map("m").value(cb)` on a root map: the child `m_map` is embedded and has no fetched value, so every call makes the same call again until the stack overflows | ask the map it is embedded in: `this.embeddedinmap.value(...)`, as `Counter.value` and `Set.value` do | high, not executed | Tree.AsWrittenValueNeverAnswers | Tree.MapValueStepCorrect |
