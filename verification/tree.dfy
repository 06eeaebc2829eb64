/**
 * The node tree behind the client's CRDT handles, as an arena: every Counter, Set and Map
 * handle is an index into `Arena.nodes`, and a node embedded in a map names that map by
 * index. Requests handed to the store client are appended to `Arena.log`.
 *
 * This module holds what the three node kinds share and the map operations that walk the
 * tree: the update document (`get_update_structure`), save delegation (`save`) and the
 * cached branch of `value`.
 */
module Tree {
  import opened Wrappers
  import opened Json
  import CounterUpdate
  import SetUpdate

  type Handle = nat

  /** What a map holds under a key: a plain value, or a node handle. */
  datatype Value = Raw(v: Json) | Ref(h: Handle)

  /**
   * A Map's own state: staged fields by wire name (`toadd`), wire names to remove
   * (`toremove`), and the fetched value by logical name (`valueobj`, None while null).
   */
  datatype MapState = MapState(
    toadd: seq<(string, Value)>,
    toremove: seq<string>,
    valueobj: Option<seq<(string, Value)>>)

  const FreshMap: MapState := MapState([], [], None)

  /** The three node variants, told apart by tag instead of `instanceof`. */
  datatype Kind =
    | CounterK(c: CounterUpdate.CounterState)
    | SetK(s: SetUpdate.SetState)
    | MapK(m: MapState)

  /** A node: its name, the map it is embedded in (`embeddedinmap`), and its state. */
  datatype Node = Node(name: string, parent: Option<Handle>, kind: Kind)

  datatype Verb = GET | POST

  /** A call `bucket.client[verb](query, callback)` made for the node `target`. */
  datatype Request = Request(verb: Verb, target: Handle, contentType: Option<string>, body: Option<Json>)

  const JsonType: string := "application/json"
  const TextType: string := "text/plain"

  /** The read a root node issues when it has to fetch its value. */
  function Fetch(h: Handle): Request
  {
    Request(GET, h, None, None)
  }

  /** A staged reference from map i is to an existing node, and to a later one if it is a map. */
  predicate RefOk(nodes: seq<Node>, i: nat, c: Handle)
  {
    c < |nodes| && (nodes[c].kind.MapK? ==> i < c)
  }

  predicate StagedOk(nodes: seq<Node>, i: nat, toadd: seq<(string, Value)>)
  {
    forall e | e in toadd && e.1.Ref? :: RefOk(nodes, i, e.1.h)
  }

  /** A parent is an earlier map; a map's staged references are in range. */
  predicate NodeOk(nodes: seq<Node>, i: nat)
    requires i < |nodes|
  {
    && (nodes[i].parent.Some? ==>
          nodes[i].parent.value < i && nodes[nodes[i].parent.value].kind.MapK?)
    && (nodes[i].kind.MapK? ==> StagedOk(nodes, i, nodes[i].kind.m.toadd))
  }

  predicate WellFormed(nodes: seq<Node>)
  {
    forall i | 0 <= i < |nodes| :: NodeOk(nodes, i)
  }

  predicate IsMap(nodes: seq<Node>, h: Handle)
  {
    h < |nodes| && nodes[h].kind.MapK?
  }

  predicate IsCounter(nodes: seq<Node>, h: Handle)
  {
    h < |nodes| && nodes[h].kind.CounterK?
  }

  predicate IsSet(nodes: seq<Node>, h: Handle)
  {
    h < |nodes| && nodes[h].kind.SetK?
  }

  /** A counter's or set's cached seed counts only when it is truthy (`if (!this.valueobj)`). */
  predicate Cached(seed: Option<Json>)
  {
    seed.Some? && Truthy(seed.value)
  }

  /**
   * What happens to a mutator's callback before the mutator returns: nothing (it is not
   * called, or it was handed to the store client with a request), called with this error
   * (or with null), or a TypeError because the error path calls a callback that was not given.
   */
  datatype Sync = Quiet | Called(err: Option<ClientError>) | Throws

  class Arena {
    var nodes: seq<Node>
    var log: seq<Request>

    predicate Valid()
      reads this
    {
      WellFormed(nodes)
    }

    constructor ()
      ensures Valid() && nodes == [] && log == []
    {
      nodes := [];
      log := [];
    }
  }

  /** The node sequence with map h's state replaced. */
  function WithMap(nodes: seq<Node>, h: Handle, m: MapState): seq<Node>
    requires h < |nodes|
  {
    nodes[h := nodes[h].(kind := MapK(m))]
  }

  lemma WithMapWellFormed(nodes: seq<Node>, h: Handle, m: MapState)
    requires WellFormed(nodes) && IsMap(nodes, h) && StagedOk(nodes, h, m.toadd)
    ensures WellFormed(WithMap(nodes, h, m))
  {
    var r := WithMap(nodes, h, m);
    forall i | 0 <= i < |r| ensures NodeOk(r, i) {
      assert NodeOk(nodes, i);
      if r[i].kind.MapK? {
        forall e | e in r[i].kind.m.toadd && e.1.Ref? ensures RefOk(r, i, e.1.h) {
          assert RefOk(nodes, i, e.1.h);
        }
      }
    }
  }

  /** Replacing a counter's or set's state by another counter or set state keeps the tree well formed. */
  lemma WithLeafWellFormed(nodes: seq<Node>, h: Handle, k: Kind)
    requires WellFormed(nodes) && h < |nodes| && !nodes[h].kind.MapK? && !k.MapK?
    ensures WellFormed(nodes[h := nodes[h].(kind := k)])
  {
    var r := nodes[h := nodes[h].(kind := k)];
    forall i | 0 <= i < |r| ensures NodeOk(r, i) {
      assert NodeOk(nodes, i);
      if r[i].kind.MapK? {
        forall e | e in r[i].kind.m.toadd && e.1.Ref? ensures RefOk(r, i, e.1.h) {
          assert RefOk(nodes, i, e.1.h);
        }
      }
    }
  }

  lemma AppendWellFormed(nodes: seq<Node>, n: Node)
    requires WellFormed(nodes)
    requires n.parent.Some? ==> IsMap(nodes, n.parent.value)
    requires n.kind.MapK? ==> n.kind.m.toadd == []
    ensures WellFormed(nodes + [n])
  {
    var r := nodes + [n];
    forall i | 0 <= i < |r| ensures NodeOk(r, i) {
      if i < |nodes| {
        assert NodeOk(nodes, i);
        if r[i].kind.MapK? {
          forall e | e in r[i].kind.m.toadd && e.1.Ref? ensures RefOk(r, i, e.1.h) {
            assert RefOk(nodes, i, e.1.h);
          }
        }
      }
    }
  }

  /* ---------- The update document (map.js get_update_structure) ---------- */

  /** `get_update_structure` of map h: one entry per staged field, under the same key. */
  function UpdateStructure(nodes: seq<Node>, h: Handle): (r: Json)
    requires WellFormed(nodes) && IsMap(nodes, h)
    ensures r.JObj? && Keys(r.entries) == Keys(nodes[h].kind.m.toadd)
    decreases |nodes| - h, 1
  {
    assert NodeOk(nodes, h);
    JObj(EncodeEntries(nodes, h, nodes[h].kind.m.toadd))
  }

  function EncodeEntries(nodes: seq<Node>, h: Handle, entries: seq<(string, Value)>): (r: seq<(string, Json)>)
    requires WellFormed(nodes) && h < |nodes| && StagedOk(nodes, h, entries)
    ensures Keys(r) == Keys(entries)
    decreases |nodes| - h, 0, |entries|
  {
    if |entries| == 0 then []
    else
      var rest := EncodeEntries(nodes, h, entries[1..]);
      assert Keys(entries) == [entries[0].0] + Keys(entries[1..]);
      assert Keys([(entries[0].0, JNull)] + rest) == [entries[0].0] + Keys(rest);
      [(entries[0].0, EncodeValue(nodes, h, entries[0].1))] + rest
  }

  /** One staged value: a map child wraps its own document in `update`, a counter or set gives its fragment. */
  function EncodeValue(nodes: seq<Node>, h: Handle, v: Value): Json
    requires WellFormed(nodes) && h < |nodes| && (v.Ref? ==> RefOk(nodes, h, v.h))
    decreases |nodes| - h, 0, 0
  {
    match v
    case Raw(j) => j
    case Ref(c) =>
      match nodes[c].kind
      case MapK(_) => JObj([("update", UpdateStructure(nodes, c))])
      case CounterK(cs) => CounterUpdate.Fragment(cs)
      case SetK(ss) => SetUpdate.Fragment(ss)
  }

  lemma {:induction false} EncodeEntriesAt(nodes: seq<Node>, h: Handle, entries: seq<(string, Value)>, k: nat)
    requires WellFormed(nodes) && h < |nodes| && StagedOk(nodes, h, entries) && k < |entries|
    ensures k < |EncodeEntries(nodes, h, entries)|
    ensures EncodeEntries(nodes, h, entries)[k] == (entries[k].0, EncodeValue(nodes, h, entries[k].1))
    decreases k
  {
    if k > 0 {
      EncodeEntriesAt(nodes, h, entries[1..], k - 1);
    }
  }

  /**
   * Entry k of the update document is entry k of `toadd`, encoded by what it holds: a plain
   * value passes through, a map child becomes `{update: <child's document>}`, a counter or
   * set child becomes its own fragment.
   */
  lemma UpdateStructureAt(nodes: seq<Node>, h: Handle, k: nat)
    requires WellFormed(nodes) && IsMap(nodes, h) && k < |nodes[h].kind.m.toadd|
    ensures var e := nodes[h].kind.m.toadd[k];
            var r := UpdateStructure(nodes, h).entries;
            && k < |r| && r[k].0 == e.0
            && (e.1.Raw? ==> r[k].1 == e.1.v)
            && (e.1.Ref? ==> e.1.h < |nodes|)
            && (e.1.Ref? && nodes[e.1.h].kind.MapK? ==>
                  r[k].1 == JObj([("update", UpdateStructure(nodes, e.1.h))]))
            && (e.1.Ref? && nodes[e.1.h].kind.CounterK? ==>
                  r[k].1 == CounterUpdate.Fragment(nodes[e.1.h].kind.c))
            && (e.1.Ref? && nodes[e.1.h].kind.SetK? ==>
                  r[k].1 == SetUpdate.Fragment(nodes[e.1.h].kind.s))
  {
    assert NodeOk(nodes, h);
    var e := nodes[h].kind.m.toadd[k];
    EncodeEntriesAt(nodes, h, nodes[h].kind.m.toadd, k);
    if e.1.Ref? {
      assert RefOk(nodes, h, e.1.h);
    }
  }

  lemma {:induction false} EncodeEntriesGet(nodes: seq<Node>, h: Handle, entries: seq<(string, Value)>, k: string)
    requires WellFormed(nodes) && h < |nodes| && StagedOk(nodes, h, entries)
    ensures Get(entries, k).None? ==> Get(EncodeEntries(nodes, h, entries), k).None?
    ensures Get(entries, k).Some? ==>
              && (Get(entries, k).value.Ref? ==> RefOk(nodes, h, Get(entries, k).value.h))
              && Get(EncodeEntries(nodes, h, entries), k) == Some(EncodeValue(nodes, h, Get(entries, k).value))
    decreases |entries|
  {
    if |entries| > 0 && entries[0].0 != k {
      EncodeEntriesGet(nodes, h, entries[1..], k);
    }
  }

  /**
   * Looking a key up in the update document finds the encoding of what `toadd` holds under
   * that key, and nothing when `toadd` holds nothing there.
   */
  lemma UpdateStructureGet(nodes: seq<Node>, h: Handle, k: string)
    requires WellFormed(nodes) && IsMap(nodes, h)
    ensures Get(nodes[h].kind.m.toadd, k).None? ==> Get(UpdateStructure(nodes, h).entries, k).None?
    ensures Get(nodes[h].kind.m.toadd, k).Some? ==>
              && (Get(nodes[h].kind.m.toadd, k).value.Ref? ==> RefOk(nodes, h, Get(nodes[h].kind.m.toadd, k).value.h))
              && Get(UpdateStructure(nodes, h).entries, k) == Some(EncodeValue(nodes, h, Get(nodes[h].kind.m.toadd, k).value))
  {
    assert NodeOk(nodes, h);
    EncodeEntriesGet(nodes, h, nodes[h].kind.m.toadd, k);
  }

  /* ---------- Save delegation (map.js save) ---------- */

  /** a is h or one of the maps h is embedded in, at any depth. */
  ghost predicate AncestorOrSelf(nodes: seq<Node>, a: Handle, h: Handle)
    requires WellFormed(nodes) && h < |nodes|
    decreases h
  {
    a == h
    || (nodes[h].parent.Some? && (assert NodeOk(nodes, h); AncestorOrSelf(nodes, a, nodes[h].parent.value)))
  }

  /** The topmost node of h's embedding chain. */
  function RootOf(nodes: seq<Node>, h: Handle): (r: Handle)
    requires WellFormed(nodes) && h < |nodes|
    ensures r <= h && nodes[r].parent.None? && AncestorOrSelf(nodes, r, h)
    ensures nodes[h].kind.MapK? || nodes[h].parent.Some? ==> nodes[r].kind.MapK?
    decreases h
  {
    match nodes[h].parent
    case None => h
    case Some(p) =>
      assert NodeOk(nodes, h);
      RootOf(nodes, p)
  }

  /** The root is the only ancestor without a parent: the save really goes to the top. */
  lemma {:induction false} RootIsTopmost(nodes: seq<Node>, h: Handle, a: Handle)
    requires WellFormed(nodes) && h < |nodes|
    requires AncestorOrSelf(nodes, a, h) && a < |nodes| && nodes[a].parent.None?
    ensures a == RootOf(nodes, h)
    decreases h
  {
    if a != h {
      assert NodeOk(nodes, h);
      RootIsTopmost(nodes, nodes[h].parent.value, a);
    }
  }

  function Strings(ss: seq<string>): (r: seq<Json>)
    ensures |r| == |ss| && forall i :: 0 <= i < |ss| ==> r[i] == JStr(ss[i])
  {
    seq(|ss|, i requires 0 <= i < |ss| => JStr(ss[i]))
  }

  /**
   * The body a root map POSTs: `update` is its update document, and `remove` (the wire
   * names staged for removal) is present exactly when that list is non-empty.
   */
  function SaveBody(nodes: seq<Node>, r: Handle): (b: Json)
    requires WellFormed(nodes) && IsMap(nodes, r)
    ensures b.JObj?
    ensures Get(b.entries, "update") == Some(UpdateStructure(nodes, r))
    ensures Get(b.entries, "remove").Some? <==> |nodes[r].kind.m.toremove| > 0
    ensures Get(b.entries, "remove").Some? ==>
              Get(b.entries, "remove").value == JArr(Strings(nodes[r].kind.m.toremove))
    ensures forall k :: k in Keys(b.entries) ==> k == "update" || k == "remove"
  {
    var toremove := nodes[r].kind.m.toremove;
    var update := [("update", UpdateStructure(nodes, r))];
    if |toremove| > 0 then
      var b := update + [("remove", JArr(Strings(toremove)))];
      assert Keys(b) == ["update", "remove"];
      JObj(b)
    else
      assert Keys(update) == ["update"];
      JObj(update)
  }

  function SaveRequest(nodes: seq<Node>, r: Handle): Request
    requires WellFormed(nodes) && IsMap(nodes, r)
  {
    Request(POST, r, Some(JsonType), Some(SaveBody(nodes, r)))
  }

  /**
   * `save`: an embedded map forwards to the map it is embedded in, so exactly one POST is
   * made, by the topmost map, carrying that map's document. Nothing staged is cleared.
   */
  method Save(a: Arena, h: Handle)
    requires a.Valid() && IsMap(a.nodes, h)
    modifies a
    ensures a.nodes == old(a.nodes)
    ensures a.log == old(a.log) + [SaveRequest(a.nodes, RootOf(a.nodes, h))]
    decreases h
  {
    match a.nodes[h].parent
    case Some(p) =>
      assert NodeOk(a.nodes, h);
      Save(a, p);
    case None =>
      a.log := a.log + [SaveRequest(a.nodes, h)];
  }

  /* ---------- The cached branch of value (map.js value) ---------- */

  /** What a `value` call answers with without waiting for the store, or that it fetched. */
  datatype Answer = Seed(v: Json) | Fields(fields: seq<(string, Value)>) | Fetching(root: Handle)

  /**
   * The answer of a map's `value`: its own fetched value if it has one, else that of the
   * map it is embedded in; a root without a value fetches.
   */
  function MapAnswer(nodes: seq<Node>, h: Handle): (ans: Answer)
    requires WellFormed(nodes) && IsMap(nodes, h)
    ensures ans.Fields? || ans.Fetching?
    ensures nodes[h].kind.m.valueobj.Some? ==> ans == Fields(nodes[h].kind.m.valueobj.value)
    ensures ans.Fetching? ==> ans.root == RootOf(nodes, h)
    ensures ans.Fetching? ==>
              forall x: Handle :: AncestorOrSelf(nodes, x, h) ==> x < |nodes| && nodes[x].kind.MapK? && nodes[x].kind.m.valueobj.None?
    decreases h
  {
    if nodes[h].kind.m.valueobj.Some? then Fields(nodes[h].kind.m.valueobj.value)
    else match nodes[h].parent
      case None => Fetching(h)
      case Some(p) =>
        assert NodeOk(nodes, h);
        MapAnswer(nodes, p)
  }

  /** `value` on a map: answered from a cache without I/O, or one GET by the root. */
  method MapValue(a: Arena, h: Handle) returns (ans: Answer)
    requires a.Valid() && IsMap(a.nodes, h)
    modifies a
    ensures a.nodes == old(a.nodes)
    ensures ans == MapAnswer(a.nodes, h)
    ensures a.log == if ans.Fetching? then old(a.log) + [Fetch(ans.root)] else old(a.log)
    decreases h
  {
    var m := a.nodes[h].kind.m;
    if m.valueobj.Some? {
      ans := Fields(m.valueobj.value);
    } else {
      match a.nodes[h].parent
      case None =>
        a.log := a.log + [Fetch(h)];
        ans := Fetching(h);
      case Some(p) =>
        assert NodeOk(a.nodes, h);
        ans := MapValue(a, p);
    }
  }

  /* ---------- map.js value as written: an embedded map asks itself ---------- */

  /** Where one call of `value` leads: an answer, or a further `value` call on a receiver. */
  datatype ValueStep = Answered(ans: Answer) | Calls(receiver: Handle)

  /**
   * One call of `value` on map h as map.js:213-226 is written: an embedded map without a
   * fetched value calls `value` on ITSELF (`this.value`), not on the map it is embedded in.
   */
  function MapValueStepAsWritten(nodes: seq<Node>, h: Handle): (s: ValueStep)
    requires WellFormed(nodes) && IsMap(nodes, h)
    ensures s.Calls? ==> IsMap(nodes, s.receiver)
  {
    if nodes[h].kind.m.valueobj.Some? then Answered(Fields(nodes[h].kind.m.valueobj.value))
    else if nodes[h].parent.None? then Answered(Fetching(h))
    else Calls(h)
  }

  /** The receiver after k further calls that did not answer, following the code as written. */
  function ReceiverAfterAsWritten(nodes: seq<Node>, h: Handle, k: nat): (r: Handle)
    requires WellFormed(nodes) && IsMap(nodes, h)
    ensures IsMap(nodes, r)
    decreases k
  {
    if k == 0 then h
    else match MapValueStepAsWritten(nodes, h)
      case Answered(_) => h
      case Calls(next) => ReceiverAfterAsWritten(nodes, next, k - 1)
  }

  /**
   * The defect: on an embedded map without a fetched value, every call as written lands on
   * the same map in the same state and calls again, so `value` never answers.
   */
  lemma {:induction false} AsWrittenValueNeverAnswers(nodes: seq<Node>, h: Handle, k: nat)
    requires WellFormed(nodes) && IsMap(nodes, h)
    requires nodes[h].kind.m.valueobj.None? && nodes[h].parent.Some?
    ensures ReceiverAfterAsWritten(nodes, h, k) == h
    ensures MapValueStepAsWritten(nodes, ReceiverAfterAsWritten(nodes, h, k)).Calls?
    decreases k
  {
    if k > 0 {
      AsWrittenValueNeverAnswers(nodes, h, k - 1);
    }
  }

  /** One call of `value` as intended: an embedded map without a value asks its parent. */
  function MapValueStep(nodes: seq<Node>, h: Handle): (s: ValueStep)
    requires WellFormed(nodes) && IsMap(nodes, h)
  {
    if nodes[h].kind.m.valueobj.Some? then Answered(Fields(nodes[h].kind.m.valueobj.value))
    else match nodes[h].parent
      case None => Answered(Fetching(h))
      case Some(p) => Calls(p)
  }

  /**
   * The corrected step makes progress toward the root and preserves the final answer, so
   * `MapValue` (which follows it) always answers; where the code as written answers, the
   * corrected step gives the same answer.
   */
  lemma MapValueStepCorrect(nodes: seq<Node>, h: Handle)
    requires WellFormed(nodes) && IsMap(nodes, h)
    ensures MapValueStep(nodes, h).Answered? ==> MapValueStep(nodes, h).ans == MapAnswer(nodes, h)
    ensures MapValueStep(nodes, h).Calls? ==>
              var p := MapValueStep(nodes, h).receiver;
              p < h && IsMap(nodes, p) && MapAnswer(nodes, p) == MapAnswer(nodes, h)
    ensures MapValueStepAsWritten(nodes, h).Answered? ==> MapValueStepAsWritten(nodes, h) == MapValueStep(nodes, h)
  {
    assert NodeOk(nodes, h);
  }
}
