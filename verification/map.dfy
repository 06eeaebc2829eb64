/**
 * A Map handle (lib/map.js): the mutators that stage typed fields, the constructor that
 * materialises a fetched value into child handles, and the state those leave behind.
 * Save delegation, the update document and the cached branch of `value` are shared with
 * the other node kinds and live in module Tree.
 */
module RiakMap {
  import opened Wrappers
  import opened Json
  import FieldCodec
  import CounterUpdate
  import SetUpdate
  import opened Tree
  import RiakCounter
  import RiakSet

  /* ---------- Staging: what a mutator does to the map's own state ---------- */

  /**
   * `toadd[key] = v`: the key now holds v, every other key keeps what it held, a new key
   * goes to the end of the document; removals and the fetched value are untouched.
   */
  function StageField(m: MapState, key: string, v: Value): (r: MapState)
    ensures Get(r.toadd, key) == Some(v)
    ensures forall k :: k != key ==> Get(r.toadd, k) == Get(m.toadd, k)
    ensures Keys(r.toadd) == if key in Keys(m.toadd) then Keys(m.toadd) else Keys(m.toadd) + [key]
    ensures r.toremove == m.toremove && r.valueobj == m.valueobj
  {
    PutLookup(m.toadd, key, v);
    PutKeys(m.toadd, key, v);
    m.(toadd := Put(m.toadd, key, v))
  }

  lemma StageFieldStagedOk(nodes: seq<Node>, h: Handle, m: MapState, key: string, v: Value)
    requires StagedOk(nodes, h, m.toadd) && (v.Ref? ==> RefOk(nodes, h, v.h))
    ensures StagedOk(nodes, h, StageField(m, key, v).toadd)
  {
    PutEntries(m.toadd, key, v);
    forall e | e in StageField(m, key, v).toadd && e.1.Ref? ensures RefOk(nodes, h, e.1.h) {
      assert e == (key, v) || e in m.toadd;
    }
  }

  /**
   * `toremove.push(wire)`: the wire name is queued for removal at the end of the list and
   * the field stays staged in `toadd` if it was there.
   */
  function StageRemove(m: MapState, wire: string): (r: MapState)
    ensures r.toremove == m.toremove + [wire]
    ensures r.toadd == m.toadd && r.valueobj == m.valueobj
  {
    m.(toremove := m.toremove + [wire])
  }

  /** `register(field, value)`: the value, unchanged, under `<field>_register`. */
  function StageRegister(m: MapState, f: string, v: Json): (r: MapState)
    ensures Get(r.toadd, FieldCodec.Encode(f, FieldCodec.Register)) == Some(Raw(v))
    ensures forall k :: k != FieldCodec.Encode(f, FieldCodec.Register) ==> Get(r.toadd, k) == Get(m.toadd, k)
    ensures r.toremove == m.toremove && r.valueobj == m.valueobj
  {
    StageField(m, FieldCodec.Encode(f, FieldCodec.Register), Raw(v))
  }

  /**
   * The wire value of a flag: a boolean maps to "enable"/"disable", any other value is
   * "enable" only when it is the string "enable".
   */
  function FlagValue(x: Json): (r: string)
    ensures r == "enable" || r == "disable"
    ensures r == "enable" <==> x == JBool(true) || x == JStr("enable")
  {
    match x
    case JBool(b) => if b then "enable" else "disable"
    case _ => if x == JStr("enable") then "enable" else "disable"
  }

  /** `flag(field, value)`: the wire value under `<field>_flag`. */
  function StageFlag(m: MapState, f: string, x: Json): (r: MapState)
    ensures Get(r.toadd, FieldCodec.Encode(f, FieldCodec.Flag)) == Some(Raw(JStr(FlagValue(x))))
    ensures forall k :: k != FieldCodec.Encode(f, FieldCodec.Flag) ==> Get(r.toadd, k) == Get(m.toadd, k)
    ensures r.toremove == m.toremove && r.valueobj == m.valueobj
  {
    StageField(m, FieldCodec.Encode(f, FieldCodec.Flag), Raw(JStr(FlagValue(x))))
  }

  /**
   * The tree after a fresh child of kind k is created as `<key>` embedded in map h and
   * staged under key: the child is the new last node, map h holds a reference to it.
   */
  function Attach(nodes: seq<Node>, h: Handle, key: string, k: Kind): (r: seq<Node>)
    requires WellFormed(nodes) && IsMap(nodes, h) && (k.MapK? ==> k.m.toadd == [])
    ensures WellFormed(r) && IsMap(r, h) && |r| == |nodes| + 1
    ensures r[|nodes|] == Node(key, Some(h), k)
    ensures r[h] == nodes[h].(kind := MapK(StageField(nodes[h].kind.m, key, Ref(|nodes|))))
    ensures forall i | 0 <= i < |nodes| && i != h :: r[i] == nodes[i]
  {
    var n := Node(key, Some(h), k);
    AppendWellFormed(nodes, n);
    var grown := nodes + [n];
    assert NodeOk(nodes, h);
    assert StagedOk(grown, h, nodes[h].kind.m.toadd) by {
      forall e | e in nodes[h].kind.m.toadd && e.1.Ref? ensures RefOk(grown, h, e.1.h) {
        assert RefOk(nodes, h, e.1.h);
      }
    }
    StageFieldStagedOk(grown, h, nodes[h].kind.m, key, Ref(|nodes|));
    WithMapWellFormed(grown, h, StageField(nodes[h].kind.m, key, Ref(|nodes|)));
    WithMap(grown, h, StageField(nodes[h].kind.m, key, Ref(|nodes|)))
  }

  /** The requests after a mutator: one save by the topmost map when a callback was given. */
  function SavedIf(nodes: seq<Node>, h: Handle, log: seq<Request>, cb: bool): seq<Request>
    requires WellFormed(nodes) && IsMap(nodes, h)
  {
    if cb then log + [SaveRequest(nodes, RootOf(nodes, h))] else log
  }

  /** Store a new state for map h, then `if (typeof _return === 'function') this.save(_return)`. */
  method Apply(a: Arena, h: Handle, m: MapState, cb: bool)
    requires a.Valid() && IsMap(a.nodes, h) && StagedOk(a.nodes, h, m.toadd)
    modifies a
    ensures a.Valid() && a.nodes == WithMap(old(a.nodes), h, m)
    ensures a.log == SavedIf(a.nodes, h, old(a.log), cb)
  {
    WithMapWellFormed(a.nodes, h, m);
    a.nodes := WithMap(a.nodes, h, m);
    if cb {
      Save(a, h);
    }
  }

  /* ---------- The mutators ---------- */

  /** `remove_field(field, callback)`: queues the wire name; returns the map itself. */
  method RemoveField(a: Arena, h: Handle, field: string, cb: bool) returns (self: Handle)
    requires a.Valid() && IsMap(a.nodes, h)
    modifies a
    ensures a.Valid() && self == h
    ensures a.nodes == WithMap(old(a.nodes), h, StageRemove(old(a.nodes[h].kind.m), field))
    ensures a.log == SavedIf(a.nodes, h, old(a.log), cb)
  {
    assert NodeOk(a.nodes, h);
    Apply(a, h, StageRemove(a.nodes[h].kind.m, field), cb);
    self := h;
  }

  /** `register_remove(field, callback)`: removes `<field>_register`. */
  method RegisterRemove(a: Arena, h: Handle, f: string, cb: bool) returns (self: Handle)
    requires a.Valid() && IsMap(a.nodes, h)
    modifies a
    ensures a.Valid() && self == h
    ensures a.nodes == WithMap(old(a.nodes), h, StageRemove(old(a.nodes[h].kind.m), FieldCodec.Encode(f, FieldCodec.Register)))
    ensures a.log == SavedIf(a.nodes, h, old(a.log), cb)
  {
    self := RemoveField(a, h, FieldCodec.Encode(f, FieldCodec.Register), cb);
  }

  /** `counter_remove(field, callback)`: removes `<field>_counter`. */
  method CounterRemove(a: Arena, h: Handle, f: string, cb: bool) returns (self: Handle)
    requires a.Valid() && IsMap(a.nodes, h)
    modifies a
    ensures a.Valid() && self == h
    ensures a.nodes == WithMap(old(a.nodes), h, StageRemove(old(a.nodes[h].kind.m), FieldCodec.Encode(f, FieldCodec.Counter)))
    ensures a.log == SavedIf(a.nodes, h, old(a.log), cb)
  {
    self := RemoveField(a, h, FieldCodec.Encode(f, FieldCodec.Counter), cb);
  }

  /** `flag_remove(field, callback)`: removes `<field>_flag`. */
  method FlagRemove(a: Arena, h: Handle, f: string, cb: bool) returns (self: Handle)
    requires a.Valid() && IsMap(a.nodes, h)
    modifies a
    ensures a.Valid() && self == h
    ensures a.nodes == WithMap(old(a.nodes), h, StageRemove(old(a.nodes[h].kind.m), FieldCodec.Encode(f, FieldCodec.Flag)))
    ensures a.log == SavedIf(a.nodes, h, old(a.log), cb)
  {
    self := RemoveField(a, h, FieldCodec.Encode(f, FieldCodec.Flag), cb);
  }

  /** `map_remove(field, callback)`: removes `<field>_map`. */
  method MapRemove(a: Arena, h: Handle, f: string, cb: bool) returns (self: Handle)
    requires a.Valid() && IsMap(a.nodes, h)
    modifies a
    ensures a.Valid() && self == h
    ensures a.nodes == WithMap(old(a.nodes), h, StageRemove(old(a.nodes[h].kind.m), FieldCodec.Encode(f, FieldCodec.Map)))
    ensures a.log == SavedIf(a.nodes, h, old(a.log), cb)
  {
    self := RemoveField(a, h, FieldCodec.Encode(f, FieldCodec.Map), cb);
  }

  /** `set_remove(field, callback)`: removes `<field>_set`. */
  method SetRemove(a: Arena, h: Handle, f: string, cb: bool) returns (self: Handle)
    requires a.Valid() && IsMap(a.nodes, h)
    modifies a
    ensures a.Valid() && self == h
    ensures a.nodes == WithMap(old(a.nodes), h, StageRemove(old(a.nodes[h].kind.m), FieldCodec.Encode(f, FieldCodec.Set)))
    ensures a.log == SavedIf(a.nodes, h, old(a.log), cb)
  {
    self := RemoveField(a, h, FieldCodec.Encode(f, FieldCodec.Set), cb);
  }

  /** `register(field, value, callback)`; returns the map itself. */
  method Register(a: Arena, h: Handle, f: string, v: Json, cb: bool) returns (self: Handle)
    requires a.Valid() && IsMap(a.nodes, h)
    modifies a
    ensures a.Valid() && self == h
    ensures a.nodes == WithMap(old(a.nodes), h, StageRegister(old(a.nodes[h].kind.m), f, v))
    ensures a.log == SavedIf(a.nodes, h, old(a.log), cb)
  {
    assert NodeOk(a.nodes, h);
    StageFieldStagedOk(a.nodes, h, a.nodes[h].kind.m, FieldCodec.Encode(f, FieldCodec.Register), Raw(v));
    Apply(a, h, StageRegister(a.nodes[h].kind.m, f, v), cb);
    self := h;
  }

  /** `flag(field, value, callback)`; returns the map itself. */
  method Flag(a: Arena, h: Handle, f: string, x: Json, cb: bool) returns (self: Handle)
    requires a.Valid() && IsMap(a.nodes, h)
    modifies a
    ensures a.Valid() && self == h
    ensures a.nodes == WithMap(old(a.nodes), h, StageFlag(old(a.nodes[h].kind.m), f, x))
    ensures a.log == SavedIf(a.nodes, h, old(a.log), cb)
  {
    assert NodeOk(a.nodes, h);
    StageFieldStagedOk(a.nodes, h, a.nodes[h].kind.m, FieldCodec.Encode(f, FieldCodec.Flag), Raw(JStr(FlagValue(x))));
    Apply(a, h, StageFlag(a.nodes[h].kind.m, f, x), cb);
    self := h;
  }

  /** The second argument of `counter`: an existing Counter handle, or an amount. */
  datatype CounterArg = Existing(c: Handle) | Delta(amount: Amount)

  /**
   * `counter(field, amount, callback)`. An existing counter is staged under `field` as
   * given. Otherwise a fresh counter `<field>_counter` embedded in this map is staged under
   * that name and its delta set to the amount (the embedded `add` calls back with null, so
   * its error branch is never taken); then, given a callback, the map saves. Returns the
   * counter.
   */
  method CounterField(a: Arena, h: Handle, f: string, arg: CounterArg, cb: bool) returns (child: Handle)
    requires a.Valid() && IsMap(a.nodes, h)
    requires arg.Existing? ==> IsCounter(a.nodes, arg.c)
    modifies a
    ensures a.Valid()
    ensures arg.Existing? ==>
              child == arg.c && a.nodes == WithMap(old(a.nodes), h, StageField(old(a.nodes[h].kind.m), f, Ref(arg.c)))
    ensures arg.Delta? ==>
              && child == |old(a.nodes)|
              && a.nodes == Attach(old(a.nodes), h, FieldCodec.Encode(f, FieldCodec.Counter),
                                   CounterK(CounterUpdate.StageDelta(CounterUpdate.Fresh(None), arg.amount)))
    ensures a.log == SavedIf(a.nodes, h, old(a.log), cb)
  {
    assert NodeOk(a.nodes, h);
    match arg
    case Existing(c) =>
      StageFieldStagedOk(a.nodes, h, a.nodes[h].kind.m, f, Ref(c));
      Apply(a, h, StageField(a.nodes[h].kind.m, f, Ref(c)), cb);
      child := c;
    case Delta(amount) =>
      var key := FieldCodec.Encode(f, FieldCodec.Counter);
      ghost var before := a.nodes;
      var m := a.nodes[h].kind.m;
      child := RiakCounter.New(a, key, Some(h), None);
      assert a.nodes == before + [Node(key, Some(h), CounterK(CounterUpdate.Fresh(None)))];
      assert NodeOk(a.nodes, h);
      StageFieldStagedOk(a.nodes, h, m, key, Ref(child));
      Apply(a, h, StageField(m, key, Ref(child)), false);
      var _, sync := RiakCounter.Add(a, child, amount, true);
      assert sync == Called(None);
      assert a.nodes == Attach(before, h, key, CounterK(CounterUpdate.StageDelta(CounterUpdate.Fresh(None), amount)));
      if cb {
        Save(a, h);
      }
  }

  /**
   * `map(field, value, callback)`. An existing map is staged under `field` as given;
   * otherwise a fresh empty map `<field>_map` embedded in this one is staged under that
   * name. Then, given a callback, the map saves. Returns the child map.
   */
  method MapField(a: Arena, h: Handle, f: string, existing: Option<Handle>, cb: bool) returns (child: Handle)
    requires a.Valid() && IsMap(a.nodes, h)
    requires existing.Some? ==> IsMap(a.nodes, existing.value) && h < existing.value
    modifies a
    ensures a.Valid()
    ensures existing.Some? ==>
              child == existing.value
              && a.nodes == WithMap(old(a.nodes), h, StageField(old(a.nodes[h].kind.m), f, Ref(existing.value)))
    ensures existing.None? ==>
              child == |old(a.nodes)| && a.nodes == Attach(old(a.nodes), h, FieldCodec.Encode(f, FieldCodec.Map), MapK(FreshMap))
    ensures a.log == SavedIf(a.nodes, h, old(a.log), cb)
  {
    assert NodeOk(a.nodes, h);
    match existing
    case Some(e) =>
      StageFieldStagedOk(a.nodes, h, a.nodes[h].kind.m, f, Ref(e));
      Apply(a, h, StageField(a.nodes[h].kind.m, f, Ref(e)), cb);
      child := e;
    case None =>
      var key := FieldCodec.Encode(f, FieldCodec.Map);
      ghost var before := a.nodes;
      var m := a.nodes[h].kind.m;
      child := New(a, key, Some(h), None);
      assert NodeOk(a.nodes, h);
      StageFieldStagedOk(a.nodes, h, m, key, Ref(child));
      Apply(a, h, StageField(m, key, Ref(child)), cb);
      assert a.nodes == Attach(before, h, key, MapK(FreshMap));
  }

  /**
   * `set(field, value, callback)`. An existing set is staged under `field` as given;
   * otherwise a fresh set `<field>_set` embedded in this map is staged under that name.
   * Then, given a callback, the map saves. Returns the set.
   */
  method SetField(a: Arena, h: Handle, f: string, existing: Option<Handle>, cb: bool) returns (child: Handle)
    requires a.Valid() && IsMap(a.nodes, h)
    requires existing.Some? ==> IsSet(a.nodes, existing.value)
    modifies a
    ensures a.Valid()
    ensures existing.Some? ==>
              child == existing.value
              && a.nodes == WithMap(old(a.nodes), h, StageField(old(a.nodes[h].kind.m), f, Ref(existing.value)))
    ensures existing.None? ==>
              child == |old(a.nodes)|
              && a.nodes == Attach(old(a.nodes), h, FieldCodec.Encode(f, FieldCodec.Set), SetK(SetUpdate.Fresh(None)))
    ensures a.log == SavedIf(a.nodes, h, old(a.log), cb)
  {
    assert NodeOk(a.nodes, h);
    match existing
    case Some(e) =>
      StageFieldStagedOk(a.nodes, h, a.nodes[h].kind.m, f, Ref(e));
      Apply(a, h, StageField(a.nodes[h].kind.m, f, Ref(e)), cb);
      child := e;
    case None =>
      var key := FieldCodec.Encode(f, FieldCodec.Set);
      ghost var before := a.nodes;
      var m := a.nodes[h].kind.m;
      child := RiakSet.New(a, key, Some(h), None);
      assert NodeOk(a.nodes, h);
      StageFieldStagedOk(a.nodes, h, m, key, Ref(child));
      Apply(a, h, StageField(m, key, Ref(child)), cb);
      assert a.nodes == Attach(before, h, key, SetK(SetUpdate.Fresh(None)));
  }

  /* ---------- Materialising a fetched value (load_from_objvalue) ---------- */

  /** `typeof value === 'object' && Object.keys(value).length > 0`. */
  predicate HasKeys(raw: Json)
  {
    (raw.JObj? && |raw.entries| > 0) || (raw.JArr? && |raw.items| > 0)
  }

  /** How a flag reads back: true exactly for "enable" or true. */
  function FlagDecoded(v: Json): Json
  {
    JBool(v == JStr("enable") || v == JBool(true))
  }

  /** `valueobj[name] = v` on map h. */
  function SetValue(nodes: seq<Node>, h: Handle, name: string, v: Value): (r: seq<Node>)
    requires WellFormed(nodes) && IsMap(nodes, h) && nodes[h].kind.m.valueobj.Some?
    ensures WellFormed(r) && IsMap(r, h) && |r| == |nodes|
    ensures r[h] == nodes[h].(kind := MapK(nodes[h].kind.m.(valueobj := Some(Put(nodes[h].kind.m.valueobj.value, name, v)))))
    ensures forall i | 0 <= i < |nodes| && i != h :: r[i] == nodes[i]
  {
    var m := nodes[h].kind.m.(valueobj := Some(Put(nodes[h].kind.m.valueobj.value, name, v)));
    assert NodeOk(nodes, h);
    WithMapWellFormed(nodes, h, m);
    WithMap(nodes, h, m)
  }

  /** `valueobj = {}` on map h. */
  function Reset(nodes: seq<Node>, h: Handle): (r: seq<Node>)
    requires WellFormed(nodes) && IsMap(nodes, h)
    ensures WellFormed(r) && IsMap(r, h) && |r| == |nodes|
    ensures r[h] == nodes[h].(kind := MapK(nodes[h].kind.m.(valueobj := Some([]))))
    ensures forall i | 0 <= i < |nodes| && i != h :: r[i] == nodes[i]
  {
    var m := nodes[h].kind.m.(valueobj := Some([]));
    assert NodeOk(nodes, h);
    WithMapWellFormed(nodes, h, m);
    WithMap(nodes, h, m)
  }

  /**
   * Loading into map h changes only h's fetched value and appends nodes, each embedded in
   * h or in a node appended after it; every earlier node is untouched.
   */
  ghost predicate Grows(before: seq<Node>, after: seq<Node>, h: Handle)
  {
    && WellFormed(after) && h < |before| <= |after|
    && before[h].kind.MapK? && after[h].kind.MapK?
    && after[h] == before[h].(kind := MapK(before[h].kind.m.(valueobj := after[h].kind.m.valueobj)))
    && (forall i | 0 <= i < |before| && i != h :: after[i] == before[i])
    && (forall i | |before| <= i < |after| :: after[i].parent.Some? && h <= after[i].parent.value)
  }

  lemma GrowsTrans(n0: seq<Node>, n1: seq<Node>, n2: seq<Node>, h: Handle)
    requires Grows(n0, n1, h) && Grows(n1, n2, h)
    ensures Grows(n0, n2, h)
  {
  }

  /** A load into a fresh child c of h, followed by an entry in h's value, is a load into h. */
  lemma GrowsThroughChild(n0: seq<Node>, n1: seq<Node>, n2: seq<Node>, h: Handle, c: Handle)
    requires WellFormed(n0) && IsMap(n0, h) && c == |n0|
    requires |n1| == c + 1 && n1[..c] == n0 && n1[c].parent == Some(h)
    requires Grows(n1, n2, c)
    ensures h < |n2| && n2[h] == n0[h]
    ensures forall i | 0 <= i < |n0| :: n2[i] == n0[i]
    ensures forall i | |n0| <= i < |n2| :: n2[i].parent.Some? && h <= n2[i].parent.value
  {
    forall i | 0 <= i < |n0| ensures n2[i] == n0[i] {
      assert n1[i] == n0[i];
    }
  }

  /** `load_from_objvalue(raw)` on map h, as a function of the tree. */
  function Load(nodes: seq<Node>, h: Handle, raw: Json): (r: seq<Node>)
    requires WellFormed(nodes) && IsMap(nodes, h)
    ensures Grows(nodes, r, h)
    ensures HasKeys(raw) ==> r[h].kind.m.valueobj.Some?
    ensures !HasKeys(raw) ==> r == nodes
    decreases raw, 1
  {
    if !HasKeys(raw) then nodes
    else if raw.JArr? then Reset(nodes, h)
    else LoadEntries(Reset(nodes, h), h, raw, 0)
  }

  /** The `for (var key in value)` loop from entry i on. */
  function LoadEntries(nodes: seq<Node>, h: Handle, raw: Json, i: nat): (r: seq<Node>)
    requires WellFormed(nodes) && IsMap(nodes, h) && nodes[h].kind.m.valueobj.Some?
    requires raw.JObj? && i <= |raw.entries|
    ensures Grows(nodes, r, h) && r[h].kind.m.valueobj.Some?
    decreases raw, 0, |raw.entries| - i
  {
    if i == |raw.entries| then nodes
    else
      var n1 := LoadEntry(nodes, h, raw.entries[i].0, raw.entries[i].1);
      var r := LoadEntries(n1, h, raw, i + 1);
      GrowsTrans(nodes, n1, r, h);
      r
  }

  /**
   * One entry of a fetched value. The wire name is split at its last underscore; a register
   * is stored as is, a flag as a boolean, a counter, set or map becomes a child handle
   * embedded in h (named by the logical name, seeded with the entry's value, a map loading
   * it recursively); an entry with another tag or no underscore is skipped.
   */
  function LoadEntry(nodes: seq<Node>, h: Handle, key: string, v: Json): (r: seq<Node>)
    requires WellFormed(nodes) && IsMap(nodes, h) && nodes[h].kind.m.valueobj.Some?
    ensures Grows(nodes, r, h) && r[h].kind.m.valueobj.Some?
    ensures var sp := FieldCodec.SplitTypeAndName(key);
            var vo := nodes[h].kind.m.valueobj.value;
            var c := |nodes|;
            && (sp.tag == Some(FieldCodec.Register) ==>
                  |r| == c && r[h].kind.m.valueobj == Some(Put(vo, sp.name, Raw(v))))
            && (sp.tag == Some(FieldCodec.Flag) ==>
                  |r| == c && r[h].kind.m.valueobj == Some(Put(vo, sp.name, Raw(JBool(v == JStr("enable") || v == JBool(true))))))
            && (sp.tag == Some(FieldCodec.Counter) ==>
                  && |r| == c + 1 && r[h].kind.m.valueobj == Some(Put(vo, sp.name, Ref(c)))
                  && r[c] == Node(sp.name, Some(h), CounterK(CounterUpdate.Fresh(Some(v)))))
            && (sp.tag == Some(FieldCodec.Set) ==>
                  && |r| == c + 1 && r[h].kind.m.valueobj == Some(Put(vo, sp.name, Ref(c)))
                  && r[c] == Node(sp.name, Some(h), SetK(SetUpdate.Fresh(Some(v)))))
            && (sp.tag == Some(FieldCodec.Map) ==>
                  && |r| > c && r[h].kind.m.valueobj == Some(Put(vo, sp.name, Ref(c)))
                  && r[c].name == sp.name && r[c].parent == Some(h) && r[c].kind.MapK?
                  && r[c].kind.m.toadd == [] && r[c].kind.m.toremove == []
                  && (r[c].kind.m.valueobj.Some? <==> HasKeys(v))
                  && r[c..] == Load(WithNewMap(nodes, sp.name, Some(h)), c, v)[c..])
            && (!(sp.tag in {Some(FieldCodec.Register), Some(FieldCodec.Flag), Some(FieldCodec.Counter),
                             Some(FieldCodec.Set), Some(FieldCodec.Map)}) ==>
                  r == nodes)
    decreases v, 2
  {
    var sp := FieldCodec.SplitTypeAndName(key);
    var c := |nodes|;
    if sp.tag == Some(FieldCodec.Register) then SetValue(nodes, h, sp.name, Raw(v))
    else if sp.tag == Some(FieldCodec.Flag) then SetValue(nodes, h, sp.name, Raw(FlagDecoded(v)))
    else if sp.tag == Some(FieldCodec.Map) then
      var child := Node(sp.name, Some(h), MapK(FreshMap));
      AppendWellFormed(nodes, child);
      var n1 := nodes + [child];
      var n2 := Load(n1, c, v);
      GrowsThroughChild(nodes, n1, n2, h, c);
      var n3 := SetValue(n2, h, sp.name, Ref(c));
      assert n3[c..] == n2[c..];
      n3
    else if sp.tag == Some(FieldCodec.Counter) then
      var child := Node(sp.name, Some(h), CounterK(CounterUpdate.Fresh(Some(v))));
      AppendWellFormed(nodes, child);
      SetValue(nodes + [child], h, sp.name, Ref(c))
    else if sp.tag == Some(FieldCodec.Set) then
      var child := Node(sp.name, Some(h), SetK(SetUpdate.Fresh(Some(v))));
      AppendWellFormed(nodes, child);
      SetValue(nodes + [child], h, sp.name, Ref(c))
    else nodes
  }

  /** The tree with a new, empty map appended. */
  function WithNewMap(nodes: seq<Node>, name: string, parent: Option<Handle>): (r: seq<Node>)
    requires WellFormed(nodes) && (parent.Some? ==> IsMap(nodes, parent.value))
    ensures WellFormed(r) && IsMap(r, |nodes|) && r == nodes + [Node(name, parent, MapK(FreshMap))]
  {
    AppendWellFormed(nodes, Node(name, parent, MapK(FreshMap)));
    nodes + [Node(name, parent, MapK(FreshMap))]
  }

  /**
   * `new Map(bucket, name, embeddedinmap, load)`: a map with nothing staged, appended to the
   * tree, then `load_from_objvalue(load)`.
   */
  method New(a: Arena, name: string, parent: Option<Handle>, load: Option<Json>) returns (h: Handle)
    requires a.Valid() && (parent.Some? ==> IsMap(a.nodes, parent.value))
    modifies a
    ensures a.Valid() && h == |old(a.nodes)| && IsMap(a.nodes, h)
    ensures load.None? ==> a.nodes == WithNewMap(old(a.nodes), name, parent)
    ensures load.Some? ==> a.nodes == Load(WithNewMap(old(a.nodes), name, parent), h, load.value)
    ensures a.log == old(a.log)
    decreases if load.Some? then load.value else JNull, 2
  {
    var n := Node(name, parent, MapK(FreshMap));
    AppendWellFormed(a.nodes, n);
    h := |a.nodes|;
    a.nodes := a.nodes + [n];
    if load.Some? {
      Materialize(a, h, load.value);
    }
  }

  /** `load_from_objvalue(raw)` on map h, walking the entries in order. */
  method Materialize(a: Arena, h: Handle, raw: Json)
    requires a.Valid() && IsMap(a.nodes, h)
    modifies a
    ensures a.Valid() && IsMap(a.nodes, h)
    ensures a.nodes == Load(old(a.nodes), h, raw)
    ensures a.log == old(a.log)
    decreases raw, 1
  {
    if HasKeys(raw) {
      a.nodes := Reset(a.nodes, h);
      if raw.JObj? {
        var i := 0;
        while i < |raw.entries|
          invariant 0 <= i <= |raw.entries|
          invariant a.Valid() && IsMap(a.nodes, h) && a.nodes[h].kind.m.valueobj.Some?
          invariant LoadEntries(a.nodes, h, raw, i) == Load(old(a.nodes), h, raw)
          invariant a.log == old(a.log)
          decreases |raw.entries| - i
        {
          LoadEntryInPlace(a, h, raw.entries[i].0, raw.entries[i].1);
          i := i + 1;
        }
      }
    }
  }

  /** One pass of the loop: the `switch (fieldobj.type)`. */
  method LoadEntryInPlace(a: Arena, h: Handle, key: string, v: Json)
    requires a.Valid() && IsMap(a.nodes, h) && a.nodes[h].kind.m.valueobj.Some?
    modifies a
    ensures a.Valid() && IsMap(a.nodes, h) && a.nodes[h].kind.m.valueobj.Some?
    ensures a.nodes == LoadEntry(old(a.nodes), h, key, v)
    ensures a.log == old(a.log)
    decreases v, 3
  {
    var sp := FieldCodec.SplitTypeAndName(key);
    if sp.tag == Some(FieldCodec.Register) {
      a.nodes := SetValue(a.nodes, h, sp.name, Raw(v));
    } else if sp.tag == Some(FieldCodec.Flag) {
      a.nodes := SetValue(a.nodes, h, sp.name, Raw(FlagDecoded(v)));
    } else if sp.tag == Some(FieldCodec.Map) {
      var c := New(a, sp.name, Some(h), Some(v));
      a.nodes := SetValue(a.nodes, h, sp.name, Ref(c));
    } else if sp.tag == Some(FieldCodec.Counter) {
      var c := RiakCounter.New(a, sp.name, Some(h), Some(v));
      a.nodes := SetValue(a.nodes, h, sp.name, Ref(c));
    } else if sp.tag == Some(FieldCodec.Set) {
      var c := RiakSet.New(a, sp.name, Some(h), Some(v));
      a.nodes := SetValue(a.nodes, h, sp.name, Ref(c));
    }
  }

  /* ---------- What the store receives and what a map reads back ---------- */

  /**
   * A register round trip: after `register(f, v)` the update document carries v under
   * `<f>_register`, and when that entry comes back in a fetched value, any map loading it
   * holds v under f, even when f itself contains underscores.
   */
  lemma RegisterRoundTrip(nodes: seq<Node>, h: Handle, f: string, v: Json, g: Handle)
    requires WellFormed(nodes) && IsMap(nodes, h) && IsMap(nodes, g) && nodes[g].kind.m.valueobj.Some?
    ensures var saved := WithMap(nodes, h, StageRegister(nodes[h].kind.m, f, v));
            var key := FieldCodec.Encode(f, FieldCodec.Register);
            && WellFormed(saved) && IsMap(saved, h)
            && Get(UpdateStructure(saved, h).entries, key) == Some(v)
            && LoadEntry(nodes, g, key, v)[g].kind.m.valueobj == Some(Put(nodes[g].kind.m.valueobj.value, f, Raw(v)))
  {
    var saved := WithMap(nodes, h, StageRegister(nodes[h].kind.m, f, v));
    assert NodeOk(nodes, h);
    StageFieldStagedOk(nodes, h, nodes[h].kind.m, FieldCodec.Encode(f, FieldCodec.Register), Raw(v));
    WithMapWellFormed(nodes, h, StageRegister(nodes[h].kind.m, f, v));
    UpdateStructureGet(saved, h, FieldCodec.Encode(f, FieldCodec.Register));
    FieldCodec.SplitEncodeTags(f);
  }

  /**
   * A flag round trip: after `flag(f, x)` the update document carries "enable" or
   * "disable" under `<f>_flag`, and that entry reads back as true exactly when x was true
   * or "enable".
   */
  lemma FlagRoundTrip(nodes: seq<Node>, h: Handle, f: string, x: Json, g: Handle)
    requires WellFormed(nodes) && IsMap(nodes, h) && IsMap(nodes, g) && nodes[g].kind.m.valueobj.Some?
    ensures var saved := WithMap(nodes, h, StageFlag(nodes[h].kind.m, f, x));
            var key := FieldCodec.Encode(f, FieldCodec.Flag);
            && WellFormed(saved) && IsMap(saved, h)
            && Get(UpdateStructure(saved, h).entries, key) == Some(JStr(FlagValue(x)))
            && LoadEntry(nodes, g, key, JStr(FlagValue(x)))[g].kind.m.valueobj
               == Some(Put(nodes[g].kind.m.valueobj.value, f, Raw(JBool(x == JBool(true) || x == JStr("enable")))))
  {
    var saved := WithMap(nodes, h, StageFlag(nodes[h].kind.m, f, x));
    assert NodeOk(nodes, h);
    StageFieldStagedOk(nodes, h, nodes[h].kind.m, FieldCodec.Encode(f, FieldCodec.Flag), Raw(JStr(FlagValue(x))));
    WithMapWellFormed(nodes, h, StageFlag(nodes[h].kind.m, f, x));
    UpdateStructureGet(saved, h, FieldCodec.Encode(f, FieldCodec.Flag));
    FieldCodec.SplitEncodeTags(f);
  }

  /**
   * Removing a field does not unstage it: a root map's next save lists the wire name last
   * under `remove` while its update document still carries the staged field.
   */
  lemma RemoveKeepsStaged(nodes: seq<Node>, h: Handle, wire: string)
    requires WellFormed(nodes) && IsMap(nodes, h)
    ensures var after := WithMap(nodes, h, StageRemove(nodes[h].kind.m, wire));
            && WellFormed(after) && IsMap(after, h)
            && Get(SaveBody(after, h).entries, "remove") == Some(JArr(Strings(nodes[h].kind.m.toremove + [wire])))
            && Keys(UpdateStructure(after, h).entries) == Keys(nodes[h].kind.m.toadd)
  {
    assert NodeOk(nodes, h);
    WithMapWellFormed(nodes, h, StageRemove(nodes[h].kind.m, wire));
  }

  /**
   * `counter(f, amount)` with an amount: the update document carries the amount under
   * `<f>_counter`, or null when the amount is NaN.
   */
  lemma FreshCounterSaved(nodes: seq<Node>, h: Handle, f: string, amount: Amount)
    requires WellFormed(nodes) && IsMap(nodes, h)
    ensures var after := Attach(nodes, h, FieldCodec.Encode(f, FieldCodec.Counter),
                                CounterK(CounterUpdate.StageDelta(CounterUpdate.Fresh(None), amount)));
            Get(UpdateStructure(after, h).entries, FieldCodec.Encode(f, FieldCodec.Counter))
              == Some(if amount.Num? then JNum(amount.n) else JNull)
  {
    var key := FieldCodec.Encode(f, FieldCodec.Counter);
    var after := Attach(nodes, h, key, CounterK(CounterUpdate.StageDelta(CounterUpdate.Fresh(None), amount)));
    UpdateStructureGet(after, h, key);
  }

  /** `map(f)` without a map: the update document carries `{update: {}}` under `<f>_map`. */
  lemma FreshMapSaved(nodes: seq<Node>, h: Handle, f: string)
    requires WellFormed(nodes) && IsMap(nodes, h)
    ensures var after := Attach(nodes, h, FieldCodec.Encode(f, FieldCodec.Map), MapK(FreshMap));
            Get(UpdateStructure(after, h).entries, FieldCodec.Encode(f, FieldCodec.Map))
              == Some(JObj([("update", JObj([]))]))
  {
    var key := FieldCodec.Encode(f, FieldCodec.Map);
    var after := Attach(nodes, h, key, MapK(FreshMap));
    UpdateStructureGet(after, h, key);
    var u := UpdateStructure(after, |nodes|);
    assert Keys(u.entries) == [];
  }

  /** `set(f)` without a set: the update document carries `{}` under `<f>_set`. */
  lemma FreshSetSaved(nodes: seq<Node>, h: Handle, f: string)
    requires WellFormed(nodes) && IsMap(nodes, h)
    ensures var after := Attach(nodes, h, FieldCodec.Encode(f, FieldCodec.Set), SetK(SetUpdate.Fresh(None)));
            Get(UpdateStructure(after, h).entries, FieldCodec.Encode(f, FieldCodec.Set)) == Some(JObj([]))
  {
    var key := FieldCodec.Encode(f, FieldCodec.Set);
    var after := Attach(nodes, h, key, SetK(SetUpdate.Fresh(None)));
    UpdateStructureGet(after, h, key);
  }

  /**
   * A map constructed from a value with keys answers `value` from its own cache: no
   * request is made, for it or for any map it is embedded in.
   */
  lemma LoadedMapAnswersLocally(nodes: seq<Node>, h: Handle, raw: Json)
    requires WellFormed(nodes) && IsMap(nodes, h) && HasKeys(raw)
    ensures MapAnswer(Load(nodes, h, raw), h) == Fields(Load(nodes, h, raw)[h].kind.m.valueobj.value)
  {
  }

  /** The entry `"x_register": w` puts w under "x" in an empty fetched value. */
  lemma LoadRegisterEntry(nodes: seq<Node>, h: Handle, w: Json)
    requires WellFormed(nodes) && IsMap(nodes, h) && nodes[h].kind.m.valueobj == Some([])
    ensures LoadEntry(nodes, h, "x_register", w)[h].kind.m.valueobj == Some([("x", Raw(w))])
  {
    FieldCodec.SplitEncode("x", FieldCodec.Register);
    assert FieldCodec.Encode("x", FieldCodec.Register) == "x_register";
  }

  /** Loading `{"x_register": w}` into map h leaves exactly w under "x" in its value. */
  lemma LoadOneRegister(nodes: seq<Node>, h: Handle, w: Json)
    requires WellFormed(nodes) && IsMap(nodes, h)
    ensures Load(nodes, h, JObj([("x_register", w)]))[h].kind.m.valueobj == Some([("x", Raw(w))])
  {
    var raw := JObj([("x_register", w)]);
    var n1 := Reset(nodes, h);
    LoadRegisterEntry(n1, h, w);
    var n2 := LoadEntry(n1, h, "x_register", w);
    assert LoadEntries(n2, h, raw, 1) == n2;
  }

  /**
   * A nested fetched map is loaded recursively: the entry `{"m_map": {"x_register": w}}`
   * gives h a child map under "m" whose own fetched value holds w under "x".
   */
  lemma NestedLoadExample(nodes: seq<Node>, h: Handle, w: Json)
    requires WellFormed(nodes) && IsMap(nodes, h) && nodes[h].kind.m.valueobj.Some?
    ensures var r := LoadEntry(nodes, h, "m_map", JObj([("x_register", w)]));
            && r[h].kind.m.valueobj == Some(Put(nodes[h].kind.m.valueobj.value, "m", Ref(|nodes|)))
            && r[|nodes|].kind.m.valueobj == Some([("x", Raw(w))])
  {
    FieldCodec.SplitEncodeTags("m");
    assert FieldCodec.Encode("m", FieldCodec.Map) == "m_map";
    var n1 := WithNewMap(nodes, "m", Some(h));
    LoadOneRegister(n1, |nodes|, w);
  }
}
