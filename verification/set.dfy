/**
 * A Set handle (lib/set.js). A root set sends each `add`/`remove` to the store at once; a
 * set embedded in a map stages elements for the map's next save.
 */
module RiakSet {
  import opened Wrappers
  import opened Json
  import opened SetUpdate
  import opened Tree

  /** A root set's immediate update. */
  function Post(h: Handle, body: Json): Request
  {
    Request(POST, h, Some(JsonType), Some(body))
  }

  /**
   * `new Set(bucket, name, embeddedinmap, load)`: a set with empty staged lists whose
   * cached value is `load`, stored unchanged.
   */
  method New(a: Arena, name: string, parent: Option<Handle>, load: Option<Json>) returns (h: Handle)
    requires a.Valid() && (parent.Some? ==> IsMap(a.nodes, parent.value))
    modifies a
    ensures a.Valid() && h == |old(a.nodes)|
    ensures a.nodes == old(a.nodes) + [Node(name, parent, SetK(Fresh(load)))]
    ensures a.log == old(a.log)
  {
    var n := Node(name, parent, SetK(Fresh(load)));
    AppendWellFormed(a.nodes, n);
    h := |a.nodes|;
    a.nodes := a.nodes + [n];
  }

  /**
   * `operation(op, element, callback)`. A root set POSTs a one-key body for a truthy
   * element, reports "Element must be provided" for a falsy one, and never touches its
   * staged lists. An embedded set appends to the list `op` names and, given a callback,
   * saves the map it is embedded in.
   */
  method Operation(a: Arena, h: Handle, op: Op, x: Json, cb: bool) returns (sync: Sync)
    requires a.Valid() && IsSet(a.nodes, h)
    modifies a
    ensures a.Valid()
    ensures old(a.nodes[h].parent).None? ==> a.nodes == old(a.nodes)
    ensures old(a.nodes[h].parent).None? && RootBody(op, x).Success? ==>
              a.log == old(a.log) + [Post(h, RootBody(op, x).value)] && sync == Quiet
    ensures old(a.nodes[h].parent).None? && RootBody(op, x).Failure? ==>
              a.log == old(a.log) && sync == (if cb then Called(Some(RootBody(op, x).error)) else Throws)
    ensures old(a.nodes[h].parent).Some? ==>
              && a.nodes == old(a.nodes)[h := old(a.nodes[h]).(kind := SetK(Stage(old(a.nodes[h].kind.s), op, x)))]
              && a.log == (if cb then old(a.log) + [SaveRequest(a.nodes, RootOf(a.nodes, h))] else old(a.log))
              && sync == Quiet
  {
    match a.nodes[h].parent
    case None =>
      match RootBody(op, x) {
        case Success(body) =>
          a.log := a.log + [Post(h, body)];
          sync := Quiet;
        case Failure(err) =>
          sync := if cb then Called(Some(err)) else Throws;
      }
    case Some(p) =>
      var k := SetK(Stage(a.nodes[h].kind.s, op, x));
      WithLeafWellFormed(a.nodes, h, k);
      a.nodes := a.nodes[h := a.nodes[h].(kind := k)];
      sync := Quiet;
      if cb {
        assert NodeOk(a.nodes, h);
        Save(a, p);
      }
  }

  /** `add(element, callback)`: the "add" operation; returns the set itself. */
  method Add(a: Arena, h: Handle, x: Json, cb: bool) returns (self: Handle, sync: Sync)
    requires a.Valid() && IsSet(a.nodes, h)
    modifies a
    ensures a.Valid() && self == h
    ensures old(a.nodes[h].parent).None? ==> a.nodes == old(a.nodes)
    ensures old(a.nodes[h].parent).None? && RootBody(Op.Add, x).Success? ==>
              a.log == old(a.log) + [Post(h, RootBody(Op.Add, x).value)] && sync == Quiet
    ensures old(a.nodes[h].parent).None? && RootBody(Op.Add, x).Failure? ==>
              a.log == old(a.log) && sync == (if cb then Called(Some(RootBody(Op.Add, x).error)) else Throws)
    ensures old(a.nodes[h].parent).Some? ==>
              && a.nodes == old(a.nodes)[h := old(a.nodes[h]).(kind := SetK(Stage(old(a.nodes[h].kind.s), Op.Add, x)))]
              && a.log == (if cb then old(a.log) + [SaveRequest(a.nodes, RootOf(a.nodes, h))] else old(a.log))
              && sync == Quiet
  {
    self := h;
    sync := Operation(a, h, Op.Add, x, cb);
  }

  /** `remove(element, callback)`: the "remove" operation; returns the set itself. */
  method Remove(a: Arena, h: Handle, x: Json, cb: bool) returns (self: Handle, sync: Sync)
    requires a.Valid() && IsSet(a.nodes, h)
    modifies a
    ensures a.Valid() && self == h
    ensures old(a.nodes[h].parent).None? ==> a.nodes == old(a.nodes)
    ensures old(a.nodes[h].parent).None? && RootBody(Op.Remove, x).Success? ==>
              a.log == old(a.log) + [Post(h, RootBody(Op.Remove, x).value)] && sync == Quiet
    ensures old(a.nodes[h].parent).None? && RootBody(Op.Remove, x).Failure? ==>
              a.log == old(a.log) && sync == (if cb then Called(Some(RootBody(Op.Remove, x).error)) else Throws)
    ensures old(a.nodes[h].parent).Some? ==>
              && a.nodes == old(a.nodes)[h := old(a.nodes[h]).(kind := SetK(Stage(old(a.nodes[h].kind.s), Op.Remove, x)))]
              && a.log == (if cb then old(a.log) + [SaveRequest(a.nodes, RootOf(a.nodes, h))] else old(a.log))
              && sync == Quiet
  {
    self := h;
    sync := Operation(a, h, Op.Remove, x, cb);
  }

  /**
   * `value`: a root set always fetches; an embedded set answers a truthy cached seed
   * without I/O and otherwise asks the map it is embedded in.
   */
  method Value(a: Arena, h: Handle) returns (ans: Answer)
    requires a.Valid() && IsSet(a.nodes, h)
    modifies a
    ensures a.nodes == old(a.nodes)
    ensures a.nodes[h].parent.None? ==> ans == Fetching(h) && a.log == old(a.log) + [Fetch(h)]
    ensures a.nodes[h].parent.Some? && Cached(a.nodes[h].kind.s.seed) ==>
              ans == Seed(a.nodes[h].kind.s.seed.value) && a.log == old(a.log)
    ensures a.nodes[h].parent.Some? && !Cached(a.nodes[h].kind.s.seed) ==>
              IsMap(a.nodes, a.nodes[h].parent.value) && ans == MapAnswer(a.nodes, a.nodes[h].parent.value)
              && a.log == if ans.Fetching? then old(a.log) + [Fetch(ans.root)] else old(a.log)
  {
    match a.nodes[h].parent
    case None =>
      a.log := a.log + [Fetch(h)];
      ans := Fetching(h);
    case Some(p) =>
      var seed := a.nodes[h].kind.s.seed;
      if Cached(seed) {
        ans := Seed(seed.value);
      } else {
        assert NodeOk(a.nodes, h);
        ans := MapValue(a, p);
      }
  }
}
