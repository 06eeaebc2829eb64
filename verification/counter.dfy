/**
 * A Counter handle (lib/counter.js). A root counter sends each increment to the store at
 * once; a counter embedded in a map only remembers the latest delta for the map's next save.
 */
module RiakCounter {
  import opened Wrappers
  import opened Json
  import opened CounterUpdate
  import opened Tree

  /** The increment a root counter POSTs: the bare integer as plain text. */
  function Post(h: Handle, n: int): Request
  {
    Request(POST, h, Some(TextType), Some(JNum(n)))
  }

  /**
   * `new Counter(bucket, name, embeddedinmap, load)`: a counter with nothing staged whose
   * cached value is `load`, stored unchanged.
   */
  method New(a: Arena, name: string, parent: Option<Handle>, load: Option<Json>) returns (h: Handle)
    requires a.Valid() && (parent.Some? ==> IsMap(a.nodes, parent.value))
    modifies a
    ensures a.Valid() && h == |old(a.nodes)|
    ensures a.nodes == old(a.nodes) + [Node(name, parent, CounterK(Fresh(load)))]
    ensures a.log == old(a.log)
  {
    var n := Node(name, parent, CounterK(Fresh(load)));
    AppendWellFormed(a.nodes, n);
    h := |a.nodes|;
    a.nodes := a.nodes + [n];
  }

  /**
   * `add(amount, callback)`. A root counter POSTs a non-zero integer and otherwise reports
   * the validation error without sending anything. An embedded counter overwrites its
   * pending delta with the amount, unvalidated, sends nothing and calls back with null.
   * Either way it returns the counter itself.
   */
  method Add(a: Arena, h: Handle, amount: Amount, cb: bool) returns (self: Handle, sync: Sync)
    requires a.Valid() && IsCounter(a.nodes, h)
    modifies a
    ensures a.Valid() && self == h
    ensures old(a.nodes[h].parent).None? ==> a.nodes == old(a.nodes)
    ensures old(a.nodes[h].parent).None? && RootAdd(amount).Success? ==>
              a.log == old(a.log) + [Post(h, RootAdd(amount).value)] && sync == Quiet
    ensures old(a.nodes[h].parent).None? && RootAdd(amount).Failure? ==>
              a.log == old(a.log) && sync == (if cb then Called(Some(RootAdd(amount).error)) else Throws)
    ensures old(a.nodes[h].parent).Some? ==>
              && a.nodes == old(a.nodes)[h := old(a.nodes[h]).(kind := CounterK(StageDelta(old(a.nodes[h].kind.c), amount)))]
              && a.log == old(a.log)
              && sync == (if cb then Called(None) else Quiet)
  {
    self := h;
    if a.nodes[h].parent.None? {
      match RootAdd(amount) {
        case Success(n) =>
          a.log := a.log + [Post(h, n)];
          sync := Quiet;
        case Failure(err) =>
          sync := if cb then Called(Some(err)) else Throws;
      }
    } else {
      var k := CounterK(StageDelta(a.nodes[h].kind.c, amount));
      WithLeafWellFormed(a.nodes, h, k);
      a.nodes := a.nodes[h := a.nodes[h].(kind := k)];
      sync := if cb then Called(None) else Quiet;
    }
  }

  /** `subtract(amount, callback)` is `add` of the negated amount. */
  method Subtract(a: Arena, h: Handle, amount: Amount, cb: bool) returns (self: Handle, sync: Sync)
    requires a.Valid() && IsCounter(a.nodes, h)
    modifies a
    ensures a.Valid() && self == h
    ensures old(a.nodes[h].parent).None? ==> a.nodes == old(a.nodes)
    ensures old(a.nodes[h].parent).None? && RootAdd(Negate(amount)).Success? ==>
              a.log == old(a.log) + [Post(h, RootAdd(Negate(amount)).value)] && sync == Quiet
    ensures old(a.nodes[h].parent).None? && RootAdd(Negate(amount)).Failure? ==>
              a.log == old(a.log) && sync == (if cb then Called(Some(RootAdd(Negate(amount)).error)) else Throws)
    ensures old(a.nodes[h].parent).Some? ==>
              && a.nodes == old(a.nodes)[h := old(a.nodes[h]).(kind := CounterK(StageDelta(old(a.nodes[h].kind.c), Negate(amount))))]
              && a.log == old(a.log)
              && sync == (if cb then Called(None) else Quiet)
  {
    self, sync := Add(a, h, Negate(amount), cb);
  }

  /**
   * The embedded branch of `value`: a truthy cached seed is answered without I/O, otherwise
   * the question goes to the map the counter is embedded in. A root counter fetches.
   */
  method Value(a: Arena, h: Handle) returns (ans: Answer)
    requires a.Valid() && IsCounter(a.nodes, h)
    modifies a
    ensures a.nodes == old(a.nodes)
    ensures a.nodes[h].parent.None? ==> ans == Fetching(h) && a.log == old(a.log) + [Fetch(h)]
    ensures a.nodes[h].parent.Some? && Cached(a.nodes[h].kind.c.seed) ==>
              ans == Seed(a.nodes[h].kind.c.seed.value) && a.log == old(a.log)
    ensures a.nodes[h].parent.Some? && !Cached(a.nodes[h].kind.c.seed) ==>
              IsMap(a.nodes, a.nodes[h].parent.value) && ans == MapAnswer(a.nodes, a.nodes[h].parent.value)
              && a.log == if ans.Fetching? then old(a.log) + [Fetch(ans.root)] else old(a.log)
  {
    match a.nodes[h].parent
    case None =>
      a.log := a.log + [Fetch(h)];
      ans := Fetching(h);
    case Some(p) =>
      var seed := a.nodes[h].kind.c.seed;
      if Cached(seed) {
        ans := Seed(seed.value);
      } else {
        assert NodeOk(a.nodes, h);
        ans := MapValue(a, p);
      }
  }

  /** `add(4)` then `subtract(2)` on a root counter sends 4 and -2: the store's value rises by 2. */
  method AddThenSubtract(a: Arena, h: Handle)
    requires a.Valid() && IsCounter(a.nodes, h) && a.nodes[h].parent.None?
    modifies a
    ensures a.nodes == old(a.nodes)
    ensures a.log == old(a.log) + [Post(h, 4), Post(h, -2)]
  {
    var _, _ := Add(a, h, Num(4), true);
    var _, _ := Subtract(a, h, Num(2), true);
  }
}
