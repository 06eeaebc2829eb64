/**
 * The value side of a Set: the staged add and remove lists, how an element argument is
 * staged, the body a root set sends at once, and the update fragment it contributes to
 * a parent map.
 */
module SetUpdate {
  import opened Wrappers
  import opened Json

  const MissingElement: string := "Element must be provided"

  datatype Op = Add | Remove

  /** A Set's own state: the staged lists and the cached value it was seeded with. */
  datatype SetState = SetState(toadd: seq<Json>, toremove: seq<Json>, seed: Option<Json>)

  /** A fresh set: nothing staged, the given seed cached. */
  function Fresh(seed: Option<Json>): (s: SetState)
    ensures s.toadd == [] && s.toremove == [] && s.seed == seed
  {
    SetState([], [], seed)
  }

  function OpName(op: Op): string
  {
    match op
    case Add => "add"
    case Remove => "remove"
  }

  /** What staging appends to a list: an array's elements in order (`concat`), or the value itself (`push`). */
  function Elements(x: Json): (es: seq<Json>)
    ensures !x.JArr? ==> es == [x]
    ensures x.JArr? ==> es == x.items
  {
    if x.JArr? then x.items else [x]
  }

  /**
   * An embedded set's `add`/`remove`: the list the operation names grows at its end by
   * the element (or the array's elements), the other list and the seed stay as they were.
   */
  function Stage(s: SetState, op: Op, x: Json): (r: SetState)
    ensures r.seed == s.seed
    ensures op == Add ==> r.toremove == s.toremove
    ensures op == Add ==>
              |r.toadd| == |s.toadd| + |Elements(x)| && r.toadd[..|s.toadd|] == s.toadd && r.toadd[|s.toadd|..] == Elements(x)
    ensures op == Remove ==> r.toadd == s.toadd
    ensures op == Remove ==>
              |r.toremove| == |s.toremove| + |Elements(x)| && r.toremove[..|s.toremove|] == s.toremove
              && r.toremove[|s.toremove|..] == Elements(x)
  {
    match op
    case Add => s.(toadd := s.toadd + Elements(x))
    case Remove => s.(toremove := s.toremove + Elements(x))
  }

  /**
   * The body a root set POSTs for one operation: a single key, the operation name (with
   * `_all` for an array), holding the argument; a falsy element is an error instead.
   */
  function RootBody(op: Op, x: Json): (r: Result<Json, ClientError>)
    ensures r.Success? <==> Truthy(x)
    ensures r.Success? ==> r.value.JObj? && |r.value.entries| == 1 && r.value.entries[0].1 == x
    ensures r.Success? && !x.JArr? ==> r.value.entries[0].0 == OpName(op)
    ensures r.Success? && x.JArr? ==> r.value.entries[0].0 == OpName(op) + "_all"
    ensures r.Failure? ==> r.error == ClientError(MissingElement, None)
  {
    var operation := if x.JArr? then OpName(op) + "_all" else OpName(op);
    if Truthy(x) then Success(JObj([(operation, x)])) else Failure(ClientError(MissingElement, None))
  }

  /** One list's part of the fragment: no key, the singular key, or the `_all` key. */
  function ListPart(one: string, all: string, xs: seq<Json>): (r: seq<(string, Json)>)
    ensures |xs| == 0 ==> r == []
    ensures |xs| == 1 ==> r == [(one, xs[0])]
    ensures |xs| > 1 ==> r == [(all, JArr(xs))]
  {
    if |xs| > 1 then [(all, JArr(xs))]
    else if |xs| == 1 then [(one, xs[0])]
    else []
  }

  /**
   * `get_update_structure`: each list is encoded by its length — nothing when empty, the
   * singular key holding the one element, or the `_all` key holding the whole list.
   */
  function Fragment(s: SetState): (r: Json)
    ensures r.JObj?
    ensures !("add" in Keys(r.entries) && "add_all" in Keys(r.entries))
    ensures !("remove" in Keys(r.entries) && "remove_all" in Keys(r.entries))
    ensures forall k :: k in Keys(r.entries) ==> k in ["add", "add_all", "remove", "remove_all"]
    ensures |s.toadd| == 0 ==> Get(r.entries, "add").None? && Get(r.entries, "add_all").None?
    ensures |s.toadd| == 1 ==> Get(r.entries, "add") == Some(s.toadd[0]) && Get(r.entries, "add_all").None?
    ensures |s.toadd| > 1 ==> Get(r.entries, "add_all") == Some(JArr(s.toadd)) && Get(r.entries, "add").None?
    ensures |s.toremove| == 0 ==> Get(r.entries, "remove").None? && Get(r.entries, "remove_all").None?
    ensures |s.toremove| == 1 ==> Get(r.entries, "remove") == Some(s.toremove[0]) && Get(r.entries, "remove_all").None?
    ensures |s.toremove| > 1 ==> Get(r.entries, "remove_all") == Some(JArr(s.toremove)) && Get(r.entries, "remove").None?
  {
    var adds := ListPart("add", "add_all", s.toadd);
    var removes := ListPart("remove", "remove_all", s.toremove);
    assert Keys(adds + removes) == Keys(adds) + Keys(removes);
    GetAppend(adds, removes, "add");
    GetAppend(adds, removes, "add_all");
    GetAppend(adds, removes, "remove");
    GetAppend(adds, removes, "remove_all");
    assert forall k :: k in Keys(adds) ==> k == "add" || k == "add_all";
    assert forall k :: k in Keys(removes) ==> k == "remove" || k == "remove_all";
    JObj(adds + removes)
  }

  /**
   * The worked example: `add("a")`, `add(["b","c"])`, `remove("b")` on an embedded set
   * stage `add_all: ["a","b","c"]` and `remove: "b"`.
   */
  lemma AccumulationExample(seed: Option<Json>)
    ensures var s := Stage(Stage(Stage(Fresh(seed), Add, JStr("a")), Add, JArr([JStr("b"), JStr("c")])), Remove, JStr("b"));
      Fragment(s) == JObj([("add_all", JArr([JStr("a"), JStr("b"), JStr("c")])), ("remove", JStr("b"))])
  {
    var s1 := Stage(Fresh(seed), Add, JStr("a"));
    assert s1.toadd == [JStr("a")] && s1.toremove == [];
    var s2 := Stage(s1, Add, JArr([JStr("b"), JStr("c")]));
    assert s2.toadd == [JStr("a"), JStr("b"), JStr("c")] && s2.toremove == [];
    var s := Stage(s2, Remove, JStr("b"));
    assert ListPart("add", "add_all", s.toadd) == [("add_all", JArr([JStr("a"), JStr("b"), JStr("c")]))];
    assert ListPart("remove", "remove_all", s.toremove) == [("remove", JStr("b"))];
  }
}
