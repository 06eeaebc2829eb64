/**
 * The JavaScript values the client stages, sends and reads back: JSON documents,
 * the numbers `parseInt` produces, the error objects the client builds itself,
 * and objects used as dictionaries (entry lists in insertion order).
 */
module Json {
  import opened Wrappers

  /** A JSON value. Numbers are integers; an object keeps its entries in insertion order. */
  datatype Json =
    | JNull
    | JBool(b: bool)
    | JNum(n: int)
    | JStr(s: string)
    | JArr(items: seq<Json>)
    | JObj(entries: seq<(string, Json)>)

  /** JavaScript truthiness of a JSON value. */
  predicate Truthy(j: Json) {
    match j
    case JNull => false
    case JBool(b) => b
    case JNum(n) => n != 0
    case JStr(s) => s != ""
    case JArr(_) => true
    case JObj(_) => true
  }

  /** What `parseInt(x, 10)` yields: an integer or NaN. */
  datatype Amount = Num(n: int) | NaN

  /** An `Error` the client constructs itself, with its optional `data` property. */
  datatype ClientError = ClientError(message: string, data: Option<Amount>)

  /** The keys of a dictionary, in insertion order. */
  function Keys<V>(m: seq<(string, V)>): seq<string>
  {
    seq(|m|, i requires 0 <= i < |m| => m[i].0)
  }

  /** Property lookup `m[k]`: the value under the first entry with key k. */
  function Get<V>(m: seq<(string, V)>, k: string): (r: Option<V>)
    ensures r.None? <==> k !in Keys(m)
    ensures r.Some? ==> (k, r.value) in m
  {
    if |m| == 0 then None
    else if m[0].0 == k then
      assert Keys(m)[0] == k;
      Some(m[0].1)
    else
      assert Keys(m) == [m[0].0] + Keys(m[1..]);
      Get(m[1..], k)
  }

  /** Looking up in a concatenation: the first part wins when it has the key. */
  lemma {:induction false} GetAppend<V>(a: seq<(string, V)>, b: seq<(string, V)>, k: string)
    ensures Get(a + b, k) == if k in Keys(a) then Get(a, k) else Get(b, k)
  {
    if |a| == 0 {
      assert a + b == b;
    } else {
      assert Keys(a) == [a[0].0] + Keys(a[1..]);
      if a[0].0 != k {
        GetAppend(a[1..], b, k);
        assert (a + b)[1..] == a[1..] + b;
      }
    }
  }

  /**
   * Property assignment `m[k] = v`: an existing key keeps its place and gets the new
   * value, a new key is added at the end.
   */
  function Put<V>(m: seq<(string, V)>, k: string, v: V): seq<(string, V)>
  {
    if |m| == 0 then [(k, v)]
    else if m[0].0 == k then [(k, v)] + m[1..]
    else [m[0]] + Put(m[1..], k, v)
  }

  /** After `m[k] = v`, k holds v and every other key holds what it held before. */
  lemma {:induction false} PutLookup<V>(m: seq<(string, V)>, k: string, v: V)
    ensures Get(Put(m, k, v), k) == Some(v)
    ensures forall k' :: k' != k ==> Get(Put(m, k, v), k') == Get(m, k')
  {
    if |m| > 0 && m[0].0 != k {
      PutLookup(m[1..], k, v);
      assert Put(m, k, v)[1..] == Put(m[1..], k, v);
    } else if |m| > 0 {
      assert Put(m, k, v)[1..] == m[1..];
    }
  }

  /** `m[k] = v` keeps the order of the existing keys and appends k only if it is new. */
  lemma {:induction false} PutKeys<V>(m: seq<(string, V)>, k: string, v: V)
    ensures Keys(Put(m, k, v)) == if k in Keys(m) then Keys(m) else Keys(m) + [k]
  {
    if |m| > 0 {
      assert Keys(m) == [m[0].0] + Keys(m[1..]);
      if m[0].0 != k {
        PutKeys(m[1..], k, v);
        assert Keys(Put(m, k, v)) == [m[0].0] + Keys(Put(m[1..], k, v));
      } else {
        assert Keys(Put(m, k, v)) == Keys(m);
      }
    }
  }

  /** Every entry after `m[k] = v` is the new one or was there before. */
  lemma {:induction false} PutEntries<V>(m: seq<(string, V)>, k: string, v: V)
    ensures forall e :: e in Put(m, k, v) ==> e == (k, v) || e in m
  {
    if |m| > 0 && m[0].0 != k {
      PutEntries(m[1..], k, v);
    }
  }
}
