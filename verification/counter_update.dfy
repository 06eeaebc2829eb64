/**
 * The value side of a Counter: its staged delta, its validation when it is sent on its
 * own, and the fragment it contributes to a parent map's update document.
 */
module CounterUpdate {
  import opened Wrappers
  import opened Json

  const InvalidAmount: string := "Value needs to be an integer (positive or negative)"

  /**
   * A Counter's own state: the pending delta (`counterupdate`, null until `add`) and the
   * cached value it was seeded with (`valueobj`, None when it was given none).
   */
  datatype CounterState = CounterState(counterupdate: Option<Amount>, seed: Option<Json>)

  /** A fresh counter: nothing staged, the given seed cached. */
  function Fresh(seed: Option<Json>): (c: CounterState)
    ensures c.counterupdate.None? && c.seed == seed
  {
    CounterState(None, seed)
  }

  /** `parseInt(amount * -1, 10)` for an amount that is already an integer or NaN. */
  function Negate(a: Amount): (r: Amount)
    ensures r.NaN? <==> a.NaN?
    ensures a.Num? ==> r.n + a.n == 0
  {
    match a
    case NaN => NaN
    case Num(n) => Num(-n)
  }

  /**
   * The direct increment a root counter sends: the body is the amount itself when it is
   * truthy (a non-zero integer); otherwise the validation error carrying the amount.
   */
  function RootAdd(a: Amount): (r: Result<int, ClientError>)
    ensures r.Success? <==> a.Num? && a.n != 0
    ensures r.Success? ==> r.value == a.n
    ensures r.Failure? ==> r.error == ClientError(InvalidAmount, Some(a))
  {
    if a.Num? && a.n != 0 then Success(a.n) else Failure(ClientError(InvalidAmount, Some(a)))
  }

  /**
   * An embedded counter's `add`: the pending delta becomes the latest amount, whatever
   * it was before and whatever the amount is.
   */
  function StageDelta(c: CounterState, a: Amount): (r: CounterState)
    ensures r.counterupdate == Some(a) && r.seed == c.seed
  {
    c.(counterupdate := Some(a))
  }

  /**
   * `get_update_structure` as it reaches the wire: the pending delta unchanged, where a
   * missing delta is null and NaN serialises to null as well.
   */
  function Fragment(c: CounterState): (r: Json)
    ensures r.JNum? <==> c.counterupdate.Some? && c.counterupdate.value.Num?
    ensures r.JNum? ==> r.n == c.counterupdate.value.n
    ensures !r.JNum? ==> r == JNull
  {
    match c.counterupdate
    case Some(Num(n)) => JNum(n)
    case _ => JNull
  }

  /** Only the last staged delta survives: staging twice is staging the second amount. */
  lemma StageDeltaLastWins(c: CounterState, a: Amount, b: Amount)
    ensures StageDelta(StageDelta(c, a), b) == StageDelta(c, b)
    ensures Fragment(StageDelta(StageDelta(c, a), b)) == Fragment(StageDelta(c, b))
  {
  }

  /** `subtract(n)` sends what `add(-n)` sends, and fails exactly when `add(n)` fails. */
  lemma SubtractIsAddNegated(a: Amount)
    ensures RootAdd(Negate(a)).Success? <==> RootAdd(a).Success?
    ensures RootAdd(a).Success? ==> RootAdd(Negate(a)).value == -RootAdd(a).value
  {
  }

  /** `add(4)` then `subtract(2)` on a root counter sends deltas that sum to 2. */
  lemma AddFourSubtractTwo()
    ensures RootAdd(Num(4)).Success? && RootAdd(Negate(Num(2))).Success?
    ensures RootAdd(Num(4)).value + RootAdd(Negate(Num(2))).value == 2
  {
  }
}
