/** Option and Result types, insertion-ordered dictionaries and a stable sort: the
    Python building blocks that the modelled files share. */
module Common {

  datatype Option<+T> = None | Some(value: T)

  datatype Error =
    | KeyError
    | ValueError
    | DivisionByZero
    | MissingTradingDayBar
    | MissingPriceData
    | InvalidTargetWeights
    | PrecisionUnavailable
    | SubscriptionSync
    | InvalidArgument
    | InvalidData

  /** A computation either yields a value or raises. */
  datatype Result<+T> = Success(value: T) | Failure(error: Error) {
    predicate IsFailure() {
      Failure?
    }

    function PropagateFailure<U>(): Result<U>
      requires Failure?
    {
      Failure(error)
    }

    function Extract(): T
      requires Success?
    {
      value
    }
  }

  datatype Side = Buy | Sell

  type AssetId = string
  type Currency = string

  function Max(x: real, y: real): real {
    if x >= y then x else y
  }

  function Min(x: real, y: real): real {
    if x <= y then x else y
  }

  /** The value of a quantity at a price, without rounding. */
  function Worth(quantity: real, price: real): real {
    quantity * price
  }

  function Abs(x: real): real {
    if x < 0.0 then -x else x
  }

  /** Subscripting a dictionary: a missing key raises. */
  function Lookup<K, V>(m: map<K, V>, k: K): Result<V> {
    if k in m then Success(m[k]) else Failure(KeyError)
  }

  /** `dict.get(k, default)`. */
  function GetOr<K, V>(m: map<K, V>, k: K, default: V): V {
    if k in m then m[k] else default
  }

  /** The arithmetic of a Decimal context: the operations, each with its own rounding.
      Negation, comparison, `abs`, `max` and flooring do not round; subtraction adds the
      negated operand. Statements that hold for every `Decimals` hold for any precision
      and rounding mode; the others ask for `Exact`. */
  datatype Decimals = Decimals(add: (real, real) -> real, mul: (real, real) -> real, div: (real, real) -> real) {
    function Sub(x: real, y: real): real {
      add(x, -y)
    }

    /** Division: a zero divisor raises. */
    function Divide(x: real, y: real): Result<real> {
      if y == 0.0 then Failure(DivisionByZero) else Success(div(x, y))
    }

    /** Nothing is ever rounded. */
    ghost predicate Exact() {
      && (forall x, y :: add(x, y) == x + y)
      && (forall x, y :: mul(x, y) == x * y)
      && (forall x, y :: y != 0.0 ==> div(x, y) == x / y)
    }
  }

  /** No element twice. */
  predicate NoRepeats<T(==)>(xs: seq<T>) {
    forall i, j :: 0 <= i < j < |xs| ==> xs[i] != xs[j]
  }

  /** A dictionary whose iteration order matters: its items in insertion order. */
  type Items<V> = seq<(AssetId, V)>

  predicate HasKey<V>(d: Items<V>, k: AssetId) {
    exists i :: 0 <= i < |d| && d[i].0 == k
  }

  function ItemOr<V>(d: Items<V>, k: AssetId, default: V): V {
    if d == [] then default
    else if d[|d| - 1].0 == k then d[|d| - 1].1
    else ItemOr(d[..|d| - 1], k, default)
  }

  predicate DistinctKeys<V>(d: Items<V>) {
    forall i, j :: 0 <= i < j < |d| ==> d[i].0 != d[j].0
  }

  /** `d[k] = v`: overwrite in place, or append a new item. */
  function Put<V>(d: Items<V>, k: AssetId, v: V): Items<V> {
    if d == [] then [(k, v)]
    else if d[|d| - 1].0 == k then d[..|d| - 1] + [(k, v)]
    else if HasKey(d[..|d| - 1], k) then Put(d[..|d| - 1], k, v) + [d[|d| - 1]]
    else d + [(k, v)]
  }

  lemma {:induction false} PutFresh<V>(d: Items<V>, k: AssetId, v: V)
    requires !HasKey(d, k)
    ensures Put(d, k, v) == d + [(k, v)]
  {
    if d != [] {
      assert d[|d| - 1].0 != k;
      assert !HasKey(d[..|d| - 1], k);
    }
  }

  lemma KeysOfAppended<V>(d: Items<V>, x: (AssetId, V), k: AssetId)
    ensures HasKey(d + [x], k) <==> HasKey(d, k) || x.0 == k
  {
    var e := d + [x];
    assert e[|d|] == x;
    if HasKey(d, k) {
      var i :| 0 <= i < |d| && d[i].0 == k;
      assert e[i].0 == k;
    }
  }

  lemma {:induction false} ItemAt<V>(d: Items<V>, i: nat, default: V)
    requires i < |d| && DistinctKeys(d)
    ensures ItemOr(d, d[i].0, default) == d[i].1
  {
    if i < |d| - 1 {
      ItemAt(d[..|d| - 1], i, default);
    }
  }

  lemma {:induction false} ItemAbsent<V>(d: Items<V>, k: AssetId, default: V)
    requires !HasKey(d, k)
    ensures ItemOr(d, k, default) == default
  {
    if d != [] {
      assert d[|d| - 1].0 != k;
      assert !HasKey(d[..|d| - 1], k);
      ItemAbsent(d[..|d| - 1], k, default);
    }
  }

  /** `sum(d.values(), start=0)`. */
  function SumItems(num: Decimals, d: Items<real>): real {
    if d == [] then 0.0 else num.add(SumItems(num, d[..|d| - 1]), d[|d| - 1].1)
  }

  /** Insertion into a list sorted by `key`, after every element with an equal or smaller key. */
  function InsertByKey<T>(key: T -> int, xs: seq<T>, x: T): seq<T> {
    if xs == [] || key(xs[|xs| - 1]) <= key(x) then xs + [x]
    else InsertByKey(key, xs[..|xs| - 1], x) + [xs[|xs| - 1]]
  }

  /** Python's stable `sorted(xs, key=key)`. */
  function SortedByKey<T>(key: T -> int, xs: seq<T>): seq<T> {
    if xs == [] then [] else InsertByKey(key, SortedByKey(key, xs[..|xs| - 1]), xs[|xs| - 1])
  }

  predicate IsSortedByKey<T>(key: T -> int, xs: seq<T>) {
    forall i, j :: 0 <= i < j < |xs| ==> key(xs[i]) <= key(xs[j])
  }

  /** A sorted list is left as it is. */
  lemma {:induction false} SortingSortedList<T>(key: T -> int, xs: seq<T>)
    requires IsSortedByKey(key, xs)
    ensures SortedByKey(key, xs) == xs
  {
    if xs != [] {
      var n := |xs| - 1;
      SortingSortedList(key, xs[..n]);
      if n > 0 {
        assert key(xs[n - 1]) <= key(xs[n]);
      }
      assert xs == xs[..n] + [xs[n]];
    }
  }
}
