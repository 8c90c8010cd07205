/**
 * The `max` aggregation: a running maximum over the values of one column,
 * with null as the bottom element and a memory-accounting charge every time
 * the kept value is replaced, plus the state's stream encoding.
 */
module MaximumAggregation {
  import opened Wrappers

  /** A nullable value of one of the primitive SQL types, ordered like `int`. */
  datatype Value = Null | NonNull(v: int)

  /**
   * The size estimator of the column's type: `est(old, new)` is the number of
   * bytes charged when `old` is replaced by `new`.
   */
  type SizeEstimator = (Value, Value) -> int

  /**
   * The aggregation state: the running maximum and the bytes charged so far
   * to the query's accounting context on behalf of this state.
   */
  datatype MaxState = MaxState(value: Value, accounted: int)

  /** The strict order that the state's comparisons implement: null below every value. */
  predicate Below(a: Value, b: Value)
  {
    match (a, b)
    case (Null, NonNull(_)) => true
    case (NonNull(x), NonNull(y)) => x < y
    case _ => false
  }

  /** The larger of two values under `Below`; on a tie the first one is kept. */
  function Larger(a: Value, b: Value): Value
  {
    if Below(a, b) then b else a
  }

  /** A freshly created state: value null, nothing charged. */
  function NewState(): MaxState
  {
    MaxState(Null, 0)
  }

  /** `Integer.compare`-style three-way comparison of two non-null values. */
  function CompareInts(x: int, y: int): int
  {
    if x < y then -1 else if x == y then 0 else 1
  }

  /** `compareValue`: compares the state's value with `other`, null being the smallest. */
  function CompareValue(s: MaxState, other: Value): (c: int)
    ensures c < 0 <==> Below(s.value, other)
    ensures c > 0 <==> Below(other, s.value)
    ensures c == 0 <==> s.value == other
    ensures -1 <= c <= 1
  {
    if s.value.Null? then (if other.Null? then 0 else -1)
    else if other.Null? then 1
    else CompareInts(s.value.v, other.v)
  }

  /** `compareTo`: a null state compares as greater than this one. */
  function CompareTo(s: MaxState, o: Option<MaxState>): (c: int)
    ensures o.None? ==> c == -1
    ensures o.Some? ==> (c < 0 <==> Below(s.value, o.value.value))
    ensures o.Some? ==> (c == 0 <==> s.value == o.value.value)
  {
    if o.None? then -1 else CompareValue(s, o.value.value)
  }

  /** `setValue`: unconditionally replaces the value and charges the estimated delta. */
  function SetValue(s: MaxState, x: Value, est: SizeEstimator): (r: MaxState)
    ensures r.value == x
    ensures r.accounted - s.accounted == est(s.value, x)
  {
    MaxState(x, s.accounted + est(s.value, x))
  }

  /**
   * `add`: folds one input into the running maximum. Null inputs are ignored;
   * the value is replaced, and the delta charged, only when the state is null
   * or the input is strictly greater.
   */
  function Add(s: MaxState, x: Value, est: SizeEstimator): (r: MaxState)
    ensures r.value == Larger(s.value, x)
    ensures x.Null? ==> r == s
    ensures Below(s.value, x) ==> r.accounted == s.accounted + est(s.value, x)
    ensures !Below(s.value, x) ==> r == s
  {
    if x.Null? then s
    else if s.value.Null? || CompareValue(s, x) < 0 then SetValue(s, x, est)
    else s
  }

  /**
   * `reduce`: merges another partial state into this one. Only the other
   * state's value moves; its own accounting stays with it.
   */
  function Reduce(s: MaxState, o: MaxState, est: SizeEstimator): (r: MaxState)
    ensures o.value.Null? ==> r == s
    ensures r.value == Larger(s.value, o.value)
    ensures Below(s.value, o.value) ==> r.accounted == s.accounted + est(s.value, o.value)
    ensures !Below(s.value, o.value) ==> r == s
  {
    if o.value.Null? then s
    else if s.value.Null? || CompareTo(s, Some(o)) < 0 then
      MaxState(o.value, s.accounted + est(s.value, o.value))
    else s
  }

  /** `iterate`: feeds the first argument of a row into the state; always asks for more rows. */
  function Iterate(s: MaxState, args: seq<Value>, est: SizeEstimator): (r: (bool, MaxState))
    requires |args| >= 1
    ensures r.0
    ensures r.1.value == Larger(s.value, args[0])
    ensures r.1 == Add(s, args[0], est)
  {
    (true, Add(s, args[0], est))
  }

  /** Feeds a whole column into a state, one `iterate` call per row. */
  function Aggregate(s: MaxState, column: seq<Value>, est: SizeEstimator): MaxState
    decreases |column|
  {
    if |column| == 0 then s
    else Aggregate(Iterate(s, column[..1], est).1, column[1..], est)
  }

  /** `v` is at least every value in `column` and at least `init`. */
  predicate IsUpperBound(v: Value, init: Value, column: seq<Value>)
  {
    !Below(v, init) && forall i :: 0 <= i < |column| ==> !Below(v, column[i])
  }

  /** `v` is `init` or one of the column's values. */
  predicate IsDrawnFrom(v: Value, init: Value, column: seq<Value>)
  {
    v == init || exists i :: 0 <= i < |column| && column[i] == v
  }

  /** `Below` is a strict total order on values. */
  lemma BelowIsStrictTotalOrder(a: Value, b: Value, c: Value)
    ensures !Below(a, a)
    ensures Below(a, b) ==> !Below(b, a)
    ensures Below(a, b) && Below(b, c) ==> Below(a, c)
    ensures a == b || Below(a, b) || Below(b, a)
  {
  }

  /** `compareValue` is antisymmetric, as `Comparable` requires. */
  lemma CompareValueAntisymmetric(a: Value, b: Value, ka: int, kb: int)
    ensures CompareValue(MaxState(a, ka), b) == -CompareValue(MaxState(b, kb), a)
  {
  }

  /** Aggregating a column yields its maximum: an upper bound drawn from the inputs. */
  lemma {:induction false} AggregateIsMaximum(s: MaxState, column: seq<Value>, est: SizeEstimator)
    ensures IsUpperBound(Aggregate(s, column, est).value, s.value, column)
    ensures IsDrawnFrom(Aggregate(s, column, est).value, s.value, column)
    decreases |column|
  {
    if |column| > 0 {
      var s1 := Iterate(s, column[..1], est).1;
      AggregateIsMaximum(s1, column[1..], est);
      var r := Aggregate(s, column, est);
      assert r == Aggregate(s1, column[1..], est);
      forall i | 0 <= i < |column|
        ensures !Below(r.value, column[i])
      {
        if i > 0 {
          assert column[1..][i - 1] == column[i];
        } else {
          BelowIsStrictTotalOrder(r.value, s1.value, column[0]);
        }
      }
      BelowIsStrictTotalOrder(r.value, s1.value, s.value);
      if r.value != s1.value {
        var j :| 0 <= j < |column[1..]| && column[1..][j] == r.value;
        assert column[j + 1] == r.value;
      }
    }
  }

  /** Null rows never change the state, neither its value nor its accounting. */
  lemma {:induction false} AggregateNullsIsIdentity(s: MaxState, column: seq<Value>, est: SizeEstimator)
    requires forall i :: 0 <= i < |column| ==> column[i].Null?
    ensures Aggregate(s, column, est) == s
    decreases |column|
  {
    if |column| > 0 {
      AggregateNullsIsIdentity(s, column[1..], est);
    }
  }

  /**
   * Partial aggregation is sound: aggregating two halves of a column in two
   * states and reducing the second into the first gives the maximum of the
   * whole column.
   */
  lemma ReduceOfPartialAggregates(s: MaxState, left: seq<Value>, right: seq<Value>, est: SizeEstimator)
    ensures Reduce(Aggregate(s, left, est), Aggregate(NewState(), right, est), est).value
         == Aggregate(s, left + right, est).value
  {
    var a := Aggregate(s, left, est).value;
    var b := Aggregate(NewState(), right, est).value;
    var c := Aggregate(s, left + right, est).value;
    AggregateIsMaximum(s, left, est);
    AggregateIsMaximum(NewState(), right, est);
    AggregateIsMaximum(s, left + right, est);
    var whole := left + right;
    assert forall i :: 0 <= i < |left| ==> whole[i] == left[i];
    assert forall i :: 0 <= i < |right| ==> whole[|left| + i] == right[i];
    var m := Larger(a, b);
    // m bounds the whole column and is drawn from it, and so does c: they coincide.
    forall i | 0 <= i < |whole|
      ensures !Below(m, whole[i])
    {
      if i < |left| {
        BelowIsStrictTotalOrder(m, a, whole[i]);
      } else {
        assert whole[i] == right[i - |left|];
        BelowIsStrictTotalOrder(m, b, whole[i]);
      }
    }
    BelowIsStrictTotalOrder(m, a, s.value);
    assert IsUpperBound(m, s.value, whole);
    if m == a {
      if a != s.value {
        var j :| 0 <= j < |left| && left[j] == a;
        assert whole[j] == m;
      }
    } else {
      if b != Null {
        var j :| 0 <= j < |right| && right[j] == b;
        assert whole[|left| + j] == m;
      } else {
        BelowIsStrictTotalOrder(a, b, b);
      }
    }
    assert IsDrawnFrom(m, s.value, whole);
    UpperBoundsDrawnFromCoincide(m, c, s.value, whole);
  }

  /** Two upper bounds that are both drawn from the inputs are the same value. */
  lemma UpperBoundsDrawnFromCoincide(m: Value, c: Value, init: Value, column: seq<Value>)
    requires IsUpperBound(m, init, column) && IsDrawnFrom(m, init, column)
    requires IsUpperBound(c, init, column) && IsDrawnFrom(c, init, column)
    ensures m == c
  {
    BelowIsStrictTotalOrder(m, c, c);
  }

  /**
   * When the estimator charges the difference of two sizes, the bytes charged
   * over a whole column add up to the size of the final value minus the size
   * of the initial one: accounting follows the kept value exactly.
   */
  lemma {:induction false} AccountingTelescopes(s: MaxState, column: seq<Value>, est: SizeEstimator, size: Value -> int)
    requires forall a, b :: est(a, b) == size(b) - size(a)
    ensures Aggregate(s, column, est).accounted - s.accounted
         == size(Aggregate(s, column, est).value) - size(s.value)
    decreases |column|
  {
    if |column| > 0 {
      AccountingTelescopes(Iterate(s, column[..1], est).1, column[1..], est, size);
    }
  }

  /** `add` and `setValue` charge by one rule: `add` is a `setValue` guarded by the comparison. */
  lemma AddIsGuardedSetValue(s: MaxState, x: Value, est: SizeEstimator)
    ensures Add(s, x, est) == if Below(s.value, x) then SetValue(s, x, est) else s
  {
  }

  /** `reduce` has the effect of adding the other state's value. */
  lemma ReduceIsAddOfOtherValue(s: MaxState, o: MaxState, est: SizeEstimator)
    ensures Reduce(s, o, est) == Add(s, o.value, est)
  {
  }

  // ---------------------------------------------------------------------
  // Stream encoding. The value streamer of the column type is abstract: a
  // value occupies one `Item` token, a boolean one `Flag` token.
  // ---------------------------------------------------------------------

  datatype Token = Flag(b: bool) | Item(v: int)

  datatype StreamError = EndOfStream | UnexpectedToken

  /** `writeTo`: a null flag, then the value only when there is one. */
  function WriteTo(s: MaxState): (out: seq<Token>)
    ensures |out| >= 1 && out[0] == Flag(s.value.Null?)
    ensures |out| == if s.value.Null? then 1 else 2
    ensures s.value.NonNull? ==> out[1] == Item(s.value.v)
  {
    [Flag(s.value.Null?)] + (if s.value.NonNull? then [Item(s.value.v)] else [])
  }

  /**
   * `readFrom`: reads the null flag and, when it is false, a value that is
   * installed through `setValue` (and so charged). On a true flag the state
   * is left as it was. Returns the state and the unread rest of the stream.
   */
  function ReadFrom(s: MaxState, input: seq<Token>, est: SizeEstimator): (r: Result<(MaxState, seq<Token>), StreamError>)
    ensures r.Ok? ==> |r.value.1| < |input| && r.value.1 == input[|input| - |r.value.1|..]
    ensures r.Ok? && input[0] == Flag(true) ==> r.value.0 == s
    ensures |input| >= 1 && input[0] == Flag(true) ==> r == Ok((s, input[1..]))
    ensures |input| >= 2 && input[0] == Flag(false) && input[1].Item? ==>
      r == Ok((SetValue(s, NonNull(input[1].v), est), input[2..]))
    ensures r.Ok? && input[0] == Flag(false) ==>
      r.value.0.value.NonNull? && r.value.0.accounted == s.accounted + est(s.value, r.value.0.value)
    ensures |input| == 0 || (input[0] == Flag(false) && |input| == 1) ==> r == Err(EndOfStream)
    ensures |input| >= 1 && input[0].Item? ==> r == Err(UnexpectedToken)
  {
    if |input| == 0 then Err(EndOfStream)
    else match input[0]
      case Item(_) => Err(UnexpectedToken)
      case Flag(isNull) =>
        if isNull then Ok((s, input[1..]))
        else if |input| < 2 then Err(EndOfStream)
        else match input[1]
          case Flag(_) => Err(UnexpectedToken)
          case Item(v) => Ok((SetValue(s, NonNull(v), est), input[2..]))
  }

  /**
   * Round trip: reading what `writeTo` wrote into a fresh state restores the
   * value, consumes exactly the written tokens, and charges the fresh state
   * for the value it now holds.
   */
  lemma WriteReadRoundTrip(s: MaxState, rest: seq<Token>, est: SizeEstimator)
    ensures ReadFrom(NewState(), WriteTo(s) + rest, est).Ok?
    ensures ReadFrom(NewState(), WriteTo(s) + rest, est).value.0.value == s.value
    ensures ReadFrom(NewState(), WriteTo(s) + rest, est).value.1 == rest
    ensures s.value.NonNull? ==>
      ReadFrom(NewState(), WriteTo(s) + rest, est).value.0.accounted == est(Null, s.value)
  {
    var w := WriteTo(s) + rest;
    if s.value.NonNull? {
      assert w[0] == Flag(false) && w[1] == Item(s.value.v);
      assert w[2..] == rest;
    } else {
      assert w[0] == Flag(true);
      assert w[1..] == rest;
    }
  }
}
