/** A counter: a signed 64-bit accumulator tied to a fixed metric name. Each operation
    is a single update of the accumulator; only the sequential meaning of those updates
    is modelled. */
module Counters {
  import opened JavaNumerics
  import opened MetricNames

  /** One accumulator update, as applied by `inc(n)` or `dec(n)`. */
  datatype Update = Add(n: int64) | Subtract(n: int64)

  /** The accumulator after one update: `addAndGet(n)` for `inc(n)`, `addAndGet(0 - n)`
      for `dec(n)`, both in `long` arithmetic. */
  function Step(count: int64, u: Update): int64
  {
    match u
    case Add(n) => Wrap64(count as int + n as int)
    case Subtract(n) => Wrap64(count as int + Wrap64(0 - n as int) as int)
  }

  /** The accumulator after a sequence of updates, first to last. */
  function Applied(count: int64, us: seq<Update>): int64
    decreases us
  {
    if us == [] then count else Applied(Step(count, us[0]), us[1..])
  }

  /** The signed value of an update. */
  function Delta(u: Update): int
  {
    match u
    case Add(n) => n as int
    case Subtract(n) => -(n as int)
  }

  /** The algebraic sum of the updates, unbounded. */
  function Sum(us: seq<Update>): int
  {
    if us == [] then 0 else Delta(us[0]) + Sum(us[1..])
  }

  class Counter {
    /** The metric name, fixed at construction (the field of the abstract base class). */
    const metricName: MetricName
    var count: int64

    constructor (metricName: MetricName)
      ensures this.metricName == metricName
      ensures count == 0
    {
      this.metricName := metricName;
      count := 0;
    }

    method GetMetricName() returns (m: MetricName)
      ensures m == metricName
    {
      m := metricName;
    }

    /** `inc()`, which is `inc(1)` */
    method Inc()
      modifies this
      ensures count == Step(old(count), Add(1))
    {
      IncBy(1);
    }

    /** `inc(long n)` */
    method IncBy(n: int64)
      modifies this
      ensures count == Step(old(count), Add(n))
      ensures count as int == old(count) as int + n as int ||
              count as int == old(count) as int + n as int - TWO_64 ||
              count as int == old(count) as int + n as int + TWO_64
    {
      count := Wrap64(count as int + n as int);
    }

    /** `dec()`, which is `dec(1)` */
    method Dec()
      modifies this
      ensures count == Step(old(count), Subtract(1))
    {
      DecBy(1);
    }

    /** `dec(long n)`, an addition of `0 - n` */
    method DecBy(n: int64)
      modifies this
      ensures count == Step(old(count), Subtract(n))
      ensures count == Wrap64(old(count) as int - n as int)
    {
      var negated := Wrap64(0 - n as int);
      count := Wrap64(count as int + negated as int);
      SubtractIsWrappedDifference(old(count), n);
    }

    /** `count()` reads the accumulator and changes nothing. */
    method Count() returns (c: int64)
      ensures c == count
    {
      c := count;
    }

    /** A caller's sequence of `inc(n)` / `dec(n)` calls, made one after another: the
        calls compose to the fold `Applied` of their updates. */
    method ApplyAll(us: seq<Update>)
      modifies this
      ensures count == Applied(old(count), us)
    {
      var i := 0;
      while i < |us|
        invariant 0 <= i <= |us|
        invariant count == Applied(old(count), us[..i])
      {
        AppliedAppend(old(count), us[..i], us[i]);
        assert us[..i + 1] == us[..i] + [us[i]];
        match us[i] {
          case Add(n) => IncBy(n);
          case Subtract(n) => DecBy(n);
        }
        i := i + 1;
      }
      assert us[..i] == us;
    }

    /** `reset()` sets the accumulator to zero, whatever it held. */
    method Reset()
      modifies this
      ensures count == 0
    {
      count := 0;
    }
  }

  /** `dec(n)` is `inc(0 - n)`, and both are the wrapped difference. */
  lemma SubtractIsWrappedDifference(count: int64, n: int64)
    ensures Step(count, Subtract(n)) == Step(count, Add(Wrap64(0 - n as int)))
    ensures Step(count, Subtract(n)) == Wrap64(count as int - n as int)
  {
    Wrap64AddRight(count as int, 0 - n as int);
  }

  /** `dec(MIN_VALUE)` adds `MIN_VALUE`, since `0 - MIN_VALUE` wraps back to `MIN_VALUE`. */
  lemma SubtractMinLong(count: int64)
    ensures Step(count, Subtract(MIN_LONG)) == Step(count, Add(MIN_LONG))
  {
  }

  /** Applying one more update after a sequence is one more step. */
  lemma {:induction false} AppliedAppend(count: int64, us: seq<Update>, u: Update)
    ensures Applied(count, us + [u]) == Step(Applied(count, us), u)
    decreases us
  {
    if us == [] {
      assert us + [u] == [u];
    } else {
      assert (us + [u])[1..] == us[1..] + [u];
      AppliedAppend(Step(count, us[0]), us[1..], u);
    }
  }

  /** After updates with no reset in between, the accumulator holds the wrapped sum of
      every delta applied. */
  lemma {:induction false} AppliedIsWrappedSum(count: int64, us: seq<Update>)
    ensures Applied(count, us) == Wrap64(count as int + Sum(us))
    decreases us
  {
    if us != [] {
      var next := Step(count, us[0]);
      AppliedIsWrappedSum(next, us[1..]);
      assert next == Wrap64(count as int + Delta(us[0])) by {
        if us[0].Subtract? {
          SubtractIsWrappedDifference(count, us[0].n);
        }
      }
      Wrap64AddLeft(count as int + Delta(us[0]), Sum(us[1..]));
    }
  }

  lemma {:induction false} SumAppend(us: seq<Update>, vs: seq<Update>)
    ensures Sum(us + vs) == Sum(us) + Sum(vs)
  {
    if us == [] {
      assert us + vs == vs;
    } else {
      assert (us + vs)[1..] == us[1..] + vs;
      SumAppend(us[1..], vs);
    }
  }

  /** Taking one update out of a sequence takes its delta out of the sum. */
  lemma SumRemove(vs: seq<Update>, k: nat)
    requires k < |vs|
    ensures Sum(vs) == Delta(vs[k]) + Sum(vs[..k] + vs[k + 1..])
  {
    assert vs == vs[..k] + [vs[k]] + vs[k + 1..];
    SumAppend(vs[..k] + [vs[k]], vs[k + 1..]);
    SumAppend(vs[..k], [vs[k]]);
    SumAppend(vs[..k], vs[k + 1..]);
    assert Sum([vs[k]]) == Delta(vs[k]);
  }

  /** Taking one element out of a sequence takes it out of the multiset. */
  lemma MultisetRemove(vs: seq<Update>, k: nat)
    requires k < |vs|
    ensures multiset(vs[..k] + vs[k + 1..]) == multiset(vs) - multiset{vs[k]}
  {
    assert vs == vs[..k] + [vs[k]] + vs[k + 1..];
  }

  lemma {:induction false} SumOfPermutation(us: seq<Update>, vs: seq<Update>)
    requires multiset(us) == multiset(vs)
    ensures Sum(us) == Sum(vs)
  {
    if us != [] {
      assert us[0] in multiset(vs);
      var k :| 0 <= k < |vs| && vs[k] == us[0];
      MultisetRemove(vs, k);
      MultisetRemove(us, 0);
      assert us[..0] + us[1..] == us[1..];
      SumOfPermutation(us[1..], vs[..k] + vs[k + 1..]);
      SumRemove(vs, k);
    }
  }

  /** The order in which the updates are applied does not matter. */
  lemma OrderIndependent(count: int64, us: seq<Update>, vs: seq<Update>)
    requires multiset(us) == multiset(vs)
    ensures Applied(count, us) == Applied(count, vs)
  {
    AppliedIsWrappedSum(count, us);
    AppliedIsWrappedSum(count, vs);
    SumOfPermutation(us, vs);
  }

  /** `k` calls of `inc()` on a fresh counter leave it at `k`, as long as `k` fits a `long`. */
  lemma RepeatedIncrements(k: nat)
    requires k < TWO_63
    ensures Applied(0, seq(k, _ => Add(1))) as int == k
  {
    var us := seq(k, _ => Add(1));
    AppliedIsWrappedSum(0, us);
    SumOfOnes(k);
  }

  lemma {:induction false} SumOfOnes(k: nat)
    ensures Sum(seq(k, _ => Add(1))) == k
  {
    if k > 0 {
      assert seq(k, _ => Add(1))[1..] == seq(k - 1, _ => Add(1));
      SumOfOnes(k - 1);
    }
  }
}
