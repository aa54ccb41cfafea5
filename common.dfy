/**
 * Values shared by every module of the model: an optional value (Python's
 * `None`), and a real number extended with +infinity, which is how the
 * road-network code reports an unreachable pair and how the suggestion ranking
 * prices a technique that has no cost.
 */
module Common {

  datatype Option<T> = None | Some(value: T)

  /** A float that is either finite or `float('inf')`. */
  datatype ExtReal = Finite(value: real) | Inf

  /** Python's `<=` on floats restricted to finite values and +infinity. */
  predicate Le(a: ExtReal, b: ExtReal)
  {
    match a
    case Inf => b.Inf?
    case Finite(x) => b.Inf? || x <= b.value
  }

  /** Python's `<` on the same values. */
  predicate Lt(a: ExtReal, b: ExtReal)
  {
    !Le(b, a)
  }

  /** `a + x` for a finite `x`: infinity absorbs every finite summand. */
  function Plus(a: ExtReal, x: real): (r: ExtReal)
    ensures r.Inf? <==> a.Inf?
    ensures a.Finite? ==> r.value - a.value == x
  {
    match a
    case Inf => Inf
    case Finite(v) => Finite(v + x)
  }

  lemma LeTotal(a: ExtReal, b: ExtReal)
    ensures Le(a, b) || Le(b, a)
  {
  }

  lemma LeTransitive(a: ExtReal, b: ExtReal, c: ExtReal)
    requires Le(a, b) && Le(b, c)
    ensures Le(a, c)
  {
  }

  /** Sum of a sequence of reals, Python's `sum(...)` starting from 0. */
  function Sum(s: seq<real>): real
  {
    if s == [] then 0.0 else Sum(s[..|s| - 1]) + s[|s| - 1]
  }

  lemma {:induction false} SumAppend(a: seq<real>, b: seq<real>)
    ensures Sum(a + b) == Sum(a) + Sum(b)
  {
    if b == [] {
      assert a + b == a;
    } else {
      assert (a + b)[..|a + b| - 1] == a + b[..|b| - 1];
      SumAppend(a, b[..|b| - 1]);
    }
  }
}
