/** `struct timeval` arithmetic and comparisons as Click's portability glue
    defines them when the platform does not: a time is a pair of seconds
    and microseconds, and it is normalised when the microseconds lie in
    [0, 1000000). */
module Glue {

  const USEC_PER_SEC: int := 1000000

  datatype Timeval = Timeval(sec: int, usec: int)

  /** The comparison operator a `timercmp` invocation is given. */
  datatype CmpOp = LT | LE | GT | GE | EQ | NE

  ghost predicate Normalised(t: Timeval)
  {
    0 <= t.usec < USEC_PER_SEC
  }

  /** The instant a timeval denotes, in microseconds. */
  function ToUsec(t: Timeval): int
  {
    t.sec * USEC_PER_SEC + t.usec
  }

  /** `make_timeval`: both fields stored verbatim. */
  function MakeTimeval(sec: int, usec: int): (t: Timeval)
    ensures t.sec == sec && t.usec == usec
    ensures ToUsec(t) == sec * USEC_PER_SEC + usec
  {
    Timeval(sec, usec)
  }

  /** `operator==`. */
  predicate Eq(a: Timeval, b: Timeval)
  {
    a.sec == b.sec && a.usec == b.usec
  }

  /** `operator!=`. */
  predicate Ne(a: Timeval, b: Timeval)
  {
    a.sec != b.sec || a.usec != b.usec
  }

  /** `operator<`. */
  predicate Lt(a: Timeval, b: Timeval)
  {
    a.sec < b.sec || (a.sec == b.sec && a.usec < b.usec)
  }

  /** `operator<=`. */
  predicate Le(a: Timeval, b: Timeval)
  {
    a.sec < b.sec || (a.sec == b.sec && a.usec <= b.usec)
  }

  /** `operator>=`. */
  predicate Ge(a: Timeval, b: Timeval)
  {
    a.sec > b.sec || (a.sec == b.sec && a.usec >= b.usec)
  }

  /** `operator>`. */
  predicate Gt(a: Timeval, b: Timeval)
  {
    a.sec > b.sec || (a.sec == b.sec && a.usec > b.usec)
  }

  /** The `timercmp(a, b, CMP)` macro: the microseconds are compared when
      the seconds agree, the seconds otherwise. */
  predicate TimerCmp(a: Timeval, b: Timeval, op: CmpOp)
  {
    if a.sec == b.sec then Apply(op, a.usec, b.usec) else Apply(op, a.sec, b.sec)
  }

  predicate Apply(op: CmpOp, x: int, y: int)
  {
    match op
      case LT => x < y
      case LE => x <= y
      case GT => x > y
      case GE => x >= y
      case EQ => x == y
      case NE => x != y
  }

  /** The value `a + b` (and `a += b`) produces: both fields added, then one
      second carried when the microseconds reach a million. */
  function Plus(a: Timeval, b: Timeval): (r: Timeval)
    ensures ToUsec(r) == ToUsec(a) + ToUsec(b)
    ensures Normalised(a) && Normalised(b) ==> Normalised(r)
  {
    var s := a.sec + b.sec;
    var u := a.usec + b.usec;
    if u >= USEC_PER_SEC then Timeval(s + 1, u - USEC_PER_SEC) else Timeval(s, u)
  }

  /** The value `a - b` (and `a -= b`) produces: both fields subtracted,
      then one second borrowed when the microseconds go negative. */
  function Minus(a: Timeval, b: Timeval): (r: Timeval)
    ensures ToUsec(r) == ToUsec(a) - ToUsec(b)
    ensures Normalised(a) && Normalised(b) ==> Normalised(r)
  {
    var s := a.sec - b.sec;
    var u := a.usec - b.usec;
    if u < 0 then Timeval(s - 1, u + USEC_PER_SEC) else Timeval(s, u)
  }

  /** A `struct timeval` variable that `+=` and `-=` update in place. */
  class TimevalVar {
    var tv: Timeval

    constructor (t: Timeval)
      ensures tv == t
    {
      tv := t;
    }

    /** `operator+=`. */
    method AddAssign(b: Timeval)
      modifies this
      ensures tv == Plus(old(tv), b)
    {
      tv := Timeval(tv.sec + b.sec, tv.usec + b.usec);
      if tv.usec >= USEC_PER_SEC {
        tv := tv.(sec := tv.sec + 1);
        tv := tv.(usec := tv.usec - USEC_PER_SEC);
      }
    }

    /** `operator-=`. */
    method SubAssign(b: Timeval)
      modifies this
      ensures tv == Minus(old(tv), b)
    {
      tv := Timeval(tv.sec - b.sec, tv.usec - b.usec);
      if tv.usec < 0 {
        tv := tv.(sec := tv.sec - 1);
        tv := tv.(usec := tv.usec + USEC_PER_SEC);
      }
    }
  }

  /** `operator+`: `a += b` on a copy of `a`; the caller's `a` is left
      alone. */
  method Add(a: Timeval, b: Timeval) returns (r: Timeval)
    ensures r == Plus(a, b)
    ensures ToUsec(r) == ToUsec(a) + ToUsec(b)
  {
    var copy := new TimevalVar(a);
    copy.AddAssign(b);
    r := copy.tv;
  }

  /** `operator-`: `a -= b` on a copy of `a`. */
  method Sub(a: Timeval, b: Timeval) returns (r: Timeval)
    ensures r == Minus(a, b)
    ensures ToUsec(r) == ToUsec(a) - ToUsec(b)
  {
    var copy := new TimevalVar(a);
    copy.SubAssign(b);
    r := copy.tv;
  }

  /** The `timeradd` macro, writing into `result` field by field. */
  method TimerAdd(a: Timeval, b: Timeval) returns (result: Timeval)
    ensures result == Plus(a, b)
    ensures ToUsec(result) == ToUsec(a) + ToUsec(b)
  {
    result := Timeval(a.sec + b.sec, a.usec + b.usec);
    if result.usec >= USEC_PER_SEC {
      result := result.(sec := result.sec + 1);
      result := result.(usec := result.usec - USEC_PER_SEC);
    }
  }

  /** The `timersub` macro. */
  method TimerSub(a: Timeval, b: Timeval) returns (result: Timeval)
    ensures result == Minus(a, b)
    ensures ToUsec(result) == ToUsec(a) - ToUsec(b)
  {
    result := Timeval(a.sec - b.sec, a.usec - b.usec);
    if result.usec < 0 {
      result := result.(sec := result.sec - 1);
      result := result.(usec := result.usec + USEC_PER_SEC);
    }
  }

  /** `==` is equality of the pair, and `!=` its exact negation. */
  lemma {:induction false} EqualityIsPairEquality(a: Timeval, b: Timeval)
    ensures Eq(a, b) <==> a == b
    ensures Ne(a, b) <==> !Eq(a, b)
  {
  }

  /** The orderings are lexicographic on `(sec, usec)`: they are each
      other's mirror images and complements, and `<` is a strict total
      order. */
  lemma {:induction false} OrderIsLexicographic(a: Timeval, b: Timeval, c: Timeval)
    ensures Gt(a, b) <==> Lt(b, a)
    ensures Ge(a, b) <==> Le(b, a)
    ensures Le(a, b) <==> !Gt(a, b)
    ensures Ge(a, b) <==> !Lt(a, b)
    ensures Le(a, b) <==> (Lt(a, b) || Eq(a, b))
    ensures !Lt(a, a)
    ensures Lt(a, b) && Lt(b, c) ==> Lt(a, c)
    ensures Lt(a, b) || Eq(a, b) || Lt(b, a)
  {
  }

  /** On normalised timevals, `<` orders the instants denoted. */
  lemma {:induction false} OrderMatchesInstants(a: Timeval, b: Timeval)
    requires Normalised(a) && Normalised(b)
    ensures Lt(a, b) <==> ToUsec(a) < ToUsec(b)
    ensures Eq(a, b) <==> ToUsec(a) == ToUsec(b)
  {
    if a.sec < b.sec {
      assert ToUsec(a) < (a.sec + 1) * USEC_PER_SEC <= b.sec * USEC_PER_SEC <= ToUsec(b);
    } else if a.sec > b.sec {
      assert ToUsec(b) < (b.sec + 1) * USEC_PER_SEC <= a.sec * USEC_PER_SEC <= ToUsec(a);
    }
  }

  /** `timercmp` with `<`, `<=`, `>`, `>=`, `==`, `!=` agrees with the
      corresponding operator. */
  lemma {:induction false} TimerCmpAgrees(a: Timeval, b: Timeval)
    ensures TimerCmp(a, b, LT) <==> Lt(a, b)
    ensures TimerCmp(a, b, LE) <==> Le(a, b)
    ensures TimerCmp(a, b, GT) <==> Gt(a, b)
    ensures TimerCmp(a, b, GE) <==> Ge(a, b)
    ensures TimerCmp(a, b, EQ) <==> Eq(a, b)
    ensures TimerCmp(a, b, NE) <==> Ne(a, b)
  {
  }

  /** Subtracting what was added gives back the original normalised
      timeval. */
  lemma {:induction false} MinusUndoesPlus(a: Timeval, b: Timeval)
    requires Normalised(a) && Normalised(b)
    ensures Minus(Plus(a, b), b) == a
  {
    var r := Minus(Plus(a, b), b);
    assert ToUsec(r) == ToUsec(a);
    OrderMatchesInstants(r, a);
  }
}
