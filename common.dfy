/** Shared vocabulary of the arcade games: an Option type, the integer and real helpers
    that stand for JavaScript's Math.max, Math.min, Math.abs and the remainder operator,
    and the names of the keyboard keys the handlers compare event.key with. */
module Common {

  datatype Option<T> = None | Some(value: T)

  function Max(a: int, b: int): (r: int)
    ensures r >= a && r >= b && (r == a || r == b)
  {
    if a >= b then a else b
  }

  function Min(a: int, b: int): (r: int)
    ensures r <= a && r <= b && (r == a || r == b)
  {
    if a <= b then a else b
  }

  function Abs(a: int): (r: int)
    ensures r >= 0 && (r == a || r == -a)
  {
    if a < 0 then -a else a
  }

  function MaxR(a: real, b: real): (r: real)
    ensures r >= a && r >= b && (r == a || r == b)
  {
    if a >= b then a else b
  }

  function MinR(a: real, b: real): (r: real)
    ensures r <= a && r <= b && (r == a || r == b)
  {
    if a <= b then a else b
  }

  function AbsR(a: real): (r: real)
    ensures r >= 0.0 && (r == a || r == -a)
  {
    if a < 0.0 then -a else a
  }

  /** JavaScript's `a % m` for a non-negative dividend: what is left after taking away
      as many whole m as fit. */
  function RemNonNeg(a: real, m: real): (r: real)
    requires a >= 0.0 && m > 0.0
    ensures 0.0 <= r < m
    ensures a < m ==> r == a
  {
    var z := a / m;
    var k := z.Floor;
    assert k as real <= z < k as real + 1.0;
    assert z * m == a;
    assert m * (k as real) <= a by { MulMono(k as real, z, m); }
    assert a < m * (k as real) + m by { MulMonoStrict(z, k as real + 1.0, m); }
    assert k >= 0;
    assert a < m ==> k == 0 by {
      if a < m { assert z < 1.0 by { MulMonoStrict(a, m, 1.0 / m); } }
    }
    a - m * k as real
  }

  /** JavaScript's `a % m` on numbers: the remainder of truncating division, with the
      sign of the dividend. */
  function JsRem(a: real, m: real): (r: real)
    requires m > 0.0
    ensures a >= 0.0 ==> 0.0 <= r < m
    ensures a <= 0.0 ==> -m < r <= 0.0
    ensures 0.0 <= a < m ==> r == a
  {
    if a >= 0.0 then RemNonNeg(a, m) else -RemNonNeg(-a, m)
  }

  lemma MulMono(x: real, y: real, c: real)
    requires x <= y && c > 0.0
    ensures c * x <= y * c
  {
  }

  lemma MulMonoStrict(x: real, y: real, c: real)
    requires x < y && c > 0.0
    ensures x * c < c * y
  {
  }

  /** `xs.map(step).filter(keep)`, the move-then-cull every game applies to its lists:
      what is left is exactly the moved elements worth keeping, and when none is culled it
      is the moved list element for element. */
  function Advance<T>(xs: seq<T>, step: T -> T, keep: T -> bool): (r: seq<T>)
    ensures |r| <= |xs|
    ensures forall y :: y in r ==> keep(y) && exists x :: x in xs && y == step(x)
    ensures forall x :: x in xs && keep(step(x)) ==> step(x) in r
    ensures (forall x :: x in xs ==> keep(step(x))) ==>
              |r| == |xs| && forall k :: 0 <= k < |xs| ==> r[k] == step(xs[k])
  {
    if |xs| == 0 then []
    else
      var rest := Advance(xs[1..], step, keep);
      assert forall x :: x in xs[1..] ==> x in xs;
      (if keep(step(xs[0])) then [step(xs[0])] else []) + rest
  }

  /** The key names the handlers test `event.key` against. */
  const ArrowUp: string := "ArrowUp"
  const ArrowDown: string := "ArrowDown"
  const ArrowLeft: string := "ArrowLeft"
  const ArrowRight: string := "ArrowRight"
  const Space: string := " "
  const Enter: string := "Enter"
}
