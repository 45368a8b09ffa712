/**
 Shared vocabulary of the propagation model: optional values, 2D and 3D
 vectors over the reals, the arithmetic of C# integers, and the numeric
 library calls (square root, logarithm, power, exponential, line fit) that
 the model treats as uninterpreted functions supplied by the caller.
 */
module Common {

  datatype Option<+T> = None | Some(value: T)

  /** Unity's Vector3, with exact real components. */
  datatype Vec3 = Vec3(x: real, y: real, z: real)

  /** Unity's Vector2, with exact real components. */
  datatype Vec2 = Vec2(x: real, y: real)

  function Add3(a: Vec3, b: Vec3): Vec3 { Vec3(a.x + b.x, a.y + b.y, a.z + b.z) }
  function Sub3(a: Vec3, b: Vec3): Vec3 { Vec3(a.x - b.x, a.y - b.y, a.z - b.z) }
  function Scale3(a: Vec3, k: real): Vec3 { Vec3(a.x * k, a.y * k, a.z * k) }
  function Dot3(a: Vec3, b: Vec3): real { a.x * b.x + a.y * b.y + a.z * b.z }
  function Cross3(a: Vec3, b: Vec3): Vec3
  {
    Vec3(a.y * b.z - a.z * b.y, a.z * b.x - a.x * b.z, a.x * b.y - a.y * b.x)
  }

  const Up: Vec3 := Vec3(0.0, 1.0, 0.0)
  const Right3: Vec3 := Vec3(1.0, 0.0, 0.0)
  const Zero3: Vec3 := Vec3(0.0, 0.0, 0.0)

  /** The point with its vertical (y) component dropped, as the attenuation model flattens paths. */
  function Flat(a: Vec3): Vec3 { Vec3(a.x, 0.0, a.z) }

  function Add2(a: Vec2, b: Vec2): Vec2 { Vec2(a.x + b.x, a.y + b.y) }
  function Sub2(a: Vec2, b: Vec2): Vec2 { Vec2(a.x - b.x, a.y - b.y) }
  function Dot2(a: Vec2, b: Vec2): real { a.x * b.x + a.y * b.y }
  function Cross2(a: Vec2, b: Vec2): real { a.x * b.y - a.y * b.x }

  /** Unity's `==` on vectors: squared distance below 1e-10. */
  predicate ApproxEqual3(a: Vec3, b: Vec3)
  {
    Dot3(Sub3(a, b), Sub3(a, b)) < 0.0000000001
  }

  /**
   The numeric library calls of the source (Mathf.Sqrt, Mathf.Log10,
   Mathf.Pow, Mathf.Exp, Vector2.Angle and MathNet's Fit.Line), left
   uninterpreted: the model is correct for every choice of them, and the
   lemmas that need a property of one (a square root is never negative, an
   angle lies in [0, 180]) say so in their `requires`.
   */
  datatype Maths = Maths(
    sqrt: real -> real,
    log10: real -> real,
    pow: (real, real) -> real,
    exp: real -> real,
    /** Fit.Line(x, y): the intercept and slope of the least-squares line. */
    fitLine: (seq<real>, seq<real>) -> (real, real),
    /** Vector2.Angle(from, to) in degrees. */
    angle2: (Vec2, Vec2) -> real)

  /** Vector3.Distance. */
  function Distance3(m: Maths, a: Vec3, b: Vec3): real
  {
    m.sqrt(Dot3(Sub3(a, b), Sub3(a, b)))
  }

  /** Vector2.Distance. */
  function Distance2(m: Maths, a: Vec2, b: Vec2): real
  {
    m.sqrt(Dot2(Sub2(a, b), Sub2(a, b)))
  }

  /** Vector3.normalized: the zero vector when the magnitude is at most 1e-5. */
  function Normalized3(m: Maths, v: Vec3): Vec3
  {
    var len := m.sqrt(Dot3(v, v));
    if len > 0.00001 then Scale3(v, 1.0 / len) else Zero3
  }

  /** A square root that is never negative, as Mathf.Sqrt is on its domain. */
  ghost predicate SqrtNonNegative(m: Maths)
  {
    forall x :: m.sqrt(x) >= 0.0
  }

  function Abs(a: int): nat { if a >= 0 then a else -a }

  /** Mathf.Abs. */
  function AbsReal(x: real): real { if x >= 0.0 then x else -x }

  /** Mathf.Max: the first argument when it is strictly larger, else the second. */
  function MaxR(a: real, b: real): (r: real)
    ensures r >= a && r >= b && (r == a || r == b)
  {
    if a > b then a else b
  }

  /** Mathf.Min: the first argument when it is strictly smaller, else the second. */
  function MinR(a: real, b: real): (r: real)
    ensures r <= a && r <= b && (r == a || r == b)
  {
    if a < b then a else b
  }

  /**
   Float division. A zero divisor gives an infinity or NaN in the source;
   the model has no such values and yields 0 in their place.
   */
  function Div(a: real, b: real): real
  {
    if b == 0.0 then 0.0 else a / b
  }

  /** Mathf.PI as a single-precision constant. */
  const Pi: real := 3.14159274

  /**
   C#'s `/` on int: the quotient truncated toward zero (Dafny's own `/` is
   Euclidean). Integers are unbounded: `int.MinValue / -1`, which throws in
   C#, is not modelled.
   */
  function DivTrunc(a: int, b: int): (q: int)
    requires b != 0
    ensures q == 0 || (q > 0 <==> (a > 0) == (b > 0))
  {
    var q0 := Abs(a) / Abs(b);
    NatDivNonNegative(Abs(a), Abs(b));
    if (a >= 0) == (b >= 0) then q0 else -q0
  }

  lemma NatDivNonNegative(n: nat, d: nat)
    requires d > 0
    ensures n / d >= 0
  {
  }

  /** The truncated quotient's magnitude is the largest whose multiple of |b| stays within |a|. */
  lemma DivTruncBrackets(a: int, b: int)
    requires b != 0
    ensures Abs(DivTrunc(a, b)) * Abs(b) <= Abs(a) < (Abs(DivTrunc(a, b)) + 1) * Abs(b)
  {
    var n, d := Abs(a), Abs(b);
    assert Abs(DivTrunc(a, b)) == n / d;
    NatDivision(n, d);
  }

  /** Euclidean division of naturals brackets the dividend. */
  lemma NatDivision(n: nat, d: nat)
    requires d > 0
    ensures (n / d) * d <= n < (n / d + 1) * d
  {
    var q, r := n / d, n % d;
    assert n == q * d + r && 0 <= r < d;
    assert (q + 1) * d == q * d + d;
  }

  /**
   C#'s `(int)` cast of a float: truncation toward zero. Integers are
   unbounded, so a value beyond the 32-bit range is not clamped or wrapped.
   */
  function TruncToInt(x: real): (n: int)
    ensures x >= 0.0 ==> n as real <= x < n as real + 1.0
    ensures x < 0.0 ==> n as real - 1.0 < x <= n as real
  {
    if x >= 0.0 then x.Floor else -((-x).Floor)
  }

  /** The first index of `x` in `s`, or |s| when absent. */
  function IndexOf<T(==)>(s: seq<T>, x: T): (k: nat)
    ensures k <= |s|
    ensures k < |s| ==> s[k] == x
    ensures forall j :: 0 <= j < k ==> s[j] != x
  {
    if s == [] then 0 else if s[0] == x then 0 else 1 + IndexOf(s[1..], x)
  }

  /** List<T>.Remove: `s` without the first occurrence of `x` (unchanged when absent). */
  function RemoveFirst<T(==)>(s: seq<T>, x: T): (r: seq<T>)
    ensures x in s ==> |r| == |s| - 1 && multiset(r) + multiset{x} == multiset(s)
    ensures x in s ==> var k := IndexOf(s, x); r[..k] == s[..k] && r[k..] == s[k + 1..]
    ensures x !in s ==> r == s
  {
    var k := IndexOf(s, x);
    if k == |s| then s
    else
      assert s == s[..k] + [s[k]] + s[k + 1..];
      s[..k] + s[k + 1..]
  }

  lemma RemoveFirstAppendFresh<T>(s: seq<T>, x: T)
    requires x !in s
    ensures RemoveFirst(s + [x], x) == s
  {
    var k := IndexOf(s + [x], x);
    assert (s + [x])[|s|] == x;
    assert k == |s|;
    assert (s + [x])[..k] == s;
  }

  /** Sequence concatenation regroups. */
  lemma AppendAssoc<T>(a: seq<T>, b: seq<T>, c: seq<T>)
    ensures (a + b) + c == a + (b + c)
  {
  }

  /** A non-empty set has a member to pick. */
  lemma NonEmptyHasMember(s: set<int>)
    requires s != {}
    ensures exists x :: x in s
  {
    if forall x :: x !in s {
      assert false;
    }
  }
}
