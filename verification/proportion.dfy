/** The arithmetic of the calculator: the two proportion modes, the input
    guard that decides whether a calculation happens at all, the formula
    each mode applies, and the worked example each mode offers. */
module Proportion {
  import opened Wrappers

  /** The closed set of modes the mode toggle can select. */
  datatype Mode = Direct | Inverse

  /** Three known quantities, as read from (or written to) the input fields. */
  datatype Triple = Triple(a: real, b: real, c: real)

  /** The relation between the three known quantities and the unknown `x`.
      Direct: `a/b = c/x`, stated without division as `a·x = b·c`.
      Inverse: `a·b = c·x`. */
  predicate Proportional(mode: Mode, a: real, b: real, c: real, x: real)
  {
    match mode
    case Direct => a * x == b * c
    case Inverse => a * b == c * x
  }

  /** The quantity each formula divides by: `a` in direct mode, `c` in inverse mode. */
  function Divisor(mode: Mode, a: real, c: real): real
  {
    match mode
    case Direct => a
    case Inverse => c
  }

  /** The formula text stored with each calculation; it ends with the name
      of the quantity the mode divides by. */
  function FormulaText(mode: Mode): (f: string)
    ensures |f| > 0
    ensures f[|f| - 1] == (if mode == Direct then 'A' else 'C')
  {
    match mode
    case Direct => "X = (C × B) ÷ A"
    case Inverse => "X = (A × B) ÷ C"
  }

  /** The unknown quantity, computed by the formula of the mode:
      `(c·b)/a` in direct mode and `(a·b)/c` in inverse mode. */
  function Solve(mode: Mode, a: real, b: real, c: real): (x: real)
    requires Divisor(mode, a, c) != 0.0
    ensures Proportional(mode, a, b, c, x)
  {
    match mode
    case Direct => (c * b) / a
    case Inverse => (a * b) / c
  }

  /** The formula yields the only value that completes the proportion. */
  lemma SolveUnique(mode: Mode, a: real, b: real, c: real, x: real)
    requires Divisor(mode, a, c) != 0.0
    requires Proportional(mode, a, b, c, x)
    ensures x == Solve(mode, a, b, c)
  {
  }

  /** JavaScript truthiness of a parsed number: false for NaN (`None`) and for zero. */
  predicate Truthy(v: Option<real>)
  {
    v.Some? && v.value != 0.0
  }

  /** The validation gate `!a || !b || !c || a === 0`, negated: true when the
      calculation goes ahead. The trailing `a === 0` test adds nothing to
      `!a`, so the gate accepts exactly three present, non-zero numbers. */
  function Accepts(a: Option<real>, b: Option<real>, c: Option<real>): (ok: bool)
    ensures ok <==> (a.Some? && b.Some? && c.Some?
                     && a.value != 0.0 && b.value != 0.0 && c.value != 0.0)
  {
    !(!Truthy(a) || !Truthy(b) || !Truthy(c) || a == Some(0.0))
  }

  /** Once the gate has accepted the inputs, the formula of either mode
      divides by a non-zero quantity. */
  lemma AcceptedDivisorNonZero(mode: Mode, a: Option<real>, b: Option<real>, c: Option<real>)
    requires Accepts(a, b, c)
    ensures Divisor(mode, a.value, c.value) != 0.0
  {
  }

  /** The worked example each mode fills in: two workers build 10 m of wall,
      how much do five build (direct); four machines take 6 hours, how long
      do two take (inverse). */
  function Example(mode: Mode): (t: Triple)
    ensures Accepts(Some(t.a), Some(t.b), Some(t.c))
    ensures mode == Direct ==> Solve(mode, t.a, t.b, t.c) == 25.0
    ensures mode == Inverse ==> Solve(mode, t.a, t.b, t.c) == 12.0
  {
    match mode
    case Direct => Triple(2.0, 10.0, 5.0)
    case Inverse => Triple(4.0, 6.0, 2.0)
  }
}
