/** Small shared vocabulary: an option type, JavaScript numbers with NaN, powers of two. */
module Common {

  datatype Option<T> = None | Some(value: T)

  /** A JavaScript number, kept to the finite reals plus NaN. Every ordered
      comparison with NaN is false, and arithmetic on NaN gives NaN. */
  datatype Num = Fin(v: real) | NaN {
    predicate IsZero() { Fin? && v == 0.0 }
    predicate IsNeg() { Fin? && v < 0.0 }
    predicate IsPos() { Fin? && v > 0.0 }
  }

  /** `a + b` on JavaScript numbers. */
  function NumAdd(a: Num, b: Num): (r: Num)
    ensures r.NaN? <==> a.NaN? || b.NaN?
  {
    if a.Fin? && b.Fin? then Fin(a.v + b.v) else NaN
  }

  /** `a / d` for a positive divisor. */
  function NumDiv(a: Num, d: real): (r: Num)
    requires d > 0.0
    ensures r.NaN? <==> a.NaN?
  {
    if a.Fin? then Fin(a.v / d) else NaN
  }

  /** 2^n. */
  function Pow2(n: nat): (r: nat)
    ensures r >= 1
  {
    if n == 0 then 1 else 2 * Pow2(n - 1)
  }

  /** n is a power of two. */
  ghost predicate IsPow2(n: nat)
  {
    exists k: nat :: Pow2(k) == n
  }

  /** Moving the head of a sequence to the end of the one before it. */
  lemma AppendShift<T>(a: seq<T>, x: T, t: seq<T>)
    ensures a + ([x] + t) == (a + [x]) + t
  {
  }

  lemma AppendAssoc<T>(a: seq<T>, b: seq<T>, c: seq<T>)
    ensures a + (b + c) == (a + b) + c && |a + b| == |a| + |b|
  {
  }

  /** JavaScript's `\s` character class. */
  predicate IsSpace(c: char)
  {
    c == ' ' || c == '\t' || c == '\n' || c == '\r' || c == '\U{B}' || c == '\U{C}'
    || c == '\U{A0}' || c == '\U{1680}' || ('\U{2000}' <= c <= '\U{200A}')
    || c == '\U{2028}' || c == '\U{2029}' || c == '\U{202F}' || c == '\U{205F}'
    || c == '\U{3000}' || c == '\U{FEFF}'
  }

  /** `/^\s*$/` matches s. */
  predicate IsBlank(s: string)
  {
    forall i :: 0 <= i < |s| ==> IsSpace(s[i])
  }

  /** What a range function of the math library reports about a box: the
      function's sign there. The definite answers (`result >= 0` in the
      renderer) are the three signs and OTHER, which needs no subdivision and
      is filled by no fill mode; BOTH, HASGAP, HASNAN and EQNAN are the
      ambiguous ones. */
  datatype Category = Positive | Negative | EqZero | Both | HasGap | HasNaN | EqNaN | Other
  {
    /** The library code is >= 0. */
    predicate Definite() { Positive? || Negative? || EqZero? || Other? }

    /** The bit a definite answer selects in a fill mask (its code): OTHER's
        bit lies above the three a fill mask can hold. */
    function Bit(): nat
      requires Definite()
    {
      match this
      case Positive => 0
      case Negative => 1
      case EqZero => 2
      case Other => 3
    }
  }

  /** Which signs of a formula's value are filled. */
  datatype FillMode = FillMode(positive: bool, negative: bool, zero: bool)
  {
    /** Some sign is filled. */
    predicate HasFill() { positive || negative || zero }

    /** The flag that a definite category asks for; OTHER asks for none. */
    predicate Selects(c: Category)
      requires c.Definite()
    {
      match c
      case Positive => positive
      case Negative => negative
      case EqZero => zero
      case Other => false
    }
  }
}
