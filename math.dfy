/** The elementary functions the source takes from <cmath>, kept
    uninterpreted, and the product by which the exposure compensation scales
    the decoded pixels in place. They are passed around as one record, and
    `Lawful` states the only facts the proofs rely on. The product is a
    field so that the loop proofs carry it as one term; `Lawful` makes it
    the real product, as every other float product of the model is. */
module MathFacts {

  datatype Math = Math(
    sqrt: real -> real,
    pow: (real, real) -> real,
    cbrt: real -> real,
    atan2: (real, real) -> real,
    sin: real -> real,
    cos: real -> real,
    exp: real -> real,
    exp2: real -> real,
    fmul: (real, real) -> real,
    pi: real)

  /** The facts assumed of the library functions. */
  ghost predicate Lawful(m: Math)
  {
    && m.pi > 0.0
    && m.sqrt(0.0) == 0.0
    && (forall x :: x >= 0.0 ==> m.sqrt(x) >= 0.0)
    && (forall x :: x > 0.0 ==> m.sqrt(x) > 0.0)
    && (forall x :: 0.0 <= x < 1.0 ==> m.sqrt(x) < 1.0)
    && (forall x :: -1.0 <= m.sin(x) <= 1.0)
    && (forall x :: -1.0 <= m.cos(x) <= 1.0)
    && m.sin(0.0) == 0.0
    && (forall x :: m.sin(-x) == -m.sin(x))
    && (forall y, x :: -m.pi < m.atan2(y, x) <= m.pi)
    // The exposure product is `*`. It stays a field so that the exposure
    // loop and its stage lemmas, which do not assume `Lawful`, carry it as
    // one term instead of a nonlinear product.
    && (forall x, y :: m.fmul(x, y) == x * y)
  }

  /** The facts are consistent: one record satisfies all of them. */
  lemma LawfulIsSatisfiable()
    ensures Lawful(Math(x => x, (x, y) => 0.0, x => x, (y, x) => 0.0,
                        x => 0.0, x => 0.0, x => 1.0, x => 1.0, (x, y) => x * y, 3.0))
  {
  }

  /** Where `x / d` lies for a positive divisor `d`. */
  lemma QuotientBounds(x: real, d: real)
    requires d > 0.0
    ensures x <= 0.0 ==> x / d <= 0.0
    ensures x > 0.0 ==> x / d > 0.0
    ensures x >= d ==> x / d >= 1.0
    ensures 0.0 <= x <= d ==> 0.0 <= x / d <= 1.0
  {
  }
}
