/** Idealised trigonometry over `real`.

    JavaScript's `Math.sin`, `Math.cos` and `Math.PI` have no counterpart in Dafny, so the model
    takes them as a parameter: a value of type `Trig` bundles a sine, a cosine and a value of pi,
    and `Valid` lists the only facts about them that the proofs use. Every lemma that relies on
    one of those facts requires `Valid(t)`; `WitnessIsValid` shows that they are consistent. */
module Trigonometry {

  datatype Trig = Trig(pi: real, sin: real -> real, cos: real -> real)

  /** The facts the model relies on. */
  ghost predicate Valid(t: Trig) {
    && (forall a :: t.sin(a) * t.sin(a) + t.cos(a) * t.cos(a) == 1.0)
    && t.sin(0.0) == 0.0 && t.cos(0.0) == 1.0
    && t.sin(t.pi / 2.0) == 1.0 && t.cos(t.pi / 2.0) == 0.0
    && t.cos(t.pi) == -1.0 && t.sin(t.pi) == 0.0
  }

  /** Degrees to radians, as `deg * (Math.PI / 180)`. */
  function Radians(t: Trig, deg: real): real {
    deg * (t.pi / 180.0)
  }

  /** A square that is at most one bounds its root: |c| <= 1. */
  lemma UnitSquareBound(c: real)
    requires c * c <= 1.0
    ensures -1.0 <= c <= 1.0
  {
    assert (c - 1.0) * (c + 1.0) == c * c - 1.0;
  }

  lemma CosBounded(t: Trig, a: real)
    requires Valid(t)
    ensures -1.0 <= t.cos(a) <= 1.0
  {
    var s, c := t.sin(a), t.cos(a);
    assert s * s >= 0.0;
    UnitSquareBound(c);
  }

  /** A concrete Trig value: not the real sine, but it satisfies every fact in `Valid`. */
  function Witness(): Trig {
    Trig(2.0,
         a => if a == 1.0 then 1.0 else 0.0,
         a => if a == 1.0 then 0.0 else if a == 2.0 then -1.0 else 1.0)
  }

  lemma WitnessIsValid()
    ensures Valid(Witness())
  {
  }
}
