/**
 * The harm evaluator of the Absolute Alignment Algorithm: per-entity harm
 * (the absolute gap between an entity's state derivative and its
 * equilibrium field) and the alignment potential (minus the summed harm
 * over the entity list).
 *
 * The per-entity hooks of the source are empty stubs, so they are
 * parameters here, bundled in `Dynamics`.
 */
module AlignmentHarm {

  /** An entity: a stable identifier and a scalar state. */
  datatype Entity = Entity(id: int, state: real)

  /**
   * The entity's hooks, left uninterpreted:
   *   deriv  -- state_derivative
   *   eq     -- equilibrium_field
   *   adjust -- adjust_towards_equilibrium, given as the state the entity
   *             holds after the adjustment
   */
  datatype Dynamics = Dynamics(
    deriv: Entity -> real,
    eq: Entity -> real,
    adjust: Entity -> real)

  function Abs(x: real): (r: real) {
    if x < 0.0 then -x else x
  }

  /** compute_harm: the magnitude of the gap between derivative and equilibrium. */
  function ComputeHarm(dyn: Dynamics, e: Entity): (h: real)
    ensures h >= 0.0
    ensures h == dyn.deriv(e) - dyn.eq(e) || h == dyn.eq(e) - dyn.deriv(e)
    ensures h == 0.0 <==> dyn.deriv(e) == dyn.eq(e)
  {
    Abs(dyn.deriv(e) - dyn.eq(e))
  }

  /** Every entity of the list has zero harm. */
  ghost predicate Aligned(dyn: Dynamics, es: seq<Entity>) {
    forall i :: 0 <= i < |es| ==> ComputeHarm(dyn, es[i]) == 0.0
  }

  /** The harm of the list, accumulated left to right as the source's sum does. */
  function TotalHarm(dyn: Dynamics, es: seq<Entity>): (t: real)
    ensures t >= 0.0
  {
    if es == [] then 0.0
    else TotalHarm(dyn, es[..|es| - 1]) + ComputeHarm(dyn, es[|es| - 1])
  }

  /** compute_alignment_potential: the negated total harm. */
  function ComputeAlignmentPotential(dyn: Dynamics, es: seq<Entity>): (p: real)
    ensures p <= 0.0
    ensures es == [] ==> p == 0.0
  {
    -TotalHarm(dyn, es)
  }

  /** No single entity's harm exceeds the total: the potential bounds every harm. */
  lemma {:induction false} HarmBoundedByPotential(dyn: Dynamics, es: seq<Entity>, i: nat)
    requires i < |es|
    ensures ComputeHarm(dyn, es[i]) <= -ComputeAlignmentPotential(dyn, es)
  {
    if i < |es| - 1 {
      HarmBoundedByPotential(dyn, es[..|es| - 1], i);
    }
  }

  /** The potential is zero exactly when every entity's harm is zero. */
  lemma {:induction false} PotentialZeroIffAligned(dyn: Dynamics, es: seq<Entity>)
    ensures ComputeAlignmentPotential(dyn, es) == 0.0 <==> Aligned(dyn, es)
  {
    if es != [] {
      PotentialZeroIffAligned(dyn, es[..|es| - 1]);
      forall i | 0 <= i < |es|
        ensures ComputeHarm(dyn, es[i]) <= -ComputeAlignmentPotential(dyn, es)
      {
        HarmBoundedByPotential(dyn, es, i);
      }
    }
  }

  /** The potential of a concatenation is the sum of the potentials. */
  lemma {:induction false} PotentialAppend(dyn: Dynamics, a: seq<Entity>, b: seq<Entity>)
    ensures ComputeAlignmentPotential(dyn, a + b)
         == ComputeAlignmentPotential(dyn, a) + ComputeAlignmentPotential(dyn, b)
  {
    if b == [] {
      assert a + b == a;
    } else {
      var b' := b[..|b| - 1];
      PotentialAppend(dyn, a, b');
      assert (a + b)[..|a + b| - 1] == a + b';
      assert (a + b)[|a + b| - 1] == b[|b| - 1];
    }
  }

  /** The potential depends only on the multiset of entities, not their order. */
  lemma {:induction false} PotentialOrderIndependent(dyn: Dynamics, a: seq<Entity>, b: seq<Entity>)
    requires multiset(a) == multiset(b)
    ensures ComputeAlignmentPotential(dyn, a) == ComputeAlignmentPotential(dyn, b)
    decreases |a|
  {
    if a != [] {
      var x := a[|a| - 1];
      assert x in multiset(b);
      var j :| 0 <= j < |b| && b[j] == x;
      var a' := a[..|a| - 1];
      var b' := b[..j] + b[j + 1..];
      assert a == a' + [x];
      assert b == b[..j] + [x] + b[j + 1..];
      assert multiset(b) == multiset(b') + multiset{x};
      assert multiset(a) == multiset(a') + multiset{x};
      assert multiset(a') == multiset(a) - multiset{x};
      assert multiset(b') == multiset(b) - multiset{x};
      PotentialOrderIndependent(dyn, a', b');
      PotentialAppend(dyn, a', [x]);
      PotentialAppend(dyn, b[..j], [x]);
      PotentialAppend(dyn, b[..j] + [x], b[j + 1..]);
      PotentialAppend(dyn, b[..j], b[j + 1..]);
    }
  }
}
