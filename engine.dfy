/**
 * The alignment engine of the Absolute Alignment Algorithm: the convergence
 * loop (optimize_alignment) and the action guard (enforce_non_harmonic_unity)
 * over an ordered list of entities whose states are updated in place.
 */
module AlignmentEngine {
  import opened AlignmentHarm

  /** The entity after one adjust_towards_equilibrium call: same id, new state. */
  function Adjusted(dyn: Dynamics, e: Entity): (a: Entity) {
    Entity(e.id, dyn.adjust(e))
  }

  /** One pass of the convergence loop: every entity adjusted once, positions kept. */
  function AdjustAll(dyn: Dynamics, es: seq<Entity>): (r: seq<Entity>)
    ensures |r| == |es|
  {
    if es == [] then []
    else AdjustAll(dyn, es[..|es| - 1]) + [Adjusted(dyn, es[|es| - 1])]
  }

  /** A pass adjusts the entity at each position exactly once and keeps its id. */
  lemma {:induction false} AdjustAllAt(dyn: Dynamics, es: seq<Entity>, i: nat)
    requires i < |es|
    ensures AdjustAll(dyn, es)[i].id == es[i].id
    ensures AdjustAll(dyn, es)[i].state == dyn.adjust(es[i])
  {
    if i < |es| - 1 {
      AdjustAllAt(dyn, es[..|es| - 1], i);
    }
  }

  /** The entity list after k passes. */
  function Iterate(dyn: Dynamics, es: seq<Entity>, k: nat): (r: seq<Entity>)
    ensures |r| == |es|
  {
    if k == 0 then es else AdjustAll(dyn, Iterate(dyn, es, k - 1))
  }

  /** Passes never change the membership or the order of the list: ids stay in place. */
  lemma {:induction false} IterateKeepsIds(dyn: Dynamics, es: seq<Entity>, k: nat, i: nat)
    requires i < |es|
    ensures Iterate(dyn, es, k)[i].id == es[i].id
  {
    if k > 0 {
      IterateKeepsIds(dyn, es, k - 1, i);
      AdjustAllAt(dyn, Iterate(dyn, es, k - 1), i);
    }
  }

  /** The positions below n, in list order and each once, of the entities with harm above zero. */
  function HarmfulPositions(dyn: Dynamics, es: seq<Entity>, n: nat): (ps: seq<nat>)
    requires n <= |es|
    ensures forall k :: 0 <= k < |ps| ==> ps[k] < n && ComputeHarm(dyn, es[ps[k]]) > 0.0
    ensures forall k, l :: 0 <= k < l < |ps| ==> ps[k] < ps[l]
  {
    if n == 0 then []
    else if ComputeHarm(dyn, es[n - 1]) > 0.0 then HarmfulPositions(dyn, es, n - 1) + [n - 1]
    else HarmfulPositions(dyn, es, n - 1)
  }

  /** Every entity below n whose harm is above zero has its position listed. */
  lemma {:induction false} HarmfulPositionsComplete(dyn: Dynamics, es: seq<Entity>, n: nat, i: nat)
    requires i < n <= |es|
    requires ComputeHarm(dyn, es[i]) > 0.0
    ensures i in HarmfulPositions(dyn, es, n)
  {
    if i < n - 1 {
      HarmfulPositionsComplete(dyn, es, n - 1, i);
    }
  }

  /** The ids of the entities at the given positions. */
  function IdsAt(es: seq<Entity>, ps: seq<nat>): (ids: seq<int>)
    requires forall k :: 0 <= k < |ps| ==> ps[k] < |es|
  {
    seq(|ps|, k requires 0 <= k < |ps| => es[ps[k]].id)
  }

  /** The guard blocks nothing exactly when the potential is zero. */
  lemma NoPreventionIffAligned(dyn: Dynamics, es: seq<Entity>)
    ensures HarmfulPositions(dyn, es, |es|) == [] <==> ComputeAlignmentPotential(dyn, es) == 0.0
  {
    PotentialZeroIffAligned(dyn, es);
    var ps := HarmfulPositions(dyn, es, |es|);
    if ps != [] {
      assert ComputeHarm(dyn, es[ps[0]]) > 0.0;
    } else if !Aligned(dyn, es) {
      var i :| 0 <= i < |es| && ComputeHarm(dyn, es[i]) != 0.0;
      HarmfulPositionsComplete(dyn, es, |es|, i);
    }
  }

  /** The result of the fuel-bounded convergence loop. */
  datatype Outcome = Converged(passes: nat) | OutOfFuel

  /** The engine: the entity list and the entities' hooks. */
  class AbsoluteAlignmentAlgorithm {
    var entities: seq<Entity>
    const dyn: Dynamics

    constructor (entities: seq<Entity>, dyn: Dynamics)
      ensures this.entities == entities && this.dyn == dyn
    {
      this.entities := entities;
      this.dyn := dyn;
    }

    /** The inner for loop of optimize_alignment: adjust each entity in list order. */
    method AdjustPass()
      modifies this`entities
      ensures entities == AdjustAll(dyn, old(entities))
    {
      var i := 0;
      while i < |entities|
        invariant 0 <= i <= |entities| == |old(entities)|
        invariant forall k :: 0 <= k < i ==> entities[k] == Adjusted(dyn, old(entities)[k])
        invariant forall k :: i <= k < |entities| ==> entities[k] == old(entities)[k]
      {
        entities := entities[i := Adjusted(dyn, entities[i])];
        i := i + 1;
      }
      forall k | 0 <= k < |entities|
        ensures entities[k] == AdjustAll(dyn, old(entities))[k]
      {
        AdjustAllAt(dyn, old(entities), k);
      }
    }

    /**
     * optimize_alignment with its unbounded loop cut off after fuel passes.
     * Each pass adjusts every entity, then the potential of the adjusted
     * list is tested; the first pass that brings it to zero ends the loop.
     */
    method OptimizeAlignment(fuel: nat) returns (outcome: Outcome)
      modifies this`entities
      ensures outcome.Converged? ==>
        && 1 <= outcome.passes <= fuel
        && entities == Iterate(dyn, old(entities), outcome.passes)
        && ComputeAlignmentPotential(dyn, entities) == 0.0
        && Aligned(dyn, entities)
        && forall j :: 1 <= j < outcome.passes ==>
             ComputeAlignmentPotential(dyn, Iterate(dyn, old(entities), j)) != 0.0
      ensures outcome.OutOfFuel? ==>
        && entities == Iterate(dyn, old(entities), fuel)
        && forall j :: 1 <= j <= fuel ==>
             ComputeAlignmentPotential(dyn, Iterate(dyn, old(entities), j)) != 0.0
      ensures old(entities) == [] && fuel >= 1 ==> outcome == Converged(1)
    {
      ghost var start := entities;
      var k := 0;
      while k < fuel
        invariant 0 <= k <= fuel
        invariant entities == Iterate(dyn, start, k)
        invariant forall j :: 1 <= j <= k ==>
          ComputeAlignmentPotential(dyn, Iterate(dyn, start, j)) != 0.0
      {
        AdjustPass();
        assert entities == Iterate(dyn, start, k + 1);
        k := k + 1;
        var potential := ComputeAlignmentPotential(dyn, entities);
        if potential == 0.0 {
          PotentialZeroIffAligned(dyn, entities);
          return Converged(k);
        }
      }
      return OutOfFuel;
    }

    /**
     * enforce_non_harmonic_unity: the ordered trace of the ids passed to
     * prevent_action, one call per entity whose harm is above zero.
     */
    method EnforceNonHarmonicUnity() returns (prevented: seq<int>)
      ensures prevented == IdsAt(entities, HarmfulPositions(dyn, entities, |entities|))
    {
      var es := entities;
      prevented := [];
      ghost var ps: seq<nat> := [];
      var i := 0;
      while i < |es|
        invariant 0 <= i <= |es|
        invariant ps == HarmfulPositions(dyn, es, i)
        invariant prevented == IdsAt(es, ps)
      {
        if ComputeHarm(dyn, es[i]) > 0.0 {
          prevented := prevented + [es[i].id];
          ps := ps + [i];
        }
        i := i + 1;
      }
    }
  }
}
