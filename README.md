# Absolute Alignment Algorithm — a verified model of its engine

The Absolute Alignment Algorithm keeps an ordered list of entities. Each
entity has an id and a scalar state. Its engine has four parts:

- the **harm** of an entity: the absolute gap between its state derivative
  and its equilibrium field;
- the **alignment potential**: minus the sum of the harms over the list;
- the **convergence loop** (`optimize_alignment`): repeated passes that
  adjust every entity towards equilibrium, in list order, and stop once the
  potential of the adjusted list is exactly zero;
- the **action guard** (`enforce_non_harmonic_unity`): it calls
  `prevent_action` on every entity whose harm is above zero.

The source leaves the four per-entity hooks (`state_derivative`,
`equilibrium_field`, `adjust_towards_equilibrium`, `prevent_action`) as
empty stubs. The model therefore takes them as parameters:

- `Dynamics.deriv` and `Dynamics.eq` stand for the derivative and the
  equilibrium field. Both are arbitrary functions from an entity to a real.
- `Dynamics.adjust` gives the state an entity holds after one
  `adjust_towards_equilibrium` call. Its id is kept.
- `prevent_action` is recorded: the guard returns the ordered trace of the
  ids it was called on.

Files:

- `harm.dfy` (module `AlignmentHarm`): entities, the hooks, harm and the
  alignment potential, with their lemmas.
- `engine.dfy` (module `AlignmentEngine`): the specification of one pass and
  of k passes, the guard's selection, and the class
  `AbsoluteAlignmentAlgorithm`. The class holds the entity list as a field
  that its methods update in place.

The loop in the source is `while True` and has no bound, so only partial
correctness can be stated. `OptimizeAlignment(fuel)` runs at most `fuel`
passes. It returns `Converged(passes)` when a pass brought the potential to
zero, and `OutOfFuel` otherwise. `OutOfFuel` is the model's own outcome and
says only that the source would still be looping. It never claims
convergence. Like the source, the loop always runs one pass before it tests
the potential, so an empty list converges after exactly one pass.

The model follows the code, not a hardened redesign of it. A production
engine would likely compare against a tolerance, cap the number of
iterations, take a harm threshold, report statuses or errors, and fix a
step policy. The code does none of these. It compares with exact `== 0`
and `> 0`, loops without bound, and has empty hooks. The fuel bound is the
model's only addition. It exists only so that the loop can be written as a
terminating method.

## Model

| member | source | states |
|---|---|---|
| `AlignmentHarm.ComputeHarm` | absolute_alignment_algorithm.py:82-85 | The harm is never negative. It equals one of derivative − equilibrium or equilibrium − derivative, which together with non-negativity makes it the absolute value of the gap. It is zero exactly when the derivative equals the equilibrium field. As a function it cannot change any entity or the list. |
| `AlignmentHarm.TotalHarm` | absolute_alignment_algorithm.py:88 | The left-to-right sum of the harms over the list is never negative. |
| `AlignmentHarm.ComputeAlignmentPotential` | absolute_alignment_algorithm.py:87-89 | The potential is never positive. It is 0 for an empty list. |
| `AlignmentHarm.HarmBoundedByPotential` | absolute_alignment_algorithm.py:87-89 | Every entity's harm is at most minus the potential. |
| `AlignmentHarm.PotentialZeroIffAligned` | absolute_alignment_algorithm.py:82-89 | The potential is 0 if and only if every entity in the list has harm 0. |
| `AlignmentHarm.PotentialAppend` | absolute_alignment_algorithm.py:87-89 | The potential of a concatenated list is the sum of the potentials of its parts. |
| `AlignmentHarm.PotentialOrderIndependent` | absolute_alignment_algorithm.py:87-89 | Over exact reals, two lists holding the same entities, in any order, have the same potential. So, over exact reals, the accumulation order of the sum does not matter; with floating point it would change the rounding. |
| `AlignmentEngine.AdjustAll` | absolute_alignment_algorithm.py:93-94 | One pass keeps the length of the list. |
| `AlignmentEngine.AdjustAllAt` | absolute_alignment_algorithm.py:93-94 | After one pass, the entity at each position has the same id and holds the state `adjust` gives for the entity that was there before the pass. So each entity is adjusted exactly once. |
| `AlignmentEngine.Iterate` | absolute_alignment_algorithm.py:92-94 | Any number of passes keeps the length of the list. |
| `AlignmentEngine.IterateKeepsIds` | absolute_alignment_algorithm.py:92-94 | After any number of passes, every position holds the same id as before. Membership and order of the list never change. |
| `AlignmentEngine.HarmfulPositions` | absolute_alignment_algorithm.py:100-101 | Every position it selects is in range and holds an entity whose harm is above zero. The positions are strictly increasing: they follow list order and none repeats. |
| `AlignmentEngine.HarmfulPositionsComplete` | absolute_alignment_algorithm.py:100-101 | Every entity whose harm is above zero has its position selected. |
| `AlignmentEngine.NoPreventionIffAligned` | absolute_alignment_algorithm.py:95-102 | The guard selects no entity if and only if the potential is 0. So after the loop converges, the guard prevents nothing. |
| `AlignmentEngine.AbsoluteAlignmentAlgorithm.constructor` | absolute_alignment_algorithm.py:79-80 | The engine holds exactly the given entity list and hooks. |
| `AlignmentEngine.AbsoluteAlignmentAlgorithm.AdjustPass` | absolute_alignment_algorithm.py:93-94 | The inner loop changes only the entity list. The new list is exactly one pass over the old list. |
| `AlignmentEngine.AbsoluteAlignmentAlgorithm.OptimizeAlignment` | absolute_alignment_algorithm.py:91-97 | `Converged(n)` means the following. The list is the old list after exactly n passes, with 1 ≤ n ≤ fuel. Its potential is 0 and every entity has harm 0. No earlier pass reached potential 0. `OutOfFuel` means the list is the old list after fuel passes and no pass reached potential 0. An empty list with fuel ≥ 1 gives `Converged(1)`. |
| `AlignmentEngine.AbsoluteAlignmentAlgorithm.EnforceNonHarmonicUnity` | absolute_alignment_algorithm.py:99-102 | The returned trace of `prevent_action` calls is the ids at the selected positions, in list order. Those are exactly the entities with harm above zero, each once. The method has no `modifies` clause, so it changes no entity state and leaves the list as it was. |

## Left out

- The bodies of `state_derivative`, `equilibrium_field`, `adjust_towards_equilibrium` and `prevent_action`: they are empty in the source, so they are parameters. No step policy is invented.
- Hooks that read or write other entities: each hook sees only its own entity, and `prevent_action` has no effect beyond the trace. As a result the order in which a pass adjusts entities cannot be observed in the model, although `AdjustPass` does adjust them in list order.
- Aliasing: the source keeps references to mutable entity objects, so one object listed twice would be adjusted twice per pass. The model keeps entity values in a sequence and updates them by position.
- Termination of `optimize_alignment`: the source loop has no bound. The model bounds it by `fuel` and reports `OutOfFuel` instead of claiming convergence.
- Floating point: states, harms and the potential are exact reals. NaN, infinities and rounding of the sum are not modelled.
- The runtime error that the source's `None`-returning stubs would raise when subtracted.
- The JavaScript, C++, Java and Rust copies of the engine: they have the same logic and are not modelled separately.
- The surrounding document (introduction, language list, translation snippet, licence and contribution text): it describes nothing computable.
