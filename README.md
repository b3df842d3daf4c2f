# Popelell breathing matter/antimatter simulation in Dafny

This project models the numeric core of `popelell_simulation_2D_matter_antimatter.py`.
That script evolves two scalar fields on an N×N periodic grid:

- a matter field `phi_m`;
- an antimatter field `phi_am`.

A third grid, the Popelell (nonlinearity) field, couples the two fields.

Each animation frame does the following, in order:

1. It takes the periodic five-point Laplacian of both fields.
2. It computes the local breathing energy.
3. It moves the Popelell field one explicit Euler step towards that energy and clamps it at 0.01.
4. It advances both fields by a leapfrog step whose cubic terms have opposite signs. The step uses the clamped Popelell value.
5. It halves both new values wherever the pre-step fields overlap by more than 1 in magnitude.
6. It shifts the history buffers.

The initial state has:

- scaled noise in both fields and their histories;
- a constant Popelell field of 5.0;
- four ±10 blobs, added after the histories were copied.

Values are exact `real`s. The grids are `array2<real>`. The run constants `dx`, `dt`, `gravity_strength`, `learning_rate` and `decay_rate` are a `Params` value whose entries are all positive. `ScriptParams` holds the values the script uses, and `ScriptParamsValid` shows they meet that requirement.

The model has three modules:

- `Laplacian` (`laplacian.dfy`) is pure. It contains:
  - `np.roll` as explicit index wraparound;
  - the stencil;
  - lemmas about the stencil. One of them shows that the Laplacian sums to zero over the torus.
- `UpdateRule` (`update_rule.dfy`) is pure. It holds the per-cell arithmetic of `update`. Every numpy expression there is element-wise.
- `Simulation` (`simulation.dfy`) is imperative:
  - the class `Universe` holds the five global grids;
  - its constructor is the initialisation;
  - `Step` is `update`;
  - `Run` is the sequence of frames.

  Each whole-grid numpy expression is a method. The method fills a fresh array, or updates one in place, with an aggregate `forall` statement.

  Python rebinding of the globals is modelled by assigning the array fields:
  - `Popelell +=` changes the existing array;
  - `np.maximum` produces a new one;
  - the history fields take over the pre-step arrays;
  - the current fields take the newly computed arrays.

## Model

| member | source | states |
|---|---|---|
| Laplacian.RollReachesNeighbours | popelell_simulation_2D_matter_antimatter.py:42-43 | a roll by +1 reads the previous index and a roll by -1 the next index, both cyclically mod N |
| Laplacian.Rolled | popelell_simulation_2D_matter_antimatter.py:42-43 | `np.roll(phi, shift, axis)[i, j]`: rolling by +1 gives the ring neighbour before the cell along that axis, and rolling by -1 the neighbour after it, edges included |
| Laplacian.LaplacianAt | popelell_simulation_2D_matter_antimatter.py:41-44 | `laplacian(phi, dx)[i, j]`: the four rolled copies minus 4·phi[i, j], over dx²; its stencil form, its value on constant grids and its zero total are the lemmas below |
| Laplacian.LaplacianStencil | popelell_simulation_2D_matter_antimatter.py:41-44 | at every cell, edges and corners included, the Laplacian is (up + down + left + right - 4·centre) / dx², with the neighbours taken cyclically |
| Laplacian.LaplacianOfConstant | popelell_simulation_2D_matter_antimatter.py:41-44 | the Laplacian of a constant grid is zero at every cell |
| Laplacian.LaplacianSumsToZero | popelell_simulation_2D_matter_antimatter.py:41-44 | summed over the whole periodic grid, the Laplacian of any field is zero, because each roll only permutes the cells |
| UpdateRule.ScriptParamsValid | popelell_simulation_2D_matter_antimatter.py:8-16 | the script's constants (dx = L / N = 100 / 200, dt = 0.005, gravity 0.01, learning rate 5.0, decay rate 0.001) are all positive, as the model requires |
| UpdateRule.BreathingEnergy | popelell_simulation_2D_matter_antimatter.py:68 | the breathing energy is a sum of halved squares, so it is never negative |
| UpdateRule.RelaxationDirection | popelell_simulation_2D_matter_antimatter.py:71 | the Euler step raises P exactly when learning_rate·E > decay_rate·P, keeps it exactly when the two balance, and lowers it exactly when learning_rate·E < decay_rate·P |
| UpdateRule.Relaxed | popelell_simulation_2D_matter_antimatter.py:71 | the explicit Euler step P + dt·(learning_rate·E - decay_rate·P) of one Popelell cell; which way it moves is `RelaxationDirection` |
| UpdateRule.ClampToFloor | popelell_simulation_2D_matter_antimatter.py:72 | np.maximum(P, 0.01) is at least 0.01 and at least P, and it is one of the two |
| UpdateRule.MatterLeapfrog | popelell_simulation_2D_matter_antimatter.py:75-76 | the matter leapfrog value 2φ - φ_old + dt²·(lap - gravity·φ - P·φ³); its relation to the antimatter rule is `CubicTermsOpposed` and `MirroredFieldsShareCubicPull` |
| UpdateRule.AntimatterLeapfrog | popelell_simulation_2D_matter_antimatter.py:79-80 | the antimatter leapfrog value 2φ - φ_old + dt²·(lap - gravity·φ + P·φ³), the cubic term with the opposite sign |
| UpdateRule.Annihilates | popelell_simulation_2D_matter_antimatter.py:83-84 | a cell is in the annihilation zone exactly when the product of the two field magnitudes exceeds 1, so the zone is symmetric in matter and antimatter and needs both fields nonzero |
| UpdateRule.Damped | popelell_simulation_2D_matter_antimatter.py:85-86 | the damping never increases a value's magnitude, and it changes a nonzero value exactly in the annihilation zone |
| UpdateRule.CubicTermsOpposed | popelell_simulation_2D_matter_antimatter.py:75-80 | with the same amplitude, history, Laplacian and Popelell value, the matter update minus the antimatter update is -2·dt²·P·φ³ |
| UpdateRule.MirroredFieldsShareCubicPull | popelell_simulation_2D_matter_antimatter.py:75-80 | with sign-mirrored inputs (antimatter = -matter, history and Laplacian mirrored too), the two new values do not cancel: their sum is -2·dt²·P·φ³, because both cubic terms pull the same way |
| Simulation.IdenticalFieldsSplitByCube | popelell_simulation_2D_matter_antimatter.py:63-80 | when the matter and antimatter grids and their histories hold equal values, the pre-annihilation matter value at each cell is the antimatter value minus 2·dt²·P·φ³, with the Laplacians taken from the grids |
| Simulation.MatterSeed | popelell_simulation_2D_matter_antimatter.py:33-34 | the matter blobs add 0, 10 or 20 at a cell, and add something exactly at (N//4, N//4) and (3N//4, 3N//4) |
| Simulation.AntimatterSeed | popelell_simulation_2D_matter_antimatter.py:37-38 | the antimatter blobs add 0, -10 or -20 at a cell, and add something exactly at (N//4, 3N//4) and (3N//4, N//4) |
| Simulation.SeedsApart | popelell_simulation_2D_matter_antimatter.py:32-38 | from N = 2 on, no cell gets both a matter and an antimatter blob, and no field gets a doubled blob |
| Simulation.AddBlob | popelell_simulation_2D_matter_antimatter.py:33-38 | `a[r, c] += amount` changes that one cell by `amount` and leaves every other cell as it was |
| Simulation.ConstantGrid | popelell_simulation_2D_matter_antimatter.py:30 | np.ones((N, N)) * 5.0 gives a fresh N×N grid holding the constant everywhere |
| Simulation.ScaledCopy | popelell_simulation_2D_matter_antimatter.py:24-27 | the noise sample times 0.05 is a fresh grid, cell for cell |
| Simulation.Copy | popelell_simulation_2D_matter_antimatter.py:25-28 | np.copy gives a fresh grid equal cell for cell to its source |
| Simulation.LaplacianGrid | popelell_simulation_2D_matter_antimatter.py:64-65 | the Laplacian grid keeps the N×N shape and holds the periodic Laplacian at every cell |
| Simulation.EnergyGrid | popelell_simulation_2D_matter_antimatter.py:68 | the energy grid holds the breathing energy of the four input grids at every cell |
| Simulation.RelaxInPlace | popelell_simulation_2D_matter_antimatter.py:71 | `Popelell +=` replaces every cell by its Euler step and changes nothing else |
| Simulation.ClampedGrid | popelell_simulation_2D_matter_antimatter.py:72 | np.maximum gives a new grid, each cell the floored value of the input cell |
| Simulation.MatterLeapfrogGrid | popelell_simulation_2D_matter_antimatter.py:75-76 | phi_m_new holds the matter leapfrog value at every cell, with the cubic term subtracted |
| Simulation.AntimatterLeapfrogGrid | popelell_simulation_2D_matter_antimatter.py:79-80 | phi_am_new holds the antimatter leapfrog value at every cell, with the cubic term added |
| Simulation.Annihilate | popelell_simulation_2D_matter_antimatter.py:83-86 | both new grids are halved exactly at the cells where the pre-step product exceeds 1 in magnitude; every other cell keeps its value |
| Simulation.Universe.EnergyAt | popelell_simulation_2D_matter_antimatter.py:67-68 | the breathing energy of the current fields at a cell is never negative |
| Simulation.Universe.Init | popelell_simulation_2D_matter_antimatter.py:24-38 | Popelell is 5.0 everywhere; the histories hold 0.05·noise only; phi_m adds 10 at (N//4, N//4) and (3N//4, 3N//4); phi_am adds -10 at (N//4, 3N//4) and (3N//4, N//4); five distinct grids |
| Simulation.Universe.UpdatePopelell | popelell_simulation_2D_matter_antimatter.py:67-72 | every new Popelell cell is max(P + dt·(learning_rate·E - decay_rate·P), 0.01), with E the breathing energy of the current fields |
| Simulation.Universe.AdvanceFields | popelell_simulation_2D_matter_antimatter.py:74-91 | the new fields are the leapfrog values with the already-updated Popelell, damped where the pre-step fields annihilate; the histories become the pre-step fields |
| Simulation.Universe.Step | popelell_simulation_2D_matter_antimatter.py:60-91 | after a frame, each Popelell cell is the clamped Euler step and is ≥ 0.01. Outside the annihilation zone each new field value is exactly its leapfrog formula, evaluated with the post-clamp Popelell. Inside the zone it is exactly half of that. The histories equal the pre-step fields cell for cell |
| Simulation.Universe.Run | popelell_simulation_2D_matter_antimatter.py:101 | running any number of frames keeps the five grids well formed; after at least one frame, every Popelell cell is ≥ 0.01 |

Two facts about the script that are easy to misread:

- The histories `phi_m_old` and `phi_am_old` are copied before the blobs are added (lines 25, 28 and 33-38). They hold the noise only, not noise plus blobs.
- The cubic terms have opposite signs when both fields hold the SAME values (`CubicTermsOpposed`, `IdenticalFieldsSplitByCube`). With sign-mirrored inputs the cubic terms pull the same way (`MirroredFieldsShareCubicPull`).

## Left out

- Plotting and animation are not modelled: the figure, axes and titles (lines 47-57), the per-frame `set_data` calls (94-96), and `FuncAnimation` and `plt.show` (101-102). They do not affect the state.
- `np.random.randn` (lines 24 and 27) is not modelled. The two standard normal samples are inputs to `Universe.Init`, which multiplies them by 0.05 as the script does.
- The `linspace`/`meshgrid` coordinates `X, Y` (lines 19-21) are computed but never used.
- A grid size of N = 0 is not modelled. Every grid has N ≥ 1 (`IsGrid`). With N = 0 the script fails at line 10 (`dx = L / N`) with a ZeroDivisionError, before any grid exists.
- Floating point is not modelled: rounding, overflow, NaN, numerical blow-up, and stability or convergence. All values are exact reals.
- `dx**2` is computed as two divisions by `dx`. Over the reals this is the same value.
- The `frame` argument of `update` is not modelled, because the body never reads it. The animation's frame count `T` and its timing are not modelled either. `Run` takes the number of `update` calls as a parameter. The script does not call `update` exactly T times: `FuncAnimation` (line 101) is given no `init_func` and repeats by default, so it calls `update` once more for the first draw and then keeps cycling through the frames with no fixed end.
- `np.copy` at lines 88-91 is not modelled as a copy. The history fields take over the pre-step arrays, and the current fields take the freshly computed arrays. No other code holds or writes those arrays, so each field has the same values after a frame. What the model does not capture is that the script makes distinct array objects.
- Simulation.Universe.Run: weaker than `Step`. It states only that the grids stay well formed and that the Popelell floor holds after at least one frame. It does not give the closed form of the fields after k frames.
