/** The per-cell arithmetic of one step of the breathing-field update:
    the breathing energy, the Euler relaxation of the Popelell field and its
    floor, the leapfrog updates of matter and antimatter with cubic terms of
    opposite sign, and the annihilation damping. Every numpy expression of
    the step is element-wise, so each is modelled here on one cell's values. */
module UpdateRule {

  /** Lower bound the Popelell field is clamped to after each step. */
  const PopelellFloor: real := 0.01
  /** |phi_m * phi_am| above this marks an annihilation cell. */
  const AnnihilationThreshold: real := 1.0
  /** Factor applied to both new fields in an annihilation cell. */
  const AnnihilationFactor: real := 0.5

  /** The run's constants: grid spacing, time step, gravity pullback,
      learning and decay rates of the Popelell field. */
  datatype Params = Params(dx: real, dt: real, gravity: real, learningRate: real, decayRate: real)
  {
    predicate Valid()
    {
      dx > 0.0 && dt > 0.0 && gravity > 0.0 && learningRate > 0.0 && decayRate > 0.0
    }
  }

  /** The values the script is run with: L = 100, N = 200, dx = L / N. */
  const ScriptGridSize: nat := 200
  const ScriptParams: Params := Params(100.0 / 200.0, 0.005, 0.01, 5.0, 0.001)

  /** The script's constants meet the model's requirements, and dx = L / N. */
  lemma ScriptParamsValid()
    ensures ScriptParams.Valid()
    ensures ScriptParams.dx == 100.0 / (ScriptGridSize as real)
  {
  }

  function Abs(x: real): real
  {
    if x < 0.0 then -x else x
  }

  lemma SquareNonNegative(x: real)
    ensures x * x >= 0.0
  {
    if x < 0.0 {
      assert x * x == (-x) * (-x);
    }
  }

  /** The local breathing energy: half the squared Laplacian plus half the
      squared amplitude, for each field. A sum of halved squares, so never
      negative. */
  function BreathingEnergy(lapM: real, m: real, lapAm: real, am: real): (e: real)
    ensures e >= 0.0
  {
    SquareNonNegative(lapM);
    SquareNonNegative(m);
    SquareNonNegative(lapAm);
    SquareNonNegative(am);
    0.5 * (lapM * lapM + m * m) + 0.5 * (lapAm * lapAm + am * am)
  }

  /** One explicit Euler step of the Popelell field towards the energy, with linear decay. */
  function Relaxed(p: real, energy: real, prm: Params): real
  {
    p + prm.dt * (prm.learningRate * energy - prm.decayRate * p)
  }

  /** The Euler step moves the Popelell value up exactly when the learning
      drive exceeds the decay, leaves it in place exactly when they balance,
      and moves it down otherwise. */
  lemma RelaxationDirection(p: real, energy: real, prm: Params)
    requires prm.Valid()
    ensures Relaxed(p, energy, prm) > p <==> prm.learningRate * energy > prm.decayRate * p
    ensures Relaxed(p, energy, prm) == p <==> prm.learningRate * energy == prm.decayRate * p
    ensures Relaxed(p, energy, prm) < p <==> prm.learningRate * energy < prm.decayRate * p
  {
  }

  /** np.maximum(p, 0.01): the larger of p and the floor. */
  function ClampToFloor(p: real): (r: real)
    ensures r >= PopelellFloor && r >= p
    ensures r == p || r == PopelellFloor
  {
    if p >= PopelellFloor then p else PopelellFloor
  }

  /** The leapfrog update of the matter field, with a restoring cubic term. */
  function MatterLeapfrog(m: real, mPrev: real, lap: real, p: real, prm: Params): real
  {
    2.0 * m - mPrev + prm.dt * prm.dt * (lap - prm.gravity * m - p * m * m * m)
  }

  /** The leapfrog update of the antimatter field, with the cubic term's sign flipped. */
  function AntimatterLeapfrog(am: real, amPrev: real, lap: real, p: real, prm: Params): real
  {
    2.0 * am - amPrev + prm.dt * prm.dt * (lap - prm.gravity * am + p * am * am * am)
  }

  /** The annihilation zone: the overlap phi_m * phi_am exceeds the threshold in magnitude. */
  predicate Annihilates(m: real, am: real)
    ensures Annihilates(m, am) <==> Abs(m) * Abs(am) > AnnihilationThreshold
    ensures Annihilates(m, am) ==> m != 0.0 && am != 0.0
  {
    Abs(m * am) > AnnihilationThreshold
  }

  /** A new field value after the annihilation rule. */
  function Damped(v: real, zone: bool): (r: real)
    ensures Abs(r) <= Abs(v)
    ensures r == v <==> !zone || v == 0.0
  {
    if zone then v * AnnihilationFactor else v
  }

  /** The two leapfrog rules differ only in the cubic term: fed the same
      amplitude, history, Laplacian and Popelell value, matter ends up
      2·dt²·P·φ³ below antimatter. */
  lemma CubicTermsOpposed(phi: real, phiPrev: real, lap: real, p: real, prm: Params)
    ensures MatterLeapfrog(phi, phiPrev, lap, p, prm) - AntimatterLeapfrog(phi, phiPrev, lap, p, prm)
            == -2.0 * prm.dt * prm.dt * p * phi * phi * phi
  {
  }

  /** With sign-mirrored inputs (antimatter = -matter, history and Laplacian
      mirrored too) the two updates are not mirror images: both cubic terms
      pull the same way, and the two new values fail to cancel by exactly
      -2·dt²·P·φ³. */
  lemma MirroredFieldsShareCubicPull(phi: real, phiPrev: real, lap: real, p: real, prm: Params)
    ensures MatterLeapfrog(phi, phiPrev, lap, p, prm) + AntimatterLeapfrog(-phi, -phiPrev, -lap, p, prm)
            == -2.0 * prm.dt * prm.dt * p * phi * phi * phi
  {
  }
}
