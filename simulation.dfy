/** The simulation state of the matter + antimatter breathing universe: five
    N×N grids updated in place once per animation frame. The script keeps
    them in module globals; here they are the fields of one object. */
module Simulation {
  import opened Laplacian
  import opened UpdateRule

  /** Scale of the Gaussian noise the fields start from. */
  const NoiseAmplitude: real := 0.05
  /** Height of each seeded blob: +10 in the matter field, -10 in the antimatter field. */
  const BlobAmplitude: real := 10.0
  /** Starting value of the Popelell field in every cell. */
  const InitialPopelell: real := 5.0

  /** What one blob of height `amount` at (r, c) adds at (i, j). */
  function Blob(r: nat, c: nat, amount: real, i: nat, j: nat): real
  {
    if i == r && j == c then amount else 0.0
  }

  /** What the two matter blobs add at (i, j): 10 at (N//4, N//4) and 10 at
      (3N//4, 3N//4). The blobs are added one after the other, so when both
      land on one cell (N = 1) that cell gets 20. */
  function MatterSeed(n: nat, i: nat, j: nat): (r: real)
    ensures r == 0.0 || r == BlobAmplitude || r == 2.0 * BlobAmplitude
    ensures r != 0.0 <==> (i == n / 4 && j == n / 4) || (i == 3 * n / 4 && j == 3 * n / 4)
  {
    Blob(n / 4, n / 4, BlobAmplitude, i, j) + Blob(3 * n / 4, 3 * n / 4, BlobAmplitude, i, j)
  }

  /** What the two antimatter blobs add at (i, j): -10 at (N//4, 3N//4) and
      -10 at (3N//4, N//4). */
  function AntimatterSeed(n: nat, i: nat, j: nat): (r: real)
    ensures r == 0.0 || r == -BlobAmplitude || r == -2.0 * BlobAmplitude
    ensures r != 0.0 <==> (i == n / 4 && j == 3 * n / 4) || (i == 3 * n / 4 && j == n / 4)
  {
    Blob(n / 4, 3 * n / 4, -BlobAmplitude, i, j) + Blob(3 * n / 4, n / 4, -BlobAmplitude, i, j)
  }

  /** From N = 2 on the four blob cells are distinct, so no cell receives
      both a matter and an antimatter blob, and no field gets a doubled blob. */
  lemma SeedsApart(n: nat, i: nat, j: nat)
    requires n >= 2
    ensures MatterSeed(n, i, j) == 0.0 || AntimatterSeed(n, i, j) == 0.0
    ensures MatterSeed(n, i, j) != 2.0 * BlobAmplitude && AntimatterSeed(n, i, j) != -2.0 * BlobAmplitude
  {
    assert n / 4 < 3 * n / 4;
  }

  /** a[r, c] += amount. */
  method AddBlob(a: array2<real>, n: nat, r: nat, c: nat, amount: real)
    requires IsGrid(a, n) && r < n && c < n
    modifies a
    ensures forall i, j :: 0 <= i < n && 0 <= j < n ==> a[i, j] == old(a[i, j]) + Blob(r, c, amount, i, j)
  {
    a[r, c] := a[r, c] + amount;
  }

  /** np.ones((N, N)) * v. */
  method ConstantGrid(n: nat, v: real) returns (a: array2<real>)
    requires n > 0
    ensures fresh(a) && IsGrid(a, n)
    ensures forall i, j :: 0 <= i < n && 0 <= j < n ==> a[i, j] == v
  {
    a := new real[n, n];
    forall i, j | 0 <= i < n && 0 <= j < n {
      a[i, j] := v;
    }
  }

  /** A fresh N×N grid holding `scale` times each cell of `src`. */
  method ScaledCopy(src: array2<real>, n: nat, scale: real) returns (a: array2<real>)
    requires IsGrid(src, n)
    ensures fresh(a) && IsGrid(a, n)
    ensures forall i, j :: 0 <= i < n && 0 <= j < n ==> a[i, j] == scale * src[i, j]
  {
    a := new real[n, n];
    forall i, j | 0 <= i < n && 0 <= j < n {
      a[i, j] := scale * src[i, j];
    }
  }

  /** np.copy: a fresh grid with the same cells. */
  method Copy(src: array2<real>, n: nat) returns (a: array2<real>)
    requires IsGrid(src, n)
    ensures fresh(a) && IsGrid(a, n)
    ensures forall i, j :: 0 <= i < n && 0 <= j < n ==> a[i, j] == src[i, j]
  {
    a := new real[n, n];
    forall i, j | 0 <= i < n && 0 <= j < n {
      a[i, j] := src[i, j];
    }
  }

  /** laplacian(phi, dx) as a fresh grid. */
  method LaplacianGrid(phi: array2<real>, n: nat, dx: real) returns (lap: array2<real>)
    requires IsGrid(phi, n) && dx != 0.0
    ensures fresh(lap) && IsGrid(lap, n)
    ensures forall i, j :: 0 <= i < n && 0 <= j < n ==> lap[i, j] == LaplacianAt(phi, n, dx, i, j)
  {
    lap := new real[n, n];
    forall i, j | 0 <= i < n && 0 <= j < n {
      lap[i, j] := LaplacianAt(phi, n, dx, i, j);
    }
  }

  /** The breathing-energy grid of two fields and their Laplacians. */
  method EnergyGrid(lapM: array2<real>, m: array2<real>, lapAm: array2<real>, am: array2<real>, n: nat)
    returns (e: array2<real>)
    requires IsGrid(lapM, n) && IsGrid(m, n) && IsGrid(lapAm, n) && IsGrid(am, n)
    ensures fresh(e) && IsGrid(e, n)
    ensures forall i, j :: 0 <= i < n && 0 <= j < n ==>
              e[i, j] == BreathingEnergy(lapM[i, j], m[i, j], lapAm[i, j], am[i, j])
  {
    e := new real[n, n];
    forall i, j | 0 <= i < n && 0 <= j < n {
      e[i, j] := BreathingEnergy(lapM[i, j], m[i, j], lapAm[i, j], am[i, j]);
    }
  }

  /** Popelell += dt * (learning_rate * E - decay_rate * Popelell), in place. */
  method RelaxInPlace(p: array2<real>, energy: array2<real>, n: nat, prm: Params)
    requires IsGrid(p, n) && IsGrid(energy, n) && p != energy
    modifies p
    ensures forall i, j :: 0 <= i < n && 0 <= j < n ==> p[i, j] == Relaxed(old(p[i, j]), energy[i, j], prm)
  {
    forall i, j | 0 <= i < n && 0 <= j < n {
      p[i, j] := Relaxed(p[i, j], energy[i, j], prm);
    }
  }

  /** np.maximum(p, 0.01) as a fresh grid. */
  method ClampedGrid(p: array2<real>, n: nat) returns (c: array2<real>)
    requires IsGrid(p, n)
    ensures fresh(c) && IsGrid(c, n)
    ensures forall i, j :: 0 <= i < n && 0 <= j < n ==> c[i, j] == ClampToFloor(p[i, j])
  {
    c := new real[n, n];
    forall i, j | 0 <= i < n && 0 <= j < n {
      c[i, j] := ClampToFloor(p[i, j]);
    }
  }

  /** The matter field's leapfrog step as a fresh grid, before annihilation. */
  method MatterLeapfrogGrid(m: array2<real>, mPrev: array2<real>, lap: array2<real>, p: array2<real>,
                            n: nat, prm: Params) returns (next: array2<real>)
    requires IsGrid(m, n) && IsGrid(mPrev, n) && IsGrid(lap, n) && IsGrid(p, n)
    ensures fresh(next) && IsGrid(next, n)
    ensures forall i, j :: 0 <= i < n && 0 <= j < n ==>
              next[i, j] == MatterLeapfrog(m[i, j], mPrev[i, j], lap[i, j], p[i, j], prm)
  {
    next := new real[n, n];
    forall i, j | 0 <= i < n && 0 <= j < n {
      next[i, j] := MatterLeapfrog(m[i, j], mPrev[i, j], lap[i, j], p[i, j], prm);
    }
  }

  /** The antimatter field's leapfrog step as a fresh grid, before annihilation. */
  method AntimatterLeapfrogGrid(am: array2<real>, amPrev: array2<real>, lap: array2<real>, p: array2<real>,
                                n: nat, prm: Params) returns (next: array2<real>)
    requires IsGrid(am, n) && IsGrid(amPrev, n) && IsGrid(lap, n) && IsGrid(p, n)
    ensures fresh(next) && IsGrid(next, n)
    ensures forall i, j :: 0 <= i < n && 0 <= j < n ==>
              next[i, j] == AntimatterLeapfrog(am[i, j], amPrev[i, j], lap[i, j], p[i, j], prm)
  {
    next := new real[n, n];
    forall i, j | 0 <= i < n && 0 <= j < n {
      next[i, j] := AntimatterLeapfrog(am[i, j], amPrev[i, j], lap[i, j], p[i, j], prm);
    }
  }

  /** Fed identical matter and antimatter grids with identical histories,
      the two leapfrog updates differ at every cell by the cubic terms alone:
      matter minus antimatter is -2·dt²·P·φ³. */
  lemma IdenticalFieldsSplitByCube(m: array2<real>, mPrev: array2<real>, am: array2<real>, amPrev: array2<real>,
                                   p: array2<real>, n: nat, prm: Params, i: nat, j: nat)
    requires IsGrid(m, n) && IsGrid(mPrev, n) && IsGrid(am, n) && IsGrid(amPrev, n) && IsGrid(p, n)
    requires prm.dx != 0.0 && i < n && j < n
    requires forall a, b :: 0 <= a < n && 0 <= b < n ==> m[a, b] == am[a, b] && mPrev[a, b] == amPrev[a, b]
    ensures MatterLeapfrog(m[i, j], mPrev[i, j], LaplacianAt(m, n, prm.dx, i, j), p[i, j], prm)
            - AntimatterLeapfrog(am[i, j], amPrev[i, j], LaplacianAt(am, n, prm.dx, i, j), p[i, j], prm)
            == -2.0 * prm.dt * prm.dt * p[i, j] * m[i, j] * m[i, j] * m[i, j]
  {
    LaplacianStencil(m, n, prm.dx, i, j);
    LaplacianStencil(am, n, prm.dx, i, j);
    CubicTermsOpposed(m[i, j], mPrev[i, j], LaplacianAt(m, n, prm.dx, i, j), p[i, j], prm);
  }

  /** The annihilation rule: halve both new fields wherever the pre-step
      fields `m` and `am` overlap by more than the threshold. */
  method Annihilate(mNew: array2<real>, amNew: array2<real>, m: array2<real>, am: array2<real>, n: nat)
    requires IsGrid(mNew, n) && IsGrid(amNew, n) && IsGrid(m, n) && IsGrid(am, n)
    requires mNew != amNew && mNew != m && mNew != am && amNew != m && amNew != am
    modifies mNew, amNew
    ensures forall i, j :: 0 <= i < n && 0 <= j < n ==>
              mNew[i, j] == Damped(old(mNew[i, j]), Annihilates(m[i, j], am[i, j]))
              && amNew[i, j] == Damped(old(amNew[i, j]), Annihilates(m[i, j], am[i, j]))
  {
    var zone := new bool[n, n];
    forall i, j | 0 <= i < n && 0 <= j < n {
      zone[i, j] := Annihilates(m[i, j], am[i, j]);
    }
    forall i, j | 0 <= i < n && 0 <= j < n && zone[i, j] {
      mNew[i, j] := mNew[i, j] * AnnihilationFactor;
    }
    forall i, j | 0 <= i < n && 0 <= j < n && zone[i, j] {
      amNew[i, j] := amNew[i, j] * AnnihilationFactor;
    }
  }

  class Universe {
    const n: nat
    const params: Params
    /** phi_m and phi_m_old: the matter field now and one step back. */
    var phiM: array2<real>
    var phiMOld: array2<real>
    /** phi_am and phi_am_old: the antimatter field now and one step back. */
    var phiAm: array2<real>
    var phiAmOld: array2<real>
    /** The Popelell (nonlinearity) field. */
    var popelell: array2<real>

    /** Five separate N×N grids and positive constants. */
    ghost predicate Valid()
      reads this
    {
      params.Valid()
      && IsGrid(phiM, n) && IsGrid(phiMOld, n) && IsGrid(phiAm, n) && IsGrid(phiAmOld, n) && IsGrid(popelell, n)
      && phiM != phiMOld && phiM != phiAm && phiM != phiAmOld && phiM != popelell
      && phiMOld != phiAm && phiMOld != phiAmOld && phiMOld != popelell
      && phiAm != phiAmOld && phiAm != popelell
      && phiAmOld != popelell
    }

    /** Every Popelell cell is at least the floor. */
    ghost predicate PopelellAboveFloor()
      reads this, popelell
      requires Valid()
    {
      forall i, j :: 0 <= i < n && 0 <= j < n ==> popelell[i, j] >= PopelellFloor
    }

    /** The breathing energy of the current fields at (i, j). */
    function EnergyAt(i: nat, j: nat): (e: real)
      reads this, phiM, phiAm
      requires Valid() && i < n && j < n
      ensures e >= 0.0
    {
      BreathingEnergy(LaplacianAt(phiM, n, params.dx, i, j), phiM[i, j],
                      LaplacianAt(phiAm, n, params.dx, i, j), phiAm[i, j])
    }

    /** The initial state: noise in both fields and their histories, the
        constant Popelell field, then the four blobs, added after the
        histories were copied so that the histories hold the noise only.
        `noiseM` and `noiseAm` stand for the two standard normal samples. */
    constructor Init(n: nat, params: Params, noiseM: array2<real>, noiseAm: array2<real>)
      requires n > 0 && params.Valid() && IsGrid(noiseM, n) && IsGrid(noiseAm, n)
      ensures Valid() && PopelellAboveFloor()
      ensures this.n == n && this.params == params
      ensures fresh(phiM) && fresh(phiMOld) && fresh(phiAm) && fresh(phiAmOld) && fresh(popelell)
      ensures forall i, j :: 0 <= i < n && 0 <= j < n ==>
                phiMOld[i, j] == NoiseAmplitude * noiseM[i, j]
                && phiM[i, j] == NoiseAmplitude * noiseM[i, j] + MatterSeed(n, i, j)
      ensures forall i, j :: 0 <= i < n && 0 <= j < n ==>
                phiAmOld[i, j] == NoiseAmplitude * noiseAm[i, j]
                && phiAm[i, j] == NoiseAmplitude * noiseAm[i, j] + AntimatterSeed(n, i, j)
      ensures forall i, j :: 0 <= i < n && 0 <= j < n ==> popelell[i, j] == InitialPopelell
    {
      var m := ScaledCopy(noiseM, n, NoiseAmplitude);
      var mOld := Copy(m, n);
      var am := ScaledCopy(noiseAm, n, NoiseAmplitude);
      var amOld := Copy(am, n);
      var p := ConstantGrid(n, InitialPopelell);
      AddBlob(m, n, n / 4, n / 4, BlobAmplitude);
      AddBlob(m, n, 3 * n / 4, 3 * n / 4, BlobAmplitude);
      AddBlob(am, n, n / 4, 3 * n / 4, -BlobAmplitude);
      AddBlob(am, n, 3 * n / 4, n / 4, -BlobAmplitude);
      this.n := n;
      this.params := params;
      phiM, phiMOld, phiAm, phiAmOld, popelell := m, mOld, am, amOld, p;
    }

    /** The first half of a frame: the breathing energy of the current
        fields, the in-place Euler step of the Popelell field, and the clamp
        to the floor, which makes a new grid. */
    method UpdatePopelell(lapM: array2<real>, lapAm: array2<real>)
      requires Valid() && IsGrid(lapM, n) && IsGrid(lapAm, n)
      requires lapM != popelell && lapAm != popelell
      modifies this`popelell, popelell
      ensures Valid() && fresh(popelell)
      ensures forall i, j :: 0 <= i < n && 0 <= j < n ==>
                popelell[i, j] == ClampToFloor(Relaxed(old(popelell[i, j]),
                                    BreathingEnergy(lapM[i, j], phiM[i, j], lapAm[i, j], phiAm[i, j]), params))
    {
      var energy := EnergyGrid(lapM, phiM, lapAm, phiAm, n);
      // Popelell += ... updates the array in place; np.maximum makes a new one.
      RelaxInPlace(popelell, energy, n, params);
      popelell := ClampedGrid(popelell, n);
    }

    /** The second half of a frame: leapfrog steps of both fields with the
        current Popelell value, halving where the current fields overlap by
        more than the threshold, then the shift of the history. */
    method AdvanceFields(lapM: array2<real>, lapAm: array2<real>)
      requires Valid() && IsGrid(lapM, n) && IsGrid(lapAm, n)
      modifies this`phiM, this`phiMOld, this`phiAm, this`phiAmOld
      ensures Valid() && fresh(phiM) && fresh(phiAm)
      ensures phiMOld == old(phiM) && phiAmOld == old(phiAm)
      ensures forall i, j :: 0 <= i < n && 0 <= j < n ==>
                phiM[i, j] == Damped(MatterLeapfrog(old(phiM[i, j]), old(phiMOld[i, j]), lapM[i, j], popelell[i, j], params),
                                     old(Annihilates(phiM[i, j], phiAm[i, j])))
                && phiAm[i, j] == Damped(AntimatterLeapfrog(old(phiAm[i, j]), old(phiAmOld[i, j]), lapAm[i, j], popelell[i, j], params),
                                         old(Annihilates(phiM[i, j], phiAm[i, j])))
    {
      var phiMNew := MatterLeapfrogGrid(phiM, phiMOld, lapM, popelell, n, params);
      var phiAmNew := AntimatterLeapfrogGrid(phiAm, phiAmOld, lapAm, popelell, n, params);
      Annihilate(phiMNew, phiAmNew, phiM, phiAm, n);
      phiMOld := phiM;
      phiAmOld := phiAm;
      phiM := phiMNew;
      phiAm := phiAmNew;
    }

    /** One frame of the simulation. The Popelell field takes an Euler step
        driven by the breathing energy of the pre-step fields and is clamped
        to the floor; both fields take a leapfrog step that already uses the
        clamped Popelell value; wherever the pre-step fields overlap by more
        than the threshold, both new values are halved; finally the current
        fields become the history and the new fields become current. */
    method Step()
      requires Valid()
      modifies this, popelell
      ensures Valid()
      ensures fresh(phiM) && fresh(phiAm) && fresh(popelell)
      ensures forall i, j :: 0 <= i < n && 0 <= j < n ==>
                popelell[i, j] == ClampToFloor(Relaxed(old(popelell[i, j]), old(EnergyAt(i, j)), params))
      ensures PopelellAboveFloor()
      ensures forall i, j :: 0 <= i < n && 0 <= j < n && !old(Annihilates(phiM[i, j], phiAm[i, j])) ==>
                phiM[i, j] == MatterLeapfrog(old(phiM[i, j]), old(phiMOld[i, j]),
                                             old(LaplacianAt(phiM, n, params.dx, i, j)), popelell[i, j], params)
                && phiAm[i, j] == AntimatterLeapfrog(old(phiAm[i, j]), old(phiAmOld[i, j]),
                                                     old(LaplacianAt(phiAm, n, params.dx, i, j)), popelell[i, j], params)
      ensures forall i, j :: 0 <= i < n && 0 <= j < n && old(Annihilates(phiM[i, j], phiAm[i, j])) ==>
                phiM[i, j] == AnnihilationFactor * MatterLeapfrog(old(phiM[i, j]), old(phiMOld[i, j]),
                                             old(LaplacianAt(phiM, n, params.dx, i, j)), popelell[i, j], params)
                && phiAm[i, j] == AnnihilationFactor * AntimatterLeapfrog(old(phiAm[i, j]), old(phiAmOld[i, j]),
                                                     old(LaplacianAt(phiAm, n, params.dx, i, j)), popelell[i, j], params)
      ensures forall i, j :: 0 <= i < n && 0 <= j < n ==>
                phiMOld[i, j] == old(phiM[i, j]) && phiAmOld[i, j] == old(phiAm[i, j])
    {
      var lapM := LaplacianGrid(phiM, n, params.dx);
      var lapAm := LaplacianGrid(phiAm, n, params.dx);
      UpdatePopelell(lapM, lapAm);
      AdvanceFields(lapM, lapAm);
    }

    /** The animation: `frames` successive calls of `update`. */
    method Run(frames: nat)
      requires Valid()
      modifies this, popelell
      ensures Valid()
      ensures frames > 0 || old(PopelellAboveFloor()) ==> PopelellAboveFloor()
    {
      var t := 0;
      while t < frames
        invariant 0 <= t <= frames
        invariant Valid()
        invariant popelell == old(popelell) || fresh(popelell)
        invariant t > 0 || old(PopelellAboveFloor()) ==> PopelellAboveFloor()
      {
        Step();
        t := t + 1;
      }
    }
  }
}
