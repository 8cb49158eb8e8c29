/**
 * The avatar's per-frame rules (pepse/world/Avatar.java): energy, flying,
 * jumping, walking, the render angle and the fall-speed limit. Key presses
 * are parameters of the frame; gravity and collisions between frames belong
 * to the engine and are not modelled, except the collision that stops the
 * avatar.
 */
module PepseAvatar {
  import opened PepseWorld

  const VELOCITY: real := -300.0
  const MAX_Y_VELOCITY: real := 400.0
  const INITIAL_ENERGY: real := 100.0
  const DELTA_ENERGY: real := 0.5
  const FLY_INCLINE_ANGLE: int := -30

  /** updateEnergy: flying costs half a unit, standing still gains one, within [0, 100]. */
  function NextEnergy(energy: real, isFlying: bool, vy: real): real
  {
    if isFlying then (if energy - DELTA_ENERGY < 0.0 then 0.0 else energy - DELTA_ENERGY)
    else if vy == 0.0 then (if energy + DELTA_ENERGY < INITIAL_ENERGY then energy + DELTA_ENERGY else INITIAL_ENERGY)
    else energy
  }

  /** checkWalk's horizontal velocity: left adds -300 and right adds +300. */
  function WalkVelocity(left: bool, right: bool): (vx: real)
    ensures vx == VELOCITY <==> left && !right
    ensures vx == -VELOCITY <==> right && !left
    ensures vx == 0.0 <==> left == right
  {
    (if left then VELOCITY else 0.0) - (if right then VELOCITY else 0.0)
  }

  /** Energies that are whole multiples of DELTA_ENERGY. */
  predicate HalfUnits(e: real)
  {
    (2.0 * e).Floor as real == 2.0 * e
  }

  /** The energy rule keeps the energy in [0, 100] and in whole half units. */
  lemma NextEnergyInRange(e: real, isFlying: bool, vy: real)
    requires 0.0 <= e <= INITIAL_ENERGY && HalfUnits(e)
    ensures 0.0 <= NextEnergy(e, isFlying, vy) <= INITIAL_ENERGY
    ensures HalfUnits(NextEnergy(e, isFlying, vy))
  {
    var n := (2.0 * e).Floor;
    var r := NextEnergy(e, isFlying, vy);
    assert 2.0 * r == 0.0 || 2.0 * r == 200.0 || 2.0 * r == (n - 1) as real ||
           2.0 * r == (n + 1) as real || 2.0 * r == n as real;
  }

  /** The energy after n frames of flight starting from energy e. */
  function FlyFrames(e: real, n: nat): real
    decreases n
  {
    if n == 0 then e else FlyFrames(NextEnergy(e, true, 0.0), n - 1)
  }

  /** The energy after n frames standing still starting from energy e. */
  function RestFrames(e: real, n: nat): real
    decreases n
  {
    if n == 0 then e else RestFrames(NextEnergy(e, false, 0.0), n - 1)
  }

  /** n frames of flight drain exactly n half units, down to 0. */
  lemma {:induction false} FlightDrains(e: real, n: nat)
    requires e >= 0.0
    ensures FlyFrames(e, n) == if e - n as real * DELTA_ENERGY < 0.0 then 0.0 else e - n as real * DELTA_ENERGY
    decreases n
  {
    if n > 0 {
      FlightDrains(NextEnergy(e, true, 0.0), n - 1);
    }
  }

  /** n frames standing still restore exactly n half units, up to 100. */
  lemma {:induction false} RestRestores(e: real, n: nat)
    requires e <= INITIAL_ENERGY
    ensures RestFrames(e, n) == if e + n as real * DELTA_ENERGY > INITIAL_ENERGY then INITIAL_ENERGY else e + n as real * DELTA_ENERGY
    decreases n
  {
    if n > 0 {
      RestRestores(NextEnergy(e, false, 0.0), n - 1);
    }
  }

  class Avatar {
    var x: real
    var y: real
    var vx: real
    var vy: real
    var energy: real
    /** The displayed energy counter. */
    var energyToDisplay: int
    var isFlying: bool
    var angle: int
    var flippedHorizontally: bool
    /** Whether the walking animation (rather than the still image) is shown. */
    var animated: bool

    /** The energy is in [0, 100], in half units, and the counter shows its floor. */
    predicate Valid()
      reads this
    {
      0.0 <= energy <= INITIAL_ENERGY && HalfUnits(energy) && energyToDisplay == energy.Floor
    }

    /** Avatar.create: the avatar stands on (x, groundY), full of energy. */
    constructor (x: real, groundY: real)
      ensures Valid()
      ensures this.x == x && this.y == groundY - 70.0
      ensures energy == INITIAL_ENERGY && energyToDisplay == 100 && !isFlying
      ensures vx == 0.0 && vy == 0.0 && angle == 0 && !animated
    {
      this.x := x;
      this.y := groundY - 70.0;
      vx, vy := 0.0, 0.0;
      energy := INITIAL_ENERGY;
      energyToDisplay := 100;
      isFlying := false;
      angle := 0;
      flippedHorizontally := false;
      animated := false;
    }

    /** Avatar.shouldCollideWith: trunks and ground blocks only. */
    predicate ShouldCollideWith(other: Obj)
    {
      other.tag == TRUNK_TAG || other.tag == GROUND_TAG
    }

    /** Avatar.onCollisionEnter: the avatar stops. */
    method OnCollisionEnter(other: Obj)
      modifies this
      ensures vx == 0.0 && vy == 0.0
      ensures x == old(x) && y == old(y) && energy == old(energy) && energyToDisplay == old(energyToDisplay)
      ensures isFlying == old(isFlying) && angle == old(angle) && animated == old(animated)
      ensures flippedHorizontally == old(flippedHorizontally)
    {
      vx, vy := 0.0, 0.0;
    }

    /**
     * Avatar.update: energy first (from the previous frame's flight and
     * vertical speed), then fly, jump and walk from the keys, then the
     * animation and the fall-speed limit.
     */
    method Update(space: bool, shift: bool, left: bool, right: bool)
      requires Valid()
      modifies this
      ensures Valid()
      ensures energy == NextEnergy(old(energy), old(isFlying), old(vy))
      ensures isFlying <==> space && shift && energy > 0.0
      ensures isFlying ==> vy == VELOCITY
      ensures !isFlying ==>
        var jumped := if space && old(vy) == 0.0 then VELOCITY else old(vy);
        vy == if jumped < MAX_Y_VELOCITY then jumped else MAX_Y_VELOCITY
      ensures vx == WalkVelocity(left, right)
      ensures angle == if isFlying && old(vx) != 0.0 then FLY_INCLINE_ANGLE else 0
      ensures animated <==> vx != 0.0
      ensures flippedHorizontally == if right then false else if left then true else old(flippedHorizontally)
      ensures x == old(x) && y == old(y)
    {
      UpdateEnergy();
      CheckFly(space, shift);
      CheckJump(space);
      CheckWalk(left, right);
      animated := vx != 0.0;
      if !isFlying {
        vy := if MAX_Y_VELOCITY < vy then MAX_Y_VELOCITY else vy;
      }
    }

    /** updateEnergy: the counter is raised by floor(energy - counter), so it shows floor(energy). */
    method UpdateEnergy()
      requires Valid()
      modifies this
      ensures Valid()
      ensures energy == NextEnergy(old(energy), isFlying, vy)
      ensures x == old(x) && y == old(y) && vx == old(vx) && vy == old(vy) && isFlying == old(isFlying)
      ensures angle == old(angle) && animated == old(animated) && flippedHorizontally == old(flippedHorizontally)
    {
      NextEnergyInRange(energy, isFlying, vy);
      if isFlying {
        energy := if energy - DELTA_ENERGY < 0.0 then 0.0 else energy - DELTA_ENERGY;
      } else if vy == 0.0 {
        energy := if energy + DELTA_ENERGY < INITIAL_ENERGY then energy + DELTA_ENERGY else INITIAL_ENERGY;
      }
      var deltaEnergyToDisplay := (energy - energyToDisplay as real).Floor;
      energyToDisplay := energyToDisplay + deltaEnergyToDisplay;
    }

    /** checkFly: flying needs space, shift and some energy; flight climbs at 300. */
    method CheckFly(space: bool, shift: bool)
      modifies this
      ensures isFlying <==> space && shift && energy > 0.0
      ensures vy == if isFlying then VELOCITY else old(vy)
      ensures x == old(x) && y == old(y) && vx == old(vx) && energy == old(energy)
      ensures energyToDisplay == old(energyToDisplay) && angle == old(angle) && animated == old(animated)
      ensures flippedHorizontally == old(flippedHorizontally)
    {
      if space && shift && energy > 0.0 {
        isFlying := true;
        vy := VELOCITY;
      } else {
        isFlying := false;
      }
    }

    /** checkJump: a jump starts only from rest. */
    method CheckJump(space: bool)
      modifies this
      ensures vy == if space && old(vy) == 0.0 then VELOCITY else old(vy)
      ensures x == old(x) && y == old(y) && vx == old(vx) && energy == old(energy) && isFlying == old(isFlying)
      ensures energyToDisplay == old(energyToDisplay) && angle == old(angle) && animated == old(animated)
      ensures flippedHorizontally == old(flippedHorizontally)
    {
      if space && vy == 0.0 {
        vy := VELOCITY;
      }
    }

    /** checkWalk: the angle is set from the velocity before the new one is applied. */
    method CheckWalk(left: bool, right: bool)
      modifies this
      ensures vx == WalkVelocity(left, right)
      ensures angle == if isFlying && old(vx) != 0.0 then FLY_INCLINE_ANGLE else 0
      ensures flippedHorizontally == if right then false else if left then true else old(flippedHorizontally)
      ensures x == old(x) && y == old(y) && vy == old(vy) && energy == old(energy) && isFlying == old(isFlying)
      ensures energyToDisplay == old(energyToDisplay) && animated == old(animated)
    {
      var xVel := 0.0;
      if left {
        xVel := xVel + VELOCITY;
        flippedHorizontally := true;
      }
      if right {
        xVel := xVel - VELOCITY;
        flippedHorizontally := false;
      }
      SetAngle();
      vx := xVel;
    }

    /** setAngle: tilted while flying sideways, upright otherwise. */
    method SetAngle()
      modifies this
      ensures angle == if isFlying && vx != 0.0 then FLY_INCLINE_ANGLE else 0
      ensures x == old(x) && y == old(y) && vx == old(vx) && vy == old(vy) && energy == old(energy)
      ensures isFlying == old(isFlying) && energyToDisplay == old(energyToDisplay) && animated == old(animated)
      ensures flippedHorizontally == old(flippedHorizontally)
    {
      if isFlying && vx != 0.0 {
        angle := FLY_INCLINE_ANGLE;
      } else {
        angle := 0;
      }
    }
  }
}
