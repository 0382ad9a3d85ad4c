/** Heatman (src/object/character/Heatman.js): a character whose animation
    router blends into and out of a flame form by moving `flameTransformTime`
    between 0 and `flameTransformDuration`, and whose health immunity follows
    its walk speed. The trait flags it reads are inputs here. */
module HeatmanCharacter {

  datatype Label = ToFlame | Flame | Fire | Jump | Burn | FromFlame | Idle

  /** What `routeAnimation` reads from the traits: `move._interimSpeed`,
      `isFiring`, `jump._ready` and `isInvincible`. */
  datatype Flags = Flags(interimSpeed: real, isFiring: bool, jumpReady: bool, isInvincible: bool)

  /** The label chosen and the new `flameTransformTime`. */
  datatype Routed = Routed(anim: Label, time: real)

  /** A number is truthy in JavaScript unless it is 0 (NaN does not arise here). */
  predicate Moving(f: Flags)
  {
    f.interimSpeed != 0.0
  }

  /** The router as a function of the flags, the current transform time, the
      transform duration and the frame's delta time. */
  function Route(f: Flags, time: real, duration: real, dt: real): (r: Routed)
    // which label wins, in priority order
    ensures r.anim == ToFlame <==> Moving(f) && time < duration
    ensures r.anim == Flame <==> Moving(f) && time >= duration
    ensures r.anim == Fire <==> !Moving(f) && f.isFiring
    ensures r.anim == Jump <==> !Moving(f) && !f.isFiring && !f.jumpReady
    ensures r.anim == Burn <==> !Moving(f) && !f.isFiring && f.jumpReady && f.isInvincible
    ensures r.anim == FromFlame <==>
      !Moving(f) && !f.isFiring && f.jumpReady && !f.isInvincible && time > 0.0
    ensures r.anim == Idle <==>
      !Moving(f) && !f.isFiring && f.jumpReady && !f.isInvincible && time <= 0.0
    // what each label does to the transform time
    ensures r.anim == ToFlame ==> r.time == time + dt
    ensures r.anim == Flame ==> r.time == duration
    ensures r.anim in {Fire, Jump, Burn} ==> r.time == time
    ensures r.anim == FromFlame ==> r.time == time - dt
    ensures r.anim == Idle ==> r.time == 0.0
  {
    if Moving(f) then
      if time < duration then Routed(ToFlame, time + dt) else Routed(Flame, duration)
    else if f.isFiring then Routed(Fire, time)
    else if !f.jumpReady then Routed(Jump, time)
    else if f.isInvincible then Routed(Burn, time)
    else if time > 0.0 then Routed(FromFlame, time - dt)
    else Routed(Idle, 0.0)
  }

  /** The transform time after routing one frame per entry of `frames`. */
  function RouteAll(frames: seq<Flags>, time: real, duration: real, dt: real): real
  {
    if |frames| == 0 then time
    else RouteAll(frames[1..], Route(frames[0], time, duration, dt).time, duration, dt)
  }

  /** The open band (-dt, duration + dt) that the transform time stays in. */
  predicate InBand(time: real, duration: real, dt: real)
  {
    -dt < time < duration + dt
  }

  /** One routed frame keeps the transform time inside the band. */
  lemma RouteStaysInBand(f: Flags, time: real, duration: real, dt: real)
    requires 0.0 <= dt && 0.0 <= duration && InBand(time, duration, dt)
    ensures InBand(Route(f, time, duration, dt).time, duration, dt)
  {
  }

  /** With a fixed frame time, any run of frames keeps the transform time
      inside the band: the increments and decrements overshoot the end states
      by less than one frame. */
  lemma {:induction false} RouteAllStaysInBand(frames: seq<Flags>, time: real, duration: real, dt: real)
    requires 0.0 <= dt && 0.0 <= duration && InBand(time, duration, dt)
    ensures InBand(RouteAll(frames, time, duration, dt), duration, dt)
    decreases |frames|
  {
    if |frames| > 0 {
      RouteStaysInBand(frames[0], time, duration, dt);
      RouteAllStaysInBand(frames[1..], Route(frames[0], time, duration, dt).time, duration, dt);
    }
  }

  /** Holding interim speed with a positive frame time: the time climbs by
      `dt` per `toFlame` frame, so when `n` steps of `dt` cover the distance to
      the duration, the clock sits exactly at the duration after `n + 1` frames. */
  lemma {:induction false} HoldingInterimReachesFlame(f: Flags, n: nat, time: real, duration: real, dt: real)
    requires Moving(f) && 0.0 < dt && time <= duration
    requires duration <= time + (n as real) * dt
    requires n > 0
    ensures RouteAll(seq(n + 1, _ => f), time, duration, dt) == duration
    decreases n
  {
    var frames := seq(n + 1, _ => f);
    assert frames[1..] == seq(n, _ => f);
    if time < duration {
      var next := time + dt;
      if next < duration {
        assert (n as real) * dt > 1.0 * dt;
        HoldingInterimReachesFlame(f, n - 1, next, duration, dt);
      } else {
        // the frame that reaches or passes the duration; later ones clamp to it
        FlameIsSticky(f, n - 1, next, duration, dt);
      }
    } else {
      FlameIsSticky(f, n, duration, duration, dt);
    }
  }

  /** Once at or past the duration, interim frames keep the time at exactly
      the duration. */
  lemma {:induction false} FlameIsSticky(f: Flags, n: nat, time: real, duration: real, dt: real)
    requires Moving(f) && time >= duration
    ensures RouteAll(seq(n + 1, _ => f), time, duration, dt) == duration
    decreases n
  {
    var frames := seq(n + 1, _ => f);
    if n == 0 {
      assert frames[1..] == [];
    } else {
      assert frames[1..] == seq(n, _ => f);
      FlameIsSticky(f, n - 1, duration, duration, dt);
    }
  }

  /** The character's mutable part: the transform clock, the last frame time,
      the health trait's `immune` flag, and the delta times it passed on to
      the Entity base `timeShift`. */
  class Heatman {
    var flameTransformDuration: real
    var flameTransformTime: real
    var deltaTime: real
    var healthImmune: bool
    var entityShifts: seq<real>

    constructor ()
      ensures flameTransformDuration == 0.09 && flameTransformTime == 0.0
      ensures entityShifts == []
    {
      // `deltaTime` and the immune flag start as the Entity and Health bases set them
      flameTransformDuration := 0.09;
      flameTransformTime := 0.0;
      entityShifts := [];
    }

    /** `routeAnimation`: the label `Route` picks, with the clock it computes. */
    method RouteAnimation(f: Flags) returns (anim: Label)
      modifies this
      ensures Routed(anim, flameTransformTime)
        == Route(f, old(flameTransformTime), flameTransformDuration, deltaTime)
      ensures flameTransformDuration == old(flameTransformDuration) && deltaTime == old(deltaTime)
      ensures healthImmune == old(healthImmune) && entityShifts == old(entityShifts)
    {
      if f.interimSpeed != 0.0 {
        if flameTransformTime < flameTransformDuration {
          flameTransformTime := flameTransformTime + deltaTime;
          return ToFlame;
        }
        flameTransformTime := flameTransformDuration;
        return Flame;
      } else {
        if f.isFiring {
          return Fire;
        }
        if !f.jumpReady {
          return Jump;
        }
        if f.isInvincible {
          return Burn;
        }
        if flameTransformTime > 0.0 {
          flameTransformTime := flameTransformTime - deltaTime;
          return FromFlame;
        }
        flameTransformTime := 0.0;
        return Idle;
      }
    }

    /** `timeShift`: immune exactly while walking, then the base `timeShift`. */
    method TimeShift(dt: real, walkSpeed: real)
      modifies this
      ensures healthImmune <==> walkSpeed != 0.0
      ensures entityShifts == old(entityShifts) + [dt]
      ensures flameTransformTime == old(flameTransformTime)
      ensures flameTransformDuration == old(flameTransformDuration)
    {
      if walkSpeed == 0.0 {
        healthImmune := false;
      } else {
        healthImmune := true;
      }
      entityShifts := entityShifts + [dt];
      // the Entity base `timeShift` sets the frame time; its value is not modelled
      deltaTime := *;
    }
  }
}
