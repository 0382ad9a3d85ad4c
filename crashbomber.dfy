/** CrashBomber (src/game/object/weapon/CrashBomber.js): a weapon whose `fire`
    runs the base gate, then takes the next idle projectile and emits it. */
module CrashBomberWeapon {
  import opened Engine
  import opened Weapons

  /** `Fired` and `NotFired` are `fire`'s `true` and `false`; `Threw` is the
      exception `emit` raises when a weapon without projectiles passes the
      gate and `getProjectile` finds nothing to hand over. */
  datatype FireOutcome = Fired | NotFired | Threw

  method Fire(w: Weapon) returns (r: FireOutcome)
    requires w.Valid()
    modifies w, if |w.projectilesIdle| > 0 then {w.projectilesIdle[0]} else {}
    ensures w.Valid()
    ensures r == NotFired <==> !old(w.Ready())
    ensures r == NotFired ==> unchanged(w) && unchanged(old(w.projectilesIdle))
    ensures r == Threw <==> old(w.Ready()) && |old(w.projectiles)| == 0
    ensures r != NotFired ==> w.coolDownDelay == w.coolDown
    ensures r != NotFired && !w.ammoInfinite ==>
      w.ammoAmount == old(w.ammoAmount) - w.cost && w.ammoChanged == old(w.ammoChanged) + [w]
    ensures r != NotFired && w.ammoInfinite ==>
      w.ammoAmount == old(w.ammoAmount) && w.ammoChanged == old(w.ammoChanged)
    ensures r == Threw ==>
      w.projectilesIdle == old(w.projectilesIdle)
      && w.projectilesFired == old(w.projectilesFired) && w.worldCalls == old(w.worldCalls)
    // success: exactly one projectile, the first idle one, leaves the idle pool and is emitted
    ensures r == Fired ==>
      var p := old(w.projectilesIdle)[0];
      w.projectilesIdle == old(w.projectilesIdle)[1..]
      && w.projectilesFired == old(w.projectilesFired) + [p]
      && w.worldCalls == old(w.worldCalls) + [AddObject(p)]
      && p.time == 0.0 && p.emitter == w.user && p.timeStretch == w.user.timeStretch
    ensures w.projectiles == old(w.projectiles) && w.coolDown == old(w.coolDown)
    ensures w.cost == old(w.cost) && w.ammoInfinite == old(w.ammoInfinite) && w.ammoMax == old(w.ammoMax)
  {
    var ok := w.Fire();
    if !ok {
      return NotFired;
    }
    var next := w.GetProjectile();
    if next.None? {
      return Threw;
    }
    assert RemoveAt(w.projectilesIdle, 0) == w.projectilesIdle[1..];
    w.Emit(next.value);
    return Fired;
  }
}
