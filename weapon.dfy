/** The base weapon that CrashBomber extends: a cooldown gate, optional ammo
    with a per-shot cost, and a fixed set of reusable projectiles cycling
    between an idle and a fired pool. Its behaviour is the one pinned down by
    test/unit/tests/weapon.js; the user's world is recorded as the calls it
    receives. */
module Weapons {
  import opened Engine

  /** The part of a projectile `emit` writes: elapsed time, time stretch and
      the emitter back-reference. */
  class Projectile {
    var time: real
    var timeStretch: real
    var emitter: Entity?

    constructor ()
      ensures time == 0.0 && timeStretch == 1.0 && emitter == null
    {
      time := 0.0;
      timeStretch := 1.0;
      emitter := null;
    }

    /** What `emit` does to the projectile itself: restart its clock, take the
        user's time stretch, remember the user as its emitter. */
    method Launch(user: Entity)
      modifies this
      ensures time == 0.0 && timeStretch == user.timeStretch && emitter == user
    {
      time, timeStretch, emitter := 0.0, user.timeStretch, user;
    }
  }

  /** A call into the user's world. */
  datatype WorldCall = AddObject(p: Projectile) | RemoveObject(p: Projectile)

  /** Every owned projectile sits in exactly as many pool slots as it has
      ownership slots: the idle and fired pools together are `all`. */
  ghost predicate PoolsConserved<T>(all: seq<T>, idle: seq<T>, fired: seq<T>)
  {
    multiset(idle) + multiset(fired) == multiset(all)
  }

  /** Move the first occurrence of `p` from `source` to the end of `target`;
      nothing moves when `p` is not in `source`. The result is the new
      (source, target) pair. */
  function Transfer<T(==)>(source: seq<T>, target: seq<T>, p: T): (r: (seq<T>, seq<T>))
    ensures |r.0| + |r.1| == |source| + |target|
    ensures p in source ==> r.1 == target + [p] && |r.0| == |source| - 1
    ensures p !in source ==> r == (source, target)
  {
    var i := IndexOf(source, p);
    if i == -1 then (source, target) else (RemoveAt(source, i), target + [p])
  }

  /** A transfer keeps the two pools together the same multiset: a present
      `p` leaves `source` exactly once. */
  lemma TransferConserves<T>(source: seq<T>, target: seq<T>, p: T)
    ensures multiset(Transfer(source, target, p).0) + multiset(Transfer(source, target, p).1)
      == multiset(source) + multiset(target)
    ensures p in source ==> multiset(Transfer(source, target, p).0) == multiset(source) - multiset{p}
  {
    if p in source {
      RemoveAtMultiset(source, IndexOf(source, p));
    }
  }

  /** Emitting a projectile and recycling it again gives back the fired pool
      exactly and the idle pool as a multiset, with the projectile moved to
      the end of the idle pool. */
  lemma EmitThenRecycle<T>(idle: seq<T>, fired: seq<T>, p: T)
    requires p in idle && p !in fired
    ensures Transfer(Transfer(idle, fired, p).1, Transfer(idle, fired, p).0, p).0 == fired
    ensures multiset(Transfer(Transfer(idle, fired, p).1, Transfer(idle, fired, p).0, p).1)
      == multiset(idle)
    ensures Transfer(Transfer(idle, fired, p).1, Transfer(idle, fired, p).0, p).1
      == RemoveAt(idle, IndexOf(idle, p)) + [p]
  {
    var afterEmit := Transfer(idle, fired, p);
    assert afterEmit.1 == fired + [p];
    TransferConserves(idle, fired, p);
    TransferConserves(afterEmit.1, afterEmit.0, p);
    var k := IndexOf(fired + [p], p);
    assert k == |fired| by {
      assert (fired + [p])[..|fired|] == fired;
      assert (fired + [p])[|fired|] == p;
    }
    assert RemoveAt(fired + [p], |fired|) == fired by {
      assert (fired + [p])[..|fired|] == fired;
    }
  }

  /** A pool transition driven from outside: `emit` or `recycleProjectile`. */
  datatype PoolOp<T> = Emit(p: T) | Recycle(p: T)

  /** The (idle, fired) pools after a sequence of transitions. */
  function RunPool<T(==)>(idle: seq<T>, fired: seq<T>, ops: seq<PoolOp<T>>): (seq<T>, seq<T>)
    decreases |ops|
  {
    if |ops| == 0 then (idle, fired)
    else
      match ops[0]
      case Emit(p) =>
        var r := Transfer(idle, fired, p);
        RunPool(r.0, r.1, ops[1..])
      case Recycle(p) =>
        var r := Transfer(fired, idle, p);
        RunPool(r.1, r.0, ops[1..])
  }

  /** Across any sequence of emits and recycles the two pools together keep
      the same projectiles, so `|idle| + |fired|` is constant. */
  lemma {:induction false} RunPoolConserves<T>(all: seq<T>, idle: seq<T>, fired: seq<T>, ops: seq<PoolOp<T>>)
    requires PoolsConserved(all, idle, fired)
    ensures PoolsConserved(all, RunPool(idle, fired, ops).0, RunPool(idle, fired, ops).1)
    ensures |RunPool(idle, fired, ops).0| + |RunPool(idle, fired, ops).1| == |all|
    decreases |ops|
  {
    if |ops| == 0 {
      assert |multiset(idle) + multiset(fired)| == |multiset(all)|;
    } else {
      match ops[0]
      case Emit(p) =>
        var r := Transfer(idle, fired, p);
        assert RunPool(idle, fired, ops) == RunPool(r.0, r.1, ops[1..]);
        TransferConserves(idle, fired, p);
        assert PoolsConserved(all, r.0, r.1);
        RunPoolConserves(all, r.0, r.1, ops[1..]);
      case Recycle(p) =>
        var r := Transfer(fired, idle, p);
        assert RunPool(idle, fired, ops) == RunPool(r.1, r.0, ops[1..]);
        TransferConserves(fired, idle, p);
        assert PoolsConserved(all, r.1, r.0);
        RunPoolConserves(all, r.1, r.0, ops[1..]);
    }
  }

  /** With every projectile owned once, each owned projectile is in exactly
      one of the two pools, and the pools hold nothing else. */
  lemma PoolsPartition<T>(all: seq<T>, idle: seq<T>, fired: seq<T>, p: T)
    requires PoolsConserved(all, idle, fired) && Distinct(all)
    ensures p in all <==> p in idle || p in fired
    ensures !(p in idle && p in fired)
  {
    DistinctCountsOnce(all, p);
    assert multiset(idle)[p] + multiset(fired)[p] == multiset(all)[p];
  }

  class Weapon {
    const user: Entity
    var coolDown: real
    var coolDownDelay: real
    /** Ammo is tracked once `ammo.max` is set; until then it is unlimited. */
    var ammoInfinite: bool
    var ammoMax: int
    var ammoAmount: int
    var cost: int
    var projectiles: seq<Projectile>
    var projectilesIdle: seq<Projectile>
    var projectilesFired: seq<Projectile>
    /** The payloads of the `EVENT_AMMO_CHANGED` events triggered so far. */
    var ammoChanged: seq<Weapon>
    var worldCalls: seq<WorldCall>

    ghost predicate Valid()
      reads this
    {
      PoolsConserved(projectiles, projectilesIdle, projectilesFired)
    }

    /** The gate `fire` applies: no cooldown left, enough ammo when ammo is
        tracked, and an idle projectile when the weapon uses projectiles. */
    predicate Ready()
      reads this
    {
      !(coolDownDelay > 0.0)
      && !(!ammoInfinite && ammoAmount < cost)
      && !(|projectiles| != 0 && |projectilesIdle| == 0)
    }

    twostate predicate PoolsUnchanged()
      reads this
    {
      projectiles == old(projectiles) && projectilesIdle == old(projectilesIdle)
      && projectilesFired == old(projectilesFired) && worldCalls == old(worldCalls)
    }

    twostate predicate SettingsUnchanged()
      reads this
    {
      coolDown == old(coolDown) && cost == old(cost)
      && ammoInfinite == old(ammoInfinite) && ammoMax == old(ammoMax)
    }

    constructor (user: Entity)
      ensures this.user == user && Valid()
      ensures coolDown == 0.0 && coolDownDelay == 0.0 && cost == 1
      ensures ammoInfinite && ammoMax == 0 && ammoAmount == 0
      ensures projectiles == [] && projectilesIdle == [] && projectilesFired == []
      ensures ammoChanged == [] && worldCalls == []
    {
      this.user := user;
      coolDown := 0.0;
      coolDownDelay := 0.0;
      ammoInfinite := true;
      ammoMax := 0;
      ammoAmount := 0;
      cost := 1;
      projectiles := [];
      projectilesIdle := [];
      projectilesFired := [];
      ammoChanged := [];
      worldCalls := [];
    }

    method SetCoolDown(duration: real)
      modifies this
      ensures coolDown == duration && coolDownDelay == old(coolDownDelay)
      ensures cost == old(cost) && ammoInfinite == old(ammoInfinite) && ammoMax == old(ammoMax)
      ensures ammoAmount == old(ammoAmount) && ammoChanged == old(ammoChanged) && PoolsUnchanged()
    {
      coolDown := duration;
    }

    /** Setting `ammo.max`: ammo becomes tracked and starts full. */
    method SetAmmoMax(max: int)
      modifies this
      ensures !ammoInfinite && ammoMax == max && ammoAmount == max
      ensures coolDown == old(coolDown) && coolDownDelay == old(coolDownDelay) && cost == old(cost)
      ensures ammoChanged == old(ammoChanged) && PoolsUnchanged()
    {
      ammoInfinite := false;
      ammoMax := max;
      ammoAmount := max;
    }

    /** `fire`: refuse unless `Ready()`; otherwise pay the cost and announce
        it when ammo is tracked, and start the cooldown. */
    method Fire() returns (ok: bool)
      modifies this
      ensures ok == old(Ready())
      ensures !ok ==> unchanged(this)
      ensures ok ==> coolDownDelay == coolDown
      ensures ok && !ammoInfinite ==>
        ammoAmount == old(ammoAmount) - cost && ammoChanged == old(ammoChanged) + [this]
      ensures ok && ammoInfinite ==>
        ammoAmount == old(ammoAmount) && ammoChanged == old(ammoChanged)
      ensures SettingsUnchanged() && PoolsUnchanged()
    {
      if coolDownDelay > 0.0 {
        return false;
      }
      if !ammoInfinite && ammoAmount < cost {
        return false;
      }
      if |projectiles| != 0 && |projectilesIdle| == 0 {
        return false;
      }
      if !ammoInfinite {
        ammoAmount := ammoAmount - cost;
        ammoChanged := ammoChanged + [this];
      }
      coolDownDelay := coolDown;
      return true;
    }

    /** `timeShift`: the remaining cooldown shrinks by `dt`, never below 0. */
    method TimeShift(dt: real)
      modifies this
      ensures old(coolDownDelay) - dt > 0.0 ==> coolDownDelay == old(coolDownDelay) - dt
      ensures old(coolDownDelay) - dt <= 0.0 ==> coolDownDelay == 0.0
      ensures ammoAmount == old(ammoAmount) && ammoChanged == old(ammoChanged)
      ensures SettingsUnchanged() && PoolsUnchanged()
    {
      var left := coolDownDelay - dt;
      coolDownDelay := if left > 0.0 then left else 0.0;
    }

    /** `addProjectile`: a new pool slot, idle. */
    method AddProjectile(p: Projectile)
      requires Valid()
      modifies this
      ensures Valid()
      ensures projectiles == old(projectiles) + [p] && projectilesIdle == old(projectilesIdle) + [p]
      ensures projectilesFired == old(projectilesFired) && worldCalls == old(worldCalls)
      ensures coolDownDelay == old(coolDownDelay) && ammoAmount == old(ammoAmount)
      ensures ammoChanged == old(ammoChanged) && SettingsUnchanged()
    {
      projectiles := projectiles + [p];
      projectilesIdle := projectilesIdle + [p];
    }

    /** `getProjectile`: the next idle projectile, if any; it stays idle until
        `emit` moves it. */
    method GetProjectile() returns (r: Option<Projectile>)
      ensures r.None? <==> |projectilesIdle| == 0
      ensures r.Some? ==> r.value == projectilesIdle[0] && r.value in projectilesIdle
    {
      if |projectilesIdle| == 0 {
        return None;
      }
      return Some(projectilesIdle[0]);
    }

    /** `emit`: move the projectile from idle to fired, restart its clock,
        give it the user's time stretch and the user as emitter, and add it
        to the user's world. */
    method Emit(p: Projectile)
      requires Valid()
      modifies this, p
      ensures Valid()
      ensures projectilesIdle == Transfer(old(projectilesIdle), old(projectilesFired), p).0
      ensures projectilesFired == Transfer(old(projectilesIdle), old(projectilesFired), p).1
      ensures p.time == 0.0 && p.timeStretch == user.timeStretch && p.emitter == user
      ensures worldCalls == old(worldCalls) + [AddObject(p)]
      ensures projectiles == old(projectiles) && coolDownDelay == old(coolDownDelay)
      ensures ammoAmount == old(ammoAmount) && ammoChanged == old(ammoChanged) && SettingsUnchanged()
    {
      TransferConserves(projectilesIdle, projectilesFired, p);
      var moved := Transfer(projectilesIdle, projectilesFired, p);
      p.Launch(user);
      projectilesIdle, projectilesFired := moved.0, moved.1;
      worldCalls := worldCalls + [AddObject(p)];
    }

    /** `recycleProjectile`: move the projectile from fired back to idle and
        remove it from the user's world. */
    method RecycleProjectile(p: Projectile)
      requires Valid()
      modifies this
      ensures Valid()
      ensures projectilesFired == Transfer(old(projectilesFired), old(projectilesIdle), p).0
      ensures projectilesIdle == Transfer(old(projectilesFired), old(projectilesIdle), p).1
      ensures worldCalls == old(worldCalls) + [RemoveObject(p)]
      ensures projectiles == old(projectiles) && coolDownDelay == old(coolDownDelay)
      ensures ammoAmount == old(ammoAmount) && ammoChanged == old(ammoChanged) && SettingsUnchanged()
    {
      TransferConserves(projectilesFired, projectilesIdle, p);
      var moved := Transfer(projectilesFired, projectilesIdle, p);
      projectilesFired, projectilesIdle := moved.0, moved.1;
      worldCalls := worldCalls + [RemoveObject(p)];
    }
  }

  /** weapon.js "should honor cooldown time". */
  method HonorsCoolDown(user: Entity)
  {
    var w := new Weapon(user);
    w.SetCoolDown(1.0);
    var ok := w.Fire();
    assert ok && w.coolDownDelay == w.coolDown;
    w.TimeShift(0.9);
    ok := w.Fire();
    assert !ok;
    w.TimeShift(0.1);
    ok := w.Fire();
    assert ok;
  }

  /** weapon.js "should honor projectile stash". */
  method HonorsProjectileStash(user: Entity)
  {
    var w := new Weapon(user);
    var p := new Projectile();
    w.AddProjectile(p);
    var ok := w.Fire();
    assert ok;
    var next := w.GetProjectile();
    assert next == Some(p);
    w.Emit(next.value);
    assert w.worldCalls == [AddObject(p)];
    assert w.projectilesIdle == [];
    ok := w.Fire();
    assert !ok;
  }

  /** weapon.js "should decrease and honor ammo limit" and "should trigger
      ammo change event": ten shots, each paying one and announcing it once,
      then a refusal. */
  method HonorsAmmoLimit(user: Entity)
  {
    var w := new Weapon(user);
    w.SetAmmoMax(10);
    w.cost := 1;
    var i := 10;
    while i != 0
      invariant 0 <= i <= 10
      invariant w.ammoAmount == i && !w.ammoInfinite && w.cost == 1
      invariant w.coolDown == 0.0 && w.coolDownDelay == 0.0 && w.projectiles == []
      invariant |w.ammoChanged| == 10 - i
      invariant forall k :: 0 <= k < |w.ammoChanged| ==> w.ammoChanged[k] == w
      decreases i
    {
      var ok := w.Fire();
      assert ok && w.ammoAmount == i - 1;
      i := i - 1;
    }
    var ok := w.Fire();
    assert !ok && |w.ammoChanged| == 10;
  }

  /** weapon.js "#emit" and "#recycleProjectile": the round trip through the
      pools and the world calls it makes. */
  method EmitAndRecycle(user: Entity)
  {
    var w := new Weapon(user);
    var p := new Projectile();
    p.time := 10.0;
    w.AddProjectile(p);
    assert w.projectiles == [p] && w.projectilesIdle == [p] && w.projectilesFired == [];
    w.Emit(p);
    assert w.projectilesIdle == [] && w.projectilesFired == [p];
    assert p.time == 0.0 && p.emitter == user && p.timeStretch == user.timeStretch;
    w.RecycleProjectile(p);
    assert w.projectilesIdle == [p] && w.projectilesFired == [];
    assert w.worldCalls == [AddObject(p), RemoveObject(p)];
  }
}
