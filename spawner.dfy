/** The Spawner asset (src/object/Spawner.js): a gated factory that lives in a
    World (`scene`), tracks the objects it spawned, and tries to spawn from its
    time accumulator.  `Math.random` is a nondeterministic choice of index and
    `position.distanceTo` a given function from entity to distance. */
module SpawnerAsset {
  import opened Engine
  import opened EngineWorld

  /** One entry of `spawnSource`: what `new spawnSource[index]()` constructs. */
  datatype Factory = Factory(id: string, isEngineObject: bool, isPlayer: bool, model: Option<nat>)

  /** What `spawnObject` does: returns `false`, returns the new object, or throws a TypeError. */
  datatype SpawnResult = Refused | Spawned(obj: Entity) | Threw

  /** `e` is what `f` constructs. */
  ghost predicate Builds(f: Factory, e: Entity)
  {
    e.id == f.id && e.isEngineObject == f.isEngineObject && e.isPlayer == f.isPlayer && e.model == f.model
  }

  /** JavaScript truthiness of a number that may be `undefined`. */
  predicate Truthy(x: Option<real>)
  {
    x.Some? && x.value != 0.0
  }

  /** `dist > maxDistance || dist < minDistance`; a comparison with `undefined` is false. */
  predicate OutOfRange(dist: real, minDistance: Option<real>, maxDistance: Option<real>)
  {
    (maxDistance.Some? && dist > maxDistance.value) || (minDistance.Some? && dist < minDistance.value)
  }

  /** Every player among `objects` is within the distance window. */
  ghost predicate PlayersInWindow(objects: seq<Entity>, distance: Entity -> real, minDistance: Option<real>, maxDistance: Option<real>)
  {
    forall i :: 0 <= i < |objects| && objects[i].isPlayer ==> !OutOfRange(distance(objects[i]), minDistance, maxDistance)
  }

  /** The distance gate with `minDistance` 0 and `maxDistance` 256: only the
      upper bound is truthy, so the window is looked at; a player 300 away
      closes it and one 100 away leaves it open. */
  lemma DistanceGate(player: Entity)
    requires player.isPlayer
    ensures !Truthy(Some(0.0)) && Truthy(Some(256.0))
    ensures !PlayersInWindow([player], _ => 300.0, Some(0.0), Some(256.0))
    ensures PlayersInWindow([player], _ => 100.0, Some(0.0), Some(256.0))
  {
    assert [player][0].isPlayer;
  }

  /** `spawnCount--`: `undefined--` is NaN, which is again never `< 1`, so `None` stays `None`. */
  function Decremented(count: Option<int>): Option<int>
  {
    if count.Some? then Some(count.value - 1) else None
  }

  /** The tracking list after `cleanReferences`. The `for..in` loop splices
      the current entry out when the scene no longer holds it and then moves
      on to the next key, so the entry that slid into the removed one's place
      is never looked at. */
  function Pruned(tracked: seq<Entity>, live: seq<Entity>): (r: seq<Entity>)
    ensures |r| <= |tracked|
  {
    if |tracked| == 0 then []
    else if tracked[0] in live then [tracked[0]] + Pruned(tracked[1..], live)
    else if |tracked| == 1 then []
    else [tracked[1]] + Pruned(tracked[2..], live)
  }

  /** `a` is `b` with some entries left out, the others in their order. */
  ghost predicate Subsequence(a: seq<Entity>, b: seq<Entity>)
    decreases |b|
  {
    if |a| == 0 then true
    else if |b| == 0 then false
    else (a[0] == b[0] && Subsequence(a[1..], b[1..])) || Subsequence(a, b[1..])
  }

  /** Pruning keeps the kept entries in their relative order. */
  lemma {:induction false} PrunedIsSubsequence(tracked: seq<Entity>, live: seq<Entity>)
    ensures Subsequence(Pruned(tracked, live), tracked)
  {
    if |tracked| > 0 {
      if tracked[0] in live {
        PrunedIsSubsequence(tracked[1..], live);
      } else if |tracked| > 1 {
        PrunedIsSubsequence(tracked[2..], live);
        var r := Pruned(tracked, live);
        assert r[1..] == Pruned(tracked[2..], live);
        assert tracked[1..][1..] == tracked[2..];
        assert Subsequence(r, tracked[1..]);
      }
    }
  }

  /** How many entries of `s` are `x`. */
  ghost function Occurrences(s: seq<Entity>, x: Entity): nat
  {
    if |s| == 0 then 0 else (if s[0] == x then 1 else 0) + Occurrences(s[1..], x)
  }

  lemma {:induction false} OccurrencesIsMultiset(s: seq<Entity>, x: Entity)
    ensures multiset(s)[x] == Occurrences(s, x)
  {
    if |s| > 0 {
      OccurrencesIsMultiset(s[1..], x);
      assert s == [s[0]] + s[1..];
    }
  }

  lemma OccurrencesCons(a: Entity, r: seq<Entity>, x: Entity)
    ensures Occurrences([a] + r, x) == (if a == x then 1 else 0) + Occurrences(r, x)
  {
    assert ([a] + r)[1..] == r;
  }

  /** Pruning never adds a copy, and keeps every copy of an entry the scene holds. */
  lemma {:induction false} PrunedOccurrences(tracked: seq<Entity>, live: seq<Entity>, x: Entity)
    ensures Occurrences(Pruned(tracked, live), x) <= Occurrences(tracked, x)
    ensures x in live ==> Occurrences(Pruned(tracked, live), x) == Occurrences(tracked, x)
  {
    if |tracked| > 0 {
      if tracked[0] in live {
        PrunedOccurrences(tracked[1..], live, x);
        OccurrencesCons(tracked[0], Pruned(tracked[1..], live), x);
      } else if |tracked| > 1 {
        PrunedOccurrences(tracked[2..], live, x);
        OccurrencesCons(tracked[1], Pruned(tracked[2..], live), x);
        assert tracked[1..][1..] == tracked[2..];
      }
    }
  }

  /** Occurrence counts decide multiset inclusion and equal counts. */
  lemma OccurrencesBound(p: seq<Entity>, t: seq<Entity>, live: seq<Entity>)
    requires forall x :: Occurrences(p, x) <= Occurrences(t, x)
    requires forall x :: x in live ==> Occurrences(p, x) == Occurrences(t, x)
    ensures multiset(p) <= multiset(t)
    ensures forall x :: x in live ==> multiset(p)[x] == multiset(t)[x]
  {
    forall x
      ensures multiset(p)[x] == Occurrences(p, x) && multiset(t)[x] == Occurrences(t, x)
    {
      OccurrencesIsMultiset(p, x);
      OccurrencesIsMultiset(t, x);
    }
  }

  /** Pruning removes only entries absent from the scene: every entry the scene
      still holds keeps all its copies, and nothing is added. */
  lemma PrunedRemovesOnlyAbsent(tracked: seq<Entity>, live: seq<Entity>)
    ensures multiset(Pruned(tracked, live)) <= multiset(tracked)
    ensures forall x :: x in live ==> multiset(Pruned(tracked, live))[x] == multiset(tracked)[x]
  {
    forall x
      ensures Occurrences(Pruned(tracked, live), x) <= Occurrences(tracked, x)
      ensures x in live ==> Occurrences(Pruned(tracked, live), x) == Occurrences(tracked, x)
    {
      PrunedOccurrences(tracked, live, x);
    }
    OccurrencesBound(Pruned(tracked, live), tracked, live);
  }

  /** Pruning is not complete: of two adjacent stale entries, the second survives. */
  lemma PrunedSkipsAfterRemoval(a: Entity, b: Entity, live: seq<Entity>)
    requires a !in live && b !in live
    ensures Pruned([a, b], live) == [b]
  {
  }

  /** The state of the `for..in` loop of `cleanReferences` at key `i`. */
  ghost predicate PruneAt(target: seq<Entity>, tracked: seq<Entity>, i: nat, live: seq<Entity>)
  {
    if i <= |tracked| then target == tracked[..i] + Pruned(tracked[i..], live)
    else i == |tracked| + 1 && target == tracked
  }

  /** Visiting a key whose entry the scene still holds. */
  lemma PruneKeep(target: seq<Entity>, tracked: seq<Entity>, i: nat, live: seq<Entity>)
    requires PruneAt(target, tracked, i, live) && i < |tracked| && tracked[i] in live
    ensures PruneAt(target, tracked, i + 1, live)
  {

  }

  /** Visiting a key whose entry the scene no longer holds: splice it, go on to key `i + 1`. */
  lemma PruneSplice(target: seq<Entity>, tracked: seq<Entity>, i: nat, live: seq<Entity>)
    requires PruneAt(target, tracked, i, live) && i < |tracked| && tracked[i] !in live
    ensures PruneAt(target, RemoveAt(tracked, i), i + 1, live)
  {
    var next := RemoveAt(tracked, i);
    if i + 1 < |tracked| {
      assert tracked[i..][1..] == tracked[i + 1..];
      assert tracked[i..][2..] == tracked[i + 2..];
      assert next[..i + 1] == tracked[..i] + [tracked[i + 1]];
      assert next[i + 1..] == tracked[i + 2..];
    } else {
      assert next == tracked[..i];
    }
  }

  /** The loop stops once the key is past the end. */
  lemma PruneEnd(target: seq<Entity>, tracked: seq<Entity>, i: nat, live: seq<Entity>)
    requires PruneAt(target, tracked, i, live) && i >= |tracked|
    ensures target == tracked
  {

  }

  /** The distance loop of `spawnObject`: false at the first player outside the window. */
  method PlayersInRange(objects: seq<Entity>, distance: Entity -> real,
                        minDistance: Option<real>, maxDistance: Option<real>) returns (ok: bool)
    ensures ok <==> forall i :: 0 <= i < |objects| && objects[i].isPlayer ==>
                               !OutOfRange(distance(objects[i]), minDistance, maxDistance)
  {
    var i := 0;
    while i < |objects|
      invariant 0 <= i <= |objects|
      invariant forall j :: 0 <= j < i && objects[j].isPlayer ==> !OutOfRange(distance(objects[j]), minDistance, maxDistance)
    {
      var o := objects[i];
      if o.isPlayer {
        var dist := distance(o);
        if OutOfRange(dist, minDistance, maxDistance) {
          return false;
        }
      }
      i := i + 1;
    }
    return true;
  }

  class Spawner {
    const scene: World
    var position: Vec
    var maxSimultaneousSpawns: int
    var spawnCount: Option<int>
    var spawnInterval: Option<real>
    var spawnSource: seq<Factory>
    var spawnedObjects: seq<Entity>
    var minDistance: Option<real>
    var maxDistance: Option<real>
    var timeSinceLastSpawn: real

    /** A fresh spawner, bound to the World it lives in. */
    constructor (scene: World)
      ensures this.scene == scene && position == Origin
      ensures maxSimultaneousSpawns == 1 && spawnCount == None && spawnInterval == None
      ensures spawnSource == [] && spawnedObjects == []
      ensures minDistance == None && maxDistance == Some(256.0)
      ensures timeSinceLastSpawn == 0.0
    {
      this.scene := scene;
      position := Origin;
      maxSimultaneousSpawns := 1;
      spawnCount := None;
      spawnInterval := None;
      spawnSource := [];
      spawnedObjects := [];
      minDistance := None;
      maxDistance := Some(256.0);
      timeSinceLastSpawn := 0.0;
    }

    /** Every field except the tracking list and the count, as it was. */
    twostate predicate SettingsUnchanged()
      reads this
    {
      position == old(position) && maxSimultaneousSpawns == old(maxSimultaneousSpawns)
      && spawnInterval == old(spawnInterval) && spawnSource == old(spawnSource)
      && minDistance == old(minDistance) && maxDistance == old(maxDistance)
      && timeSinceLastSpawn == old(timeSinceLastSpawn)
    }

    /** `cleanReferences`. */
    method CleanReferences()
      modifies this
      ensures spawnedObjects == Pruned(old(spawnedObjects), scene.objects)
      ensures SettingsUnchanged() && spawnCount == old(spawnCount)
    {
      ghost var target := Pruned(spawnedObjects, scene.objects);
      assert spawnedObjects[..0] == [] && spawnedObjects[0..] == spawnedObjects;
      var i := 0;
      while i < |spawnedObjects|
        invariant PruneAt(target, spawnedObjects, i, scene.objects)
        invariant SettingsUnchanged() && spawnCount == old(spawnCount)
        decreases |spawnedObjects| + 1 - i
      {
        if spawnedObjects[i] !in scene.objects {
          PruneSplice(target, spawnedObjects, i, scene.objects);
          spawnedObjects := RemoveAt(spawnedObjects, i);
        } else {
          PruneKeep(target, spawnedObjects, i, scene.objects);
        }
        i := i + 1;
      }
      PruneEnd(target, spawnedObjects, i, scene.objects);
    }

    /** The three gates of `spawnObject`, in order: the simultaneous-spawn cap,
        the players' distance window (looked at only when either bound is
        truthy), and the remaining count. */
    method GatesOpen(distance: Entity -> real) returns (open: bool)
      ensures open <==>
        |spawnedObjects| < maxSimultaneousSpawns
        && ((Truthy(minDistance) || Truthy(maxDistance)) ==> PlayersInWindow(scene.objects, distance, minDistance, maxDistance))
        && !(spawnCount.Some? && spawnCount.value < 1)
    {
      if |spawnedObjects| >= maxSimultaneousSpawns {
        return false;
      }
      if Truthy(minDistance) || Truthy(maxDistance) {
        var ok := PlayersInRange(scene.objects, distance, minDistance, maxDistance);
        if !ok {
          return false;
        }
      }
      if spawnCount.Some? && spawnCount.value < 1 {
        return false;
      }
      return true;
    }

    /** The part of `spawnObject` after the gates: count down, pick a source at
        random, construct it at the spawner's position, track it, add it to the scene. */
    method Instantiate() returns (r: SpawnResult)
      requires scene.Valid()
      modifies this, scene
      ensures scene.Valid() && SettingsUnchanged() && r != Refused
      ensures spawnCount == Decremented(old(spawnCount))
      ensures |spawnSource| == 0 ==> r == Threw && spawnedObjects == old(spawnedObjects) && unchanged(scene)
      // with a source to pick, exactly one fresh object built from one of them is tracked,
      // and it is spawned exactly when it is an `Engine.Object`
      ensures |spawnSource| > 0 ==>
        var n := |old(spawnedObjects)|;
        |spawnedObjects| == n + 1 && spawnedObjects[..n] == old(spawnedObjects)
        && fresh(spawnedObjects[n]) && spawnedObjects[n].position == position
        && (exists k :: 0 <= k < |spawnSource| && Builds(spawnSource[k], spawnedObjects[n]))
        && (r.Spawned? <==> spawnedObjects[n].isEngineObject)
      ensures r == Threw ==> unchanged(scene)
      ensures r.Spawned? ==>
        r.obj == spawnedObjects[|old(spawnedObjects)|]
        && scene.objects == old(scene.objects) + [r.obj]
        && scene.objectsDead == old(scene.objectsDead) + [false]
        && scene.calls == old(scene.calls) + BindCalls(r.obj)
        && scene.timeStretch == old(scene.timeStretch) && scene.timeTotal == old(scene.timeTotal)
        && scene.HasObject(r.obj)
    {
      spawnCount := Decremented(spawnCount);
      if |spawnSource| == 0 {
        // `new undefined()`
        return Threw;
      }
      var index :| 0 <= index < |spawnSource|;
      var source := spawnSource[index];
      var obj := new Entity(source.id, source.isEngineObject, source.isPlayer, source.model);
      obj.position := position;
      spawnedObjects := spawnedObjects + [obj];
      assert spawnedObjects[..|old(spawnedObjects)|] == old(spawnedObjects);
      assert Builds(spawnSource[index], obj);
      var added := scene.AddObject(obj);
      if added == TypeError {
        return Threw;
      }
      return Spawned(obj);
    }

    /** What one `spawnObject` call does, from the state before it to the state
        after it: prune, then refuse exactly when a gate is shut, otherwise
        decrement the count and build, track and register one object. The
        settings other than the accumulator are kept. */
    twostate predicate SpawnEffect(new r: SpawnResult, distance: Entity -> real)
      reads this, scene, spawnedObjects
    {
      var kept := Pruned(old(spawnedObjects), old(scene.objects));
      var full := |kept| >= maxSimultaneousSpawns;
      var far := (Truthy(minDistance) || Truthy(maxDistance))
                 && !PlayersInWindow(old(scene.objects), distance, minDistance, maxDistance);
      var empty := old(spawnCount).Some? && old(spawnCount).value < 1;
      && position == old(position) && maxSimultaneousSpawns == old(maxSimultaneousSpawns)
      && spawnInterval == old(spawnInterval) && spawnSource == old(spawnSource)
      && minDistance == old(minDistance) && maxDistance == old(maxDistance)
      && scene.Valid()
      && (r == Refused <==> full || far || empty)
      && (r == Refused ==> spawnCount == old(spawnCount) && spawnedObjects == kept && unchanged(scene))
      && (r != Refused ==> spawnCount == Decremented(old(spawnCount)))
      && (r != Refused && |spawnSource| == 0 ==> r == Threw && spawnedObjects == kept && unchanged(scene))
      && (r != Refused && |spawnSource| > 0 ==>
            |spawnedObjects| == |kept| + 1 && spawnedObjects[..|kept|] == kept
            && fresh(spawnedObjects[|kept|]) && spawnedObjects[|kept|].position == position
            && (exists k :: 0 <= k < |spawnSource| && Builds(spawnSource[k], spawnedObjects[|kept|]))
            && (r.Spawned? <==> spawnedObjects[|kept|].isEngineObject))
      && (r == Threw ==> unchanged(scene))
      && (r.Spawned? ==>
            r.obj == spawnedObjects[|kept|]
            && scene.objects == old(scene.objects) + [r.obj]
            && scene.objectsDead == old(scene.objectsDead) + [false]
            && scene.calls == old(scene.calls) + BindCalls(r.obj)
            && scene.timeStretch == old(scene.timeStretch) && scene.timeTotal == old(scene.timeTotal)
            && scene.HasObject(r.obj))
    }

    /** `spawnObject`: prune the tracking list, then the gates, then spawn. */
    method SpawnObject(distance: Entity -> real) returns (r: SpawnResult)
      requires scene.Valid()
      modifies this, scene
      ensures scene.Valid() && SettingsUnchanged()
      ensures SpawnEffect(r, distance)
    {
      CleanReferences();
      var open := GatesOpen(distance);
      if !open {
        return Refused;
      }
      r := Instantiate();
    }

    /** `timeShift`: accumulate; once the interval is reached, attempt a spawn
        and restart the accumulator only if it succeeded. `attempt` is the
        attempt's outcome, `None` when none was made. */
    method TimeShift(dt: real, distance: Entity -> real) returns (attempt: Option<SpawnResult>)
      requires scene.Valid()
      modifies this, scene
      ensures scene.Valid()
      ensures attempt.Some? ==> SpawnEffect(attempt.value, distance)
      ensures attempt.Some? <==> old(spawnInterval).Some? && old(timeSinceLastSpawn) + dt >= old(spawnInterval).value
      ensures timeSinceLastSpawn == if attempt.Some? && attempt.value.Spawned? then 0.0
                                    else old(timeSinceLastSpawn) + dt
      ensures attempt.None? ==>
        spawnedObjects == old(spawnedObjects) && spawnCount == old(spawnCount) && unchanged(scene)
      ensures position == old(position) && spawnInterval == old(spawnInterval) && spawnSource == old(spawnSource)
      ensures maxSimultaneousSpawns == old(maxSimultaneousSpawns)
      ensures minDistance == old(minDistance) && maxDistance == old(maxDistance)
    {
      timeSinceLastSpawn := timeSinceLastSpawn + dt;
      attempt := None;
      if spawnInterval.Some? && timeSinceLastSpawn >= spawnInterval.value {
        var r := SpawnObject(distance);
        attempt := Some(r);
        if r.Spawned? {
          timeSinceLastSpawn := 0.0;
        }
      }
    }
  }

  /** The distance gate end to end: a fresh-looking spawner with bounds 0 and
      256, nothing tracked, a count left and only `Engine.Object` sources
      spawns when every player is 100 away. */
  method SpawnsWhenPlayersNear(s: Spawner)
    requires s.scene.Valid() && s.spawnedObjects == [] && s.maxSimultaneousSpawns == 1
    requires s.minDistance == Some(0.0) && s.maxDistance == Some(256.0) && s.spawnCount == None
    requires |s.spawnSource| > 0 && forall k :: 0 <= k < |s.spawnSource| ==> s.spawnSource[k].isEngineObject
    modifies s, s.scene
  {
    var r := s.SpawnObject(_ => 100.0);
    assert r.Spawned? && s.spawnedObjects == [r.obj];
  }

  /** The other half: with a player in the scene 300 away, the same spawner refuses. */
  method RefusesWhenPlayerFar(s: Spawner, player: Entity)
    requires s.scene.Valid() && player in s.scene.objects && player.isPlayer
    requires s.minDistance == Some(0.0) && s.maxDistance == Some(256.0)
    modifies s, s.scene
  {
    var r := s.SpawnObject(_ => 300.0);
    assert r == Refused;
  }

  /** The timer end to end: every gate open and the interval of 1 passed by a
      step of 2, so the attempt spawns and restarts the accumulator. */
  method TimerSpawns(s: Spawner)
    requires s.scene.Valid() && s.spawnedObjects == [] && s.maxSimultaneousSpawns == 1
    requires s.minDistance == None && s.maxDistance == None && s.spawnCount == None
    requires |s.spawnSource| > 0 && forall k :: 0 <= k < |s.spawnSource| ==> s.spawnSource[k].isEngineObject
    requires s.spawnInterval == Some(1.0) && s.timeSinceLastSpawn == 0.0
    modifies s, s.scene
  {
    var attempt := s.TimeShift(2.0, _ => 0.0);
    assert attempt.Some? && attempt.value.Spawned? && s.timeSinceLastSpawn == 0.0;
    assert |s.spawnedObjects| == 1 && s.scene.HasObject(s.spawnedObjects[0]);
  }
}
