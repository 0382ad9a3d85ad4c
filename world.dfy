/** The World's object registry (src/engine/World.js): a live list `objects`
    with a parallel list of tombstones `objectsDead`, deferred removal, a sweep
    that runs at one fixed point of the tick, and the tick itself.  The
    collision subsystem, the scene graph, the entities' own `timeShift` /
    `setWorld` / `unsetWorld` and the event bus are collaborators: every call
    made on them is appended, in order, to `calls`. */
module EngineWorld {
  import opened Engine

  /** One call from the World into a collaborator. */
  datatype Call =
    | SetWorld(obj: Entity)                          // object.setWorld(world)
    | UnsetWorld(obj: Entity)                        // object.unsetWorld()
    | CollisionAdd(obj: Entity)                      // collision.addObject(object)
    | CollisionRemove(obj: Entity)                   // collision.removeObject(object)
    | SceneAdd(model: nat)                           // scene.add(object.model)
    | SceneRemove(model: nat)                        // scene.remove(object.model)
    | TimeShift(obj: Entity, delta: real, total: real) // object.timeShift(delta, total)
    | Detect(seen: seq<Entity>)                      // collision.detect(), with the live list it runs beside
    | Update(delta: real, total: real)               // events.trigger(EVENT_UPDATE, [delta, total])

  /** Result of `addObject` / `removeObject`: normal return, or the thrown TypeError. */
  datatype Outcome = Done | TypeError

  /** The calls `addObject` makes once it decides to register `o`. */
  function BindCalls(o: Entity): seq<Call>
  {
    [CollisionAdd(o)] + (if o.model.Some? then [SceneAdd(o.model.value)] else []) + [SetWorld(o)]
  }

  /** The calls `_cleanObject` makes for one swept object. */
  function CleanCalls(o: Entity): seq<Call>
  {
    [UnsetWorld(o), CollisionRemove(o)] + (if o.model.Some? then [SceneRemove(o.model.value)] else [])
  }

  /** The `timeShift` calls of one tick's `forEach`, one per entry, in list order. */
  function ShiftCalls(objs: seq<Entity>, delta: real, total: real): (r: seq<Call>)
    ensures |r| == |objs|
    ensures forall i :: 0 <= i < |objs| ==> r[i] == TimeShift(objs[i], delta, total)
  {
    if |objs| == 0 then []
    else ShiftCalls(objs[..|objs| - 1], delta, total) + [TimeShift(objs[|objs| - 1], delta, total)]
  }

  /** The entries a sweep keeps: the unmarked ones, in their original order. */
  function Unmarked(objs: seq<Entity>, dead: seq<bool>): (r: seq<Entity>)
    requires |objs| == |dead|
    ensures |r| <= |objs|
  {
    if |objs| == 0 then []
    else (if dead[0] then [] else [objs[0]]) + Unmarked(objs[1..], dead[1..])
  }

  /** The collaborator calls a sweep makes: `_cleanObject` of every marked entry, in order. */
  function SweepCalls(objs: seq<Entity>, dead: seq<bool>): seq<Call>
    requires |objs| == |dead|
  {
    if |objs| == 0 then []
    else (if dead[0] then CleanCalls(objs[0]) else []) + SweepCalls(objs[1..], dead[1..])
  }

  /** The markers after `removeObject(o)`: only the first occurrence of `o` is
      marked, whatever its marker was; nothing changes when `o` is absent. */
  function Mark(objs: seq<Entity>, dead: seq<bool>, o: Entity): (r: seq<bool>)
    requires |objs| == |dead|
    ensures |r| == |dead|
    ensures forall i :: 0 <= i < |r| ==> r[i] == (dead[i] || (o in objs && i == IndexOf(objs, o)))
  {
    if o in objs then dead[IndexOf(objs, o) := true] else dead
  }

  /** The markers after `removeObject` of each of `removals`, in order. A
      marker is set afterwards exactly when it was set before or it is the
      first occurrence of one of the removed objects. */
  function MarkAll(objs: seq<Entity>, dead: seq<bool>, removals: seq<Entity>): (r: seq<bool>)
    requires |objs| == |dead|
    ensures |r| == |dead|
    ensures forall i :: 0 <= i < |r| ==>
      (r[i] <==> dead[i] || exists k :: 0 <= k < |removals| && removals[k] in objs && i == IndexOf(objs, removals[k]))
  {
    if |removals| == 0 then dead
    else
      var prev := MarkAll(objs, dead, removals[..|removals| - 1]);
      var last := removals[|removals| - 1];
      var r := Mark(objs, prev, last);
      assert forall k :: 0 <= k < |removals| - 1 ==> removals[..|removals| - 1][k] == removals[k];
      r
  }

  /** A sweep keeps an object exactly when some unmarked entry holds it. */
  lemma {:induction false} UnmarkedMembers(objs: seq<Entity>, dead: seq<bool>, x: Entity)
    requires |objs| == |dead|
    ensures x in Unmarked(objs, dead) <==> exists i :: 0 <= i < |objs| && objs[i] == x && !dead[i]
  {
    if |objs| > 0 {
      UnmarkedMembers(objs[1..], dead[1..], x);
      if exists i :: 0 <= i < |objs| && objs[i] == x && !dead[i] {
        var i :| 0 <= i < |objs| && objs[i] == x && !dead[i];
        if i > 0 {
          assert objs[1..][i - 1] == x && !dead[1..][i - 1];
        }
      }
      if x in Unmarked(objs[1..], dead[1..]) {
        var i :| 0 <= i < |objs| - 1 && objs[1..][i] == x && !dead[1..][i];
        assert objs[i + 1] == x && !dead[i + 1];
      }
    }
  }

  /** A sweep with no marker set changes nothing. */
  lemma {:induction false} UnmarkedNoneMarked(objs: seq<Entity>, dead: seq<bool>)
    requires |objs| == |dead|
    requires forall i :: 0 <= i < |dead| ==> !dead[i]
    ensures Unmarked(objs, dead) == objs
  {
    if |objs| > 0 {
      UnmarkedNoneMarked(objs[1..], dead[1..]);
      assert objs == [objs[0]] + objs[1..];
    }
  }

  /** Every marked entry is detached (`unsetWorld` and `collision.removeObject`),
      and only marked entries are. */
  lemma {:induction false} SweptAreDetached(objs: seq<Entity>, dead: seq<bool>, x: Entity)
    requires |objs| == |dead|
    ensures (exists i :: 0 <= i < |objs| && objs[i] == x && dead[i]) ==>
      UnsetWorld(x) in SweepCalls(objs, dead) && CollisionRemove(x) in SweepCalls(objs, dead)
    ensures UnsetWorld(x) in SweepCalls(objs, dead) ==> exists i :: 0 <= i < |objs| && objs[i] == x && dead[i]
  {
    if |objs| > 0 {
      SweptAreDetached(objs[1..], dead[1..], x);
      var head := if dead[0] then CleanCalls(objs[0]) else [];
      var rest := SweepCalls(objs[1..], dead[1..]);
      assert SweepCalls(objs, dead) == head + rest;
      if exists i :: 0 <= i < |objs| && objs[i] == x && dead[i] {
        var i :| 0 <= i < |objs| && objs[i] == x && dead[i];
        if i > 0 {
          assert objs[1..][i - 1] == x && dead[1..][i - 1];
        } else {
          assert head[0] == UnsetWorld(x) && head[1] == CollisionRemove(x);
        }
      }
      if UnsetWorld(x) in head {
        assert objs[0] == x && dead[0];
      }
      if UnsetWorld(x) in rest {
        var i :| 0 <= i < |objs| - 1 && objs[1..][i] == x && dead[1..][i];
        assert objs[i + 1] == x && dead[i + 1];
      }
    }
  }

  /** The ordering promise of a tick: an object that a hook removes during the
      tick, and that the live list holds once, is gone after the sweep. */
  lemma RemovedDuringTickIsSwept(objs: seq<Entity>, dead: seq<bool>, removals: seq<Entity>, x: Entity)
    requires |objs| == |dead|
    requires forall i, j :: 0 <= i < |objs| && 0 <= j < |objs| && objs[i] == x && objs[j] == x ==> i == j
    requires x in removals && x in objs
    ensures x !in Unmarked(objs, MarkAll(objs, dead, removals))
  {
    var marks := MarkAll(objs, dead, removals);
    var k :| 0 <= k < |removals| && removals[k] == x;
    assert marks[IndexOf(objs, x)];
    UnmarkedMembers(objs, marks, x);
  }

  /** An object that is unmarked at the tick's start and that no hook removes survives the tick. */
  lemma NotRemovedSurvivesTick(objs: seq<Entity>, dead: seq<bool>, removals: seq<Entity>, i: nat)
    requires |objs| == |dead| && i < |objs| && !dead[i]
    requires objs[i] !in removals
    ensures objs[i] in Unmarked(objs, MarkAll(objs, dead, removals))
  {
    var marks := MarkAll(objs, dead, removals);
    assert forall k :: 0 <= k < |removals| ==> removals[k] != objs[i];
    assert !marks[i];
    UnmarkedMembers(objs, marks, objs[i]);
  }

  /** The state of `_cleanObjects` at cursor `i`: the spliced arrays `list` and
      `dead` and the detach calls made so far (`log`) account for the whole
      pass's `survivors` and `swept` calls; every marker before `i` is clear. */
  ghost predicate SweepAt(survivors: seq<Entity>, swept: seq<Call>, list: seq<Entity>, dead: seq<bool>, i: nat, log: seq<Call>)
  {
    |list| == |dead| && i <= |list|
    && survivors == list[..i] + Unmarked(list[i..], dead[i..])
    && swept == log + SweepCalls(list[i..], dead[i..])
    && (forall j :: 0 <= j < i ==> !dead[j])
  }

  /** Splicing out the marked entry at the cursor keeps `SweepAt`. */
  lemma SweepSplice(survivors: seq<Entity>, swept: seq<Call>, list: seq<Entity>, dead: seq<bool>, i: nat, log: seq<Call>)
    requires SweepAt(survivors, swept, list, dead, i, log) && i < |list| && dead[i]
    ensures SweepAt(survivors, swept, RemoveAt(list, i), RemoveAt(dead, i), i, log + CleanCalls(list[i]))
  {

  }

  /** Stepping over the unmarked entry at the cursor keeps `SweepAt`. */
  lemma SweepKeep(survivors: seq<Entity>, swept: seq<Call>, list: seq<Entity>, dead: seq<bool>, i: nat, log: seq<Call>)
    requires SweepAt(survivors, swept, list, dead, i, log) && i < |list| && !dead[i]
    ensures SweepAt(survivors, swept, list, dead, i + 1, log)
  {

  }

  /** At the end of the pass the arrays are the survivors, all unmarked. */
  lemma SweepEnd(survivors: seq<Entity>, swept: seq<Call>, list: seq<Entity>, dead: seq<bool>, log: seq<Call>)
    requires SweepAt(survivors, swept, list, dead, |list|, log)
    ensures survivors == list && swept == log && |dead| == |list|
    ensures forall j :: 0 <= j < |dead| ==> !dead[j]
  {

  }

  /** At the start of the pass nothing has been seen. */
  lemma SweepStart(list: seq<Entity>, dead: seq<bool>, log: seq<Call>)
    requires |list| == |dead|
    ensures SweepAt(Unmarked(list, dead), log + SweepCalls(list, dead), list, dead, 0, log)
  {

  }

  class World {
    var objects: seq<Entity>
    var objectsDead: seq<bool>
    var timeStretch: real
    var timeTotal: real
    /** Every call made on a collaborator so far, oldest first. */
    var calls: seq<Call>

    /** `objects` and `objectsDead` are parallel. */
    ghost predicate Valid()
      reads this
    {
      |objects| == |objectsDead|
    }

    constructor ()
      ensures Valid()
      ensures objects == [] && objectsDead == [] && calls == []
      ensures timeStretch == 1.0 && timeTotal == 0.0
    {
      objects, objectsDead := [], [];
      timeStretch, timeTotal := 1.0, 0.0;
      calls := [];
    }

    /** `hasObject`: looks only at the FIRST entry holding `o` and asks whether it is unmarked. */
    function HasObject(o: Entity): (r: bool)
      reads this
      requires Valid()
      ensures r ==> o in objects
      ensures r <==> exists i :: 0 <= i < |objects| && objects[i] == o && o !in objects[..i] && !objectsDead[i]
    {
      var i := IndexOf(objects, o);
      i != -1 && !objectsDead[i]
    }

    method AddObject(o: Entity) returns (r: Outcome)
      requires Valid()
      modifies this
      ensures Valid() && timeStretch == old(timeStretch) && timeTotal == old(timeTotal)
      ensures r == TypeError <==> !o.isEngineObject
      ensures r == TypeError || old(HasObject(o)) ==> unchanged(this)
      ensures r == Done && !old(HasObject(o)) ==>
        objects == old(objects) + [o] && objectsDead == old(objectsDead) + [false]
        && calls == old(calls) + BindCalls(o)
      ensures r == Done && o !in old(objects) ==> HasObject(o)
    {
      if !o.isEngineObject {
        return TypeError;
      }
      if HasObject(o) {
        return Done;
      }
      objects := objects + [o];
      objectsDead := objectsDead + [false];
      calls := calls + [CollisionAdd(o)];
      if o.model.Some? {
        calls := calls + [SceneAdd(o.model.value)];
      }
      calls := calls + [SetWorld(o)];
      r := Done;
      if o !in old(objects) {
        assert objects[..|objects| - 1] == old(objects);
      }
    }

    /** `getObject(id)`: the first entry, dead or alive, whose id is `id`; `None` for `false`. */
    method GetObject(id: string) returns (r: Option<Entity>)
      ensures r.Some? <==> exists i :: 0 <= i < |objects| && objects[i].id == id
      ensures r.Some? ==> exists i :: 0 <= i < |objects| && objects[i] == r.value && r.value.id == id &&
                                      forall j :: 0 <= j < i ==> objects[j].id != id
    {
      var i := 0;
      while i != |objects|
        invariant 0 <= i <= |objects|
        invariant forall j :: 0 <= j < i ==> objects[j].id != id
      {
        var candidate := objects[i];
        if candidate.id == id {
          return Some(candidate);
        }
        i := i + 1;
      }
      return None;
    }

    /** `removeObject`: sets the marker of the first entry holding `o`; the live list is untouched. */
    method RemoveObject(o: Entity) returns (r: Outcome)
      requires Valid()
      modifies this
      ensures Valid()
      ensures objects == old(objects) && calls == old(calls)
      ensures timeStretch == old(timeStretch) && timeTotal == old(timeTotal)
      ensures r == TypeError <==> !o.isEngineObject
      ensures objectsDead == if o.isEngineObject then Mark(objects, old(objectsDead), o) else old(objectsDead)
    {
      if !o.isEngineObject {
        return TypeError;
      }
      var index := IndexOf(objects, o);
      if index != -1 {
        objectsDead := objectsDead[index := true];
      }
      r := Done;
    }

    /** `_cleanObject`: detach one swept object from its collaborators. */
    method CleanObject(o: Entity)
      modifies this
      ensures calls == old(calls) + CleanCalls(o)
      ensures objects == old(objects) && objectsDead == old(objectsDead)
      ensures timeStretch == old(timeStretch) && timeTotal == old(timeTotal)
    {
      calls := calls + [UnsetWorld(o), CollisionRemove(o)];
      if o.model.Some? {
        calls := calls + [SceneRemove(o.model.value)];
      }
    }

    /** `_cleanObjects`: one pass that splices every marked entry out of both lists. */
    method CleanObjects()
      requires Valid()
      modifies this
      ensures Valid()
      ensures objects == Unmarked(old(objects), old(objectsDead))
      ensures forall i :: 0 <= i < |objectsDead| ==> !objectsDead[i]
      ensures calls == old(calls) + SweepCalls(old(objects), old(objectsDead))
      ensures timeStretch == old(timeStretch) && timeTotal == old(timeTotal)
    {
      ghost var survivors, swept := Unmarked(objects, objectsDead), calls + SweepCalls(objects, objectsDead);
      var dead := objectsDead;
      var list := objects;
      SweepStart(list, dead, calls);
      var i, l := 0, |list|;
      while i != l
        invariant l == |list| && SweepAt(survivors, swept, list, dead, i, calls)
        invariant timeStretch == old(timeStretch) && timeTotal == old(timeTotal)
        decreases l - i
      {
        if dead[i] {
          SweepSplice(survivors, swept, list, dead, i, calls);
          CleanObject(list[i]);
          list := RemoveAt(list, i);
          dead := RemoveAt(dead, i);
          l := l - 1;
        } else {
          SweepKeep(survivors, swept, list, dead, i, calls);
          i := i + 1;
        }
      }
      SweepEnd(survivors, swept, list, dead, calls);
      objects, objectsDead := list, dead;
    }

    /** The `forEach` of `updateTime`: every entry, dead or alive, is time-shifted
        with the scaled delta and the new total, in list order. */
    method ShiftObjects(adjustedDelta: real)
      modifies this
      ensures objects == old(objects) && objectsDead == old(objectsDead)
      ensures timeStretch == old(timeStretch) && timeTotal == old(timeTotal)
      ensures calls == old(calls) + ShiftCalls(objects, adjustedDelta, timeTotal)
    {
      var i := 0;
      while i < |objects|
        invariant 0 <= i <= |objects|
        invariant objects == old(objects) && objectsDead == old(objectsDead)
        invariant timeStretch == old(timeStretch) && timeTotal == old(timeTotal)
        invariant calls == old(calls) + ShiftCalls(objects[..i], adjustedDelta, timeTotal)
      {
        assert objects[..i + 1][..i] == objects[..i];
        calls := calls + [TimeShift(objects[i], adjustedDelta, timeTotal)];
        i := i + 1;
      }
      assert objects[..i] == objects;
    }

    /** The `removeObject` calls that hooks make within a tick, in order. */
    method RemoveObjects(removals: seq<Entity>)
      requires Valid()
      requires forall e :: e in removals ==> e.isEngineObject
      modifies this
      ensures Valid() && objects == old(objects) && calls == old(calls)
      ensures timeStretch == old(timeStretch) && timeTotal == old(timeTotal)
      ensures objectsDead == MarkAll(objects, old(objectsDead), removals)
    {
      var j := 0;
      while j < |removals|
        invariant 0 <= j <= |removals|
        invariant Valid() && objects == old(objects) && calls == old(calls)
        invariant timeStretch == old(timeStretch) && timeTotal == old(timeTotal)
        invariant objectsDead == MarkAll(objects, old(objectsDead), removals[..j])
      {
        assert removals[..j + 1][..j] == removals[..j];
        var outcome := RemoveObject(removals[j]);
        j := j + 1;
      }
      assert removals[..j] == removals;
    }

    /** `updateTime`: scale, accumulate, time-shift every entry, detect, sweep,
        emit. `removals` are the `removeObject` calls that the entities' hooks
        (during the time shift and the collision pass) make within the tick. */
    method UpdateTime(deltaTime: real, removals: seq<Entity>)
      requires Valid()
      requires forall e :: e in removals ==> e.isEngineObject
      modifies this
      ensures Valid() && timeStretch == old(timeStretch)
      ensures timeTotal == old(timeTotal) + deltaTime * old(timeStretch)
      ensures objects == Unmarked(old(objects), MarkAll(old(objects), old(objectsDead), removals))
      ensures forall i :: 0 <= i < |objectsDead| ==> !objectsDead[i]
      ensures calls == old(calls)
        + ShiftCalls(old(objects), deltaTime * old(timeStretch), timeTotal)
        + [Detect(old(objects))]
        + SweepCalls(old(objects), MarkAll(old(objects), old(objectsDead), removals))
        + [Update(deltaTime * old(timeStretch), timeTotal)]
    {
      var adjustedDelta := deltaTime * timeStretch;
      timeTotal := timeTotal + adjustedDelta;
      ShiftObjects(adjustedDelta);
      calls := calls + [Detect(objects)];
      RemoveObjects(removals);
      CleanObjects();
      calls := calls + [Update(adjustedDelta, timeTotal)];
    }
  }

  /** The `hasObject` quirk, first half: re-adding a tombstoned object before
      the sweep registers a second, live entry and binds the object again, yet
      `hasObject` still answers false. */
  method ReAddBeforeSweep(w: World, o: Entity)
    requires w.Valid() && w.objects == [o] && w.objectsDead == [true] && o.isEngineObject
    modifies w
  {
    assert !w.HasObject(o);
    ghost var before := w.calls;
    var r := w.AddObject(o);
    assert w.objects == [o, o] && w.objectsDead == [true, false];
    assert w.calls == before + BindCalls(o);
    assert !w.HasObject(o);
  }

  /** Second half: the sweep then splices out the tombstoned entry and detaches
      the object (`unsetWorld`, `collision.removeObject`), although its
      re-added entry stays in the list. */
  method SweepAfterReAdd(w: World, o: Entity)
    requires w.Valid() && w.objects == [o, o] && w.objectsDead == [true, false]
    modifies w
  {
    ghost var before := w.calls;
    w.CleanObjects();
    assert [o, o][1..] == [o] && [true, false][1..] == [false];
    assert [o][1..] == [] && [false][1..] == [];
    assert Unmarked([o], [false]) == [o];
    assert SweepCalls([o], [false]) == [];
    assert w.objects == [o];
    assert w.calls == before + CleanCalls(o);
  }
}
