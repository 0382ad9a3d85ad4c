/** Shared vocabulary: the optional values JavaScript spells `undefined`/`null`,
    positions, the host entity the core files call into, and the two array
    operations (`indexOf`, `splice(i, 1)`) they all use. */
module Engine {

  /** A JavaScript value that may be `undefined` or `null`. */
  datatype Option<T> = None | Some(value: T)

  /** A THREE.Vector3; `copy` and `clone` are value assignment here. */
  datatype Vec = Vec(x: real, y: real, z: real)

  const Origin := Vec(0.0, 0.0, 0.0)

  /** The host entity, only as far as World, Spawner, Fallaway and Weapon use it:
      identity, whether it is an `Engine.Object` (the `instanceof` test), the
      `isPlayer` flag, an optional render model handle, its position, its
      physics switch and its time stretch. */
  class Entity {
    const id: string
    const isEngineObject: bool
    const isPlayer: bool
    const model: Option<nat>
    var position: Vec
    var physicsEnabled: bool
    var timeStretch: real

    constructor (id: string, isEngineObject: bool, isPlayer: bool, model: Option<nat>)
      ensures this.id == id && this.isEngineObject == isEngineObject
      ensures this.isPlayer == isPlayer && this.model == model
      ensures position == Origin && physicsEnabled && timeStretch == 1.0
    {
      this.id := id;
      this.isEngineObject := isEngineObject;
      this.isPlayer := isPlayer;
      this.model := model;
      position := Origin;
      physicsEnabled := true;
      timeStretch := 1.0;
    }
  }

  /** `Array.prototype.indexOf` with identity comparison: the first index
      holding `x`, or -1. */
  function IndexOf<T(==)>(s: seq<T>, x: T): (i: int)
    ensures -1 <= i < |s|
    ensures i == -1 <==> x !in s
    ensures 0 <= i ==> s[i] == x && x !in s[..i]
  {
    if |s| == 0 then -1
    else if s[0] == x then 0
    else
      var j := IndexOf(s[1..], x);
      assert j != -1 ==> s[1..][..j] == s[1..j + 1];
      if j == -1 then -1 else j + 1
  }

  /** `splice(i, 1)`: the sequence without its element at `i`. */
  function RemoveAt<T>(s: seq<T>, i: nat): (r: seq<T>)
    requires i < |s|
    ensures |r| == |s| - 1
  {
    s[..i] + s[i + 1..]
  }

  /** Splicing out one element removes exactly one copy of it. */
  lemma RemoveAtMultiset<T>(s: seq<T>, i: nat)
    requires i < |s|
    ensures multiset(RemoveAt(s, i)) == multiset(s) - multiset{s[i]}
  {
    assert s == s[..i] + [s[i]] + s[i + 1..];
  }

  /** A sequence without repeated entries. */
  ghost predicate Distinct<T>(s: seq<T>)
  {
    forall i, j :: 0 <= i < j < |s| ==> s[i] != s[j]
  }

  lemma {:induction false} DistinctCountsOnce<T>(s: seq<T>, x: T)
    requires Distinct(s)
    ensures multiset(s)[x] <= 1
    decreases |s|
  {
    if |s| > 0 {
      assert s == [s[0]] + s[1..];
      assert Distinct(s[1..]) by {
        forall i, j | 0 <= i < j < |s[1..]| ensures s[1..][i] != s[1..][j] {
          assert s[1..][i] == s[i + 1] && s[1..][j] == s[j + 1];
        }
      }
      DistinctCountsOnce(s[1..], x);
      if s[0] == x {
        assert x !in s[1..] by {
          forall k | 0 <= k < |s[1..]| ensures s[1..][k] != x {
            assert s[1..][k] == s[k + 1];
          }
        }
      }
    }
  }
}
