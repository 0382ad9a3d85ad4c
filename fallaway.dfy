/** The Fallaway trait (src/traits/Fallaway.js): a platform that, once a player
    touches it, waits `delay` time units and then lets physics take it; `reset`
    puts it back where it fell from. Its states are: idle (`countdown` and
    `origin` empty), counting down (`countdown` set), fallen (`origin` set). */
module FallawayTrait {
  import opened Engine

  class Fallaway {
    const name: string := "fallaway"
    /** The traits a host must carry before this one attaches. */
    const requiredTraits: seq<string> := ["physics"]

    var countdown: Option<real>
    var origin: Option<Vec>
    var delay: real
    var host: Entity?

    constructor ()
      ensures countdown == None && origin == None && delay == 1.0 && host == null
    {
      countdown := None;
      origin := None;
      delay := 1.0;
      host := null;
    }

    /** `reset`: physics off; a captured origin is copied back into the host's
        position and forgotten. The countdown is left as it is. */
    method Reset()
      requires host != null
      modifies this, host
      ensures host == old(host) && !host.physicsEnabled
      ensures old(origin).Some? ==> host.position == old(origin).value
      ensures old(origin).None? ==> host.position == old(host.position)
      ensures origin == None && countdown == old(countdown) && delay == old(delay)
      ensures host.timeStretch == old(host.timeStretch)
    {
      host.physicsEnabled := false;
      if origin.Some? {
        host.position := origin.value;
        origin := None;
      }
    }

    /** `__attach`: bind to the host, then `reset`, so physics starts disabled. */
    method Attach(h: Entity)
      modifies this, h
      ensures host == h && !h.physicsEnabled
      ensures old(origin).Some? ==> h.position == old(origin).value
      ensures old(origin).None? ==> h.position == old(h.position)
      ensures origin == None && countdown == old(countdown) && delay == old(delay)
      ensures h.timeStretch == old(h.timeStretch)
    {
      host := h;
      Reset();
    }

    /** `__collides`: a player starts the countdown, unless one is running. */
    method Collides(other: Entity)
      modifies this
      ensures old(countdown).None? && other.isPlayer ==> countdown == Some(delay)
      ensures !(old(countdown).None? && other.isPlayer) ==> countdown == old(countdown)
      ensures origin == old(origin) && delay == old(delay) && host == old(host)
    {
      if countdown.None? && other.isPlayer {
        countdown := Some(delay);
      }
    }

    /** `__timeshift`: count down; at the first step that reaches zero or
        below, remember where the host is, enable physics, stop counting. */
    method TimeShift(deltaTime: real)
      requires countdown.Some? ==> host != null
      modifies this, if host != null then {host} else {}
      ensures host == old(host) && delay == old(delay)
      ensures old(countdown).None? ==> countdown == None && origin == old(origin)
      ensures old(countdown).None? && host != null ==> unchanged(host)
      ensures old(countdown).Some? && old(countdown).value - deltaTime > 0.0 ==>
        countdown == Some(old(countdown).value - deltaTime) && origin == old(origin) && unchanged(host)
      ensures old(countdown).Some? && old(countdown).value - deltaTime <= 0.0 ==>
        countdown == None && origin == Some(old(host.position)) && host.physicsEnabled
        && host.position == old(host.position) && host.timeStretch == old(host.timeStretch)
    {
      if countdown.Some? {
        var left := countdown.value - deltaTime;
        countdown := Some(left);
        if left <= 0.0 {
          origin := Some(host.position);
          host.physicsEnabled := true;
          countdown := None;
        }
      }
    }
  }

  /** A whole cycle: a player lands, the countdown runs out, the platform falls
      and drifts; `reset` puts it back exactly where it was when it fell. */
  method FallAndReset(f: Fallaway, host: Entity, player: Entity, drift: Vec)
    requires f.host == null && f.origin == None && f.countdown == None
    requires player.isPlayer && f.delay == 1.0 && player != host
    modifies f, host
  {
    f.Attach(host);
    assert !host.physicsEnabled;
    ghost var start := host.position;
    f.Collides(player);
    f.Collides(player);
    assert f.countdown == Some(1.0);
    f.TimeShift(0.5);
    assert f.countdown == Some(0.5) && !host.physicsEnabled;
    f.TimeShift(0.5);
    assert f.countdown == None && f.origin == Some(start) && host.physicsEnabled;
    host.position := drift;
    f.Reset();
    assert host.position == start && !host.physicsEnabled && f.origin == None;
  }
}
