/** One tick of the retention worker: the rotation pass over the files, then the reaping of abandoned uploads. */
module Worker {
  import opened Common
  import opened FileServer
  import opened Policies
  import opened Rotation
  import opened RotationPass
  import Tus

  /** The counters of a tick. */
  datatype RunStats = RunStats(rotation: Stats, tusReaped: nat)

  /** What a tick makes of sessions, blobs and files; `stuckBlobs` are the blobs whose removal fails. */
  function Tick(s: Tus.State, jobs: seq<Job>, now: int, stuck: set<string>, stuckBlobs: set<Uuid>): Tus.State {
    Tus.Reap(s.(store := Pass(s.store, jobs, now, stuck)), now, stuckBlobs)
  }

  /** A tick rotates the files and takes every open session that has expired, with its blob if that can be removed. */
  lemma TickDoesBoth(s: Tus.State, jobs: seq<Job>, now: int, stuck: set<string>, stuckBlobs: set<Uuid>, id: Uuid)
    ensures var t := Tick(s, jobs, now, stuck, stuckBlobs);
            && t.store == Pass(s.store, jobs, now, stuck)
            && (id in t.sessions <==>
                  id in s.sessions && !(s.sessions[id].completed.None? && s.sessions[id].expiresAt < now))
            && (id in t.sessions ==> t.sessions[id] == s.sessions[id])
            && (id in t.blobs <==>
                  id in s.blobs
                  && (id in stuckBlobs
                      || !(id in s.sessions && s.sessions[id].completed.None? && s.sessions[id].expiresAt < now)))
  {
  }

  /** `run_inner`. */
  method RunInner(
    tus: Tus.TusServer, ps: seq<Policy>, order: seq<Uuid>, now: int, stuck: set<string>, stuckBlobs: set<Uuid>)
    returns (stats: RunStats)
    requires TableConstraints(ps) && Enumerates(order, tus.server.State())
    modifies tus, tus.server
    ensures var s := old(tus.View()); var jobs := JobsFor(s.store, ps, order);
            && tus.View() == Tick(s, jobs, now, stuck, stuckBlobs)
            && stats == RunStats(Tally(PassEffects(s.store, jobs, now, stuck)), |Tus.ExpiredIds(s, now)|)
  {
    var rotation := RotateFiles(tus.server, ps, order, now, stuck);
    assert tus.View().sessions == old(tus.View()).sessions;
    assert Tus.ExpiredIds(tus.View(), now) == Tus.ExpiredIds(old(tus.View()), now);
    var reaped := tus.ReapSessions(now, stuckBlobs);
    stats := RunStats(rotation, reaped);
  }
}
