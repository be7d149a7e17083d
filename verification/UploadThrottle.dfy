/**
 The upload throttle: one shared map whose stale entries every call drops. Each user is answered as by a
 private counter, whatever others do, and accepts are bounded in every window and in every sliding minute.
 */
module UploadThrottle {
  import opened Common
  import opened Windows

  const MAX_UPLOADS: nat := 60

  /** `(window_start, uploads_in_window)`. */
  datatype Entry = Entry(start: int, count: nat)

  type Entries = map<string, Entry>

  datatype Call = Call(user: string, now: int)

  function Lookup(m: Entries, user: string): Option<Entry> { if user in m then Some(m[user]) else None }

  function Restarted(e: Entry, now: int): Entry { if NumSeconds(now - e.start) >= 60 then Entry(now, 0) else e }

  /** The window a call falls into, given the user's entry. */
  function Current(o: Option<Entry>, now: int): Entry { if o.None? then Entry(now, 0) else Restarted(o.value, now) }

  predicate Accepts(o: Option<Entry>, now: int) { Current(o, now).count < MAX_UPLOADS }

  function Recorded(o: Option<Entry>, now: int): Entry {
    var e := Current(o, now);
    if e.count < MAX_UPLOADS then e.(count := e.count + 1) else e
  }

  function Retained(m: Entries, now: int): Entries { map k | k in m && NumSeconds(now - m[k].start) < 60 :: m[k] }

  function Step(m: Entries, c: Call): Entries {
    var kept := Retained(m, c.now);
    kept[c.user := Recorded(Lookup(kept, c.user), c.now)]
  }

  function Run(calls: seq<Call>): Entries {
    if calls == [] then map[] else Step(Run(calls[..|calls| - 1]), calls[|calls| - 1])
  }

  /** The answer of the shared throttle to call `i`. */
  predicate Answer(calls: seq<Call>, i: nat)
    requires i < |calls|
  {
    Accepts(Lookup(Retained(Run(calls[..i]), calls[i].now), calls[i].user), calls[i].now)
  }

  /** A counter that sees only the user's own calls and is never dropped. */
  function Private(calls: seq<Call>, user: string): Option<Entry> {
    if calls == [] then None
    else
      var n := |calls| - 1;
      var before := Private(calls[..n], user);
      if calls[n].user == user then Some(Recorded(before, calls[n].now)) else before
  }

  ghost predicate Monotone(calls: seq<Call>) {
    forall i, j | 0 <= i <= j < |calls| :: calls[i].now <= calls[j].now
  }

  /** Nothing that changes the user's next answer has been dropped. */
  predicate Agrees(shared: Option<Entry>, own: Option<Entry>, now: int) {
    shared == own || (shared.None? && own.Some? && NumSeconds(now - own.value.start) >= 60)
  }

  lemma AgreeingEntriesAct(shared: Option<Entry>, own: Option<Entry>, before: int, now: int)
    requires Agrees(shared, own, before) && before <= now
    ensures Agrees(shared, own, now) && Current(shared, now) == Current(own, now)
  {
    if shared != own {
      WholeSeconds(before - own.value.start, 60);
      WholeSeconds(now - own.value.start, 60);
    }
  }

  lemma DroppingAgrees(m: Entries, user: string, own: Option<Entry>, now: int)
    requires Agrees(Lookup(m, user), own, now)
    ensures Agrees(Lookup(Retained(m, now), user), own, now)
  {
  }

  lemma {:induction false} SharedAgrees(calls: seq<Call>, user: string, now: int)
    requires Monotone(calls) && forall i | 0 <= i < |calls| :: calls[i].now <= now
    ensures Agrees(Lookup(Run(calls), user), Private(calls, user), now)
  {
    if calls != [] {
      var n := |calls| - 1;
      var c, m, own := calls[n], Run(calls[..n]), Private(calls[..n], user);
      assert forall i | 0 <= i < n :: calls[..n][i] == calls[i];
      SharedAgrees(calls[..n], user, c.now);
      DroppingAgrees(m, user, own, c.now);
      AgreeingEntriesAct(Lookup(Retained(m, c.now), user), own, c.now, c.now);
      AgreeingEntriesAct(Lookup(Run(calls), user), Private(calls, user), c.now, now);
    }
  }

  /** Every call is answered exactly as the user's private counter would answer it. */
  lemma SharedMapIsPrivateCounters(calls: seq<Call>, i: nat)
    requires Monotone(calls) && i < |calls|
    ensures Answer(calls, i) <==> Accepts(Private(calls[..i], calls[i].user), calls[i].now)
  {
    var m, own := Run(calls[..i]), Private(calls[..i], calls[i].user);
    SharedAgrees(calls[..i], calls[i].user, calls[i].now);
    DroppingAgrees(m, calls[i].user, own, calls[i].now);
    AgreeingEntriesAct(Lookup(Retained(m, calls[i].now), calls[i].user), own, calls[i].now, calls[i].now);
  }

  // ---------------------------------------------------------------------------
  // Bounds on accepted uploads
  // ---------------------------------------------------------------------------

  /** When the user's calls were accepted. */
  function AcceptLog(calls: seq<Call>, user: string): seq<int> {
    if calls == [] then []
    else
      var n := |calls| - 1;
      AcceptLog(calls[..n], user) + if calls[n].user == user && Answer(calls, n) then [calls[n].now] else []
  }

  /** The private counter describes the last window of the log; a refused call can only find it full. */
  predicate Describes(o: Option<Entry>, log: seq<int>, win: seq<nat>) {
    if log == [] || |win| != |log| || win[|log| - 1] >= |log| then o.None? && log == [] && win == []
    else o == Some(Entry(log[win[|log| - 1]], |log| - win[|log| - 1]))
  }

  lemma AcceptExtends(o: Option<Entry>, log: seq<int>, win: seq<nat>, t: int) returns (win': seq<nat>)
    requires Windowed(log, win, MAX_UPLOADS, false) && Describes(o, log, win)
    requires (log != [] ==> log[|log| - 1] <= t) && Accepts(o, t)
    ensures Windowed(log + [t], win', MAX_UPLOADS, false) && Describes(Some(Recorded(o, t)), log + [t], win')
  {
    if log == [] {
      WindowedAppend(log, win, MAX_UPLOADS, false, t, 0);
      win' := [0];
      assert win + [0] == [0];
    } else {
      var w := win[|log| - 1];
      WholeSeconds(t - log[w], 60);
      if NumSeconds(t - log[w]) >= 60 {
        win' := win + [|log|];
        assert NewWindow(log + [t], win', MAX_UPLOADS, false, |log|);
        WindowedAppend(log, win, MAX_UPLOADS, false, t, |log|);
      } else {
        win' := win + [w];
        WindowedAppend(log, win, MAX_UPLOADS, false, t, w);
      }
    }
  }

  lemma {:induction false} AcceptLogTimes(calls: seq<Call>, user: string, now: int)
    requires forall i | 0 <= i < |calls| :: calls[i].now <= now
    ensures forall i | 0 <= i < |AcceptLog(calls, user)| :: AcceptLog(calls, user)[i] <= now
  {
    if calls != [] {
      assert forall i | 0 <= i < |calls| - 1 :: calls[..|calls| - 1][i] == calls[i];
      AcceptLogTimes(calls[..|calls| - 1], user, now);
    }
  }

  /** One call more: accepted and logged, or neither the log nor the counter moves. */
  lemma LogStep(calls: seq<Call>, user: string)
    requires Monotone(calls) && calls != []
    ensures var before := calls[..|calls| - 1]; var c := calls[|calls| - 1];
            && Monotone(before) && (forall i | 0 <= i < |before| :: before[i].now <= c.now)
            && if c.user == user && Accepts(Private(before, user), c.now) then
                 AcceptLog(calls, user) == AcceptLog(before, user) + [c.now]
                 && Private(calls, user) == Some(Recorded(Private(before, user), c.now))
               else
                 AcceptLog(calls, user) == AcceptLog(before, user) && Private(calls, user) == Private(before, user)
  {
    SharedMapIsPrivateCounters(calls, |calls| - 1);
  }

  lemma {:induction false} LogIsWindowed(calls: seq<Call>, user: string) returns (win: seq<nat>)
    requires Monotone(calls)
    ensures Windowed(AcceptLog(calls, user), win, MAX_UPLOADS, false)
    ensures Describes(Private(calls, user), AcceptLog(calls, user), win)
  {
    if calls == [] {
      win := [];
    } else {
      var before, c := calls[..|calls| - 1], calls[|calls| - 1];
      LogStep(calls, user);
      win := LogIsWindowed(before, user);
      if c.user == user && Accepts(Private(before, user), c.now) {
        AcceptLogTimes(before, user, c.now);
        win := AcceptExtends(Private(before, user), AcceptLog(before, user), win, c.now);
      }
    }
  }

  /** In any half-open minute a user has at most 119 accepted uploads, whatever other users do. */
  lemma AtMost119UploadsPerMinute(calls: seq<Call>, user: string, i: nat)
    requires Monotone(calls) && i + 119 < |AcceptLog(calls, user)|
    ensures AcceptLog(calls, user)[i + 119] >= AcceptLog(calls, user)[i] + WINDOW
  {
    var win := LogIsWindowed(calls, user);
    SpanBound(AcceptLog(calls, user), win, MAX_UPLOADS, false, i);
  }

  // ---------------------------------------------------------------------------
  // The bound is tight
  // ---------------------------------------------------------------------------

  ghost predicate At(calls: seq<Call>, user: string, now: int, entry: Entry, log: seq<int>) {
    && Monotone(calls) && (forall i | 0 <= i < |calls| :: calls[i].now <= now)
    && Private(calls, user) == Some(entry) && AcceptLog(calls, user) == log
  }

  lemma UploadAt(calls: seq<Call>, user: string, now: int, entry: Entry, log: seq<int>, t: int)
    returns (next: seq<Call>)
    requires At(calls, user, now, entry, log) && now <= t && Accepts(Some(entry), t)
    ensures At(next, user, t, Recorded(Some(entry), t), log + [t])
  {
    next := calls + [Call(user, t)];
    assert next[..|next| - 1] == calls;
    LogStep(next, user);
  }

  lemma {:induction false} UploadsAt(
    calls: seq<Call>, user: string, now: int, start: int, count: nat, t: int, k: nat, log: seq<int>)
    returns (next: seq<Call>)
    requires At(calls, user, now, Entry(start, count), log) && start <= t < start + WINDOW && now <= t
    requires count + k <= MAX_UPLOADS
    ensures At(next, user, if k == 0 then now else t, Entry(start, count + k), Repeated(log, t, k))
  {
    if k == 0 {
      next := calls;
    } else {
      next := UploadsAt(calls, user, now, start, count, t, k - 1, log);
      WholeSeconds(t - start, 60);
      next := UploadAt(next, user, if k == 1 then now else t, Entry(start, count + k - 1), Repeated(log, t, k - 1), t);
    }
  }

  /** 119 accepts within one second of each other: 59 at the end of a window, 60 at the start of the next. */
  lemma UploadsCanReach119(user: string) returns (calls: seq<Call>)
    ensures Monotone(calls) && |AcceptLog(calls, user)| == 120
    ensures AcceptLog(calls, user)[119] < AcceptLog(calls, user)[1] + WINDOW
  {
    var t1, t2 := 59 * SECOND, 60 * SECOND;
    calls := [Call(user, 0)];
    LogStep(calls, user);
    assert At(calls, user, 0, Entry(0, 1), [0]);
    calls := UploadsAt(calls, user, 0, 0, 1, t1, 59, [0]);
    var log60 := Repeated([0], t1, 59);
    calls := UploadAt(calls, user, t1, Entry(0, 60), log60, t2);
    calls := UploadsAt(calls, user, t2, t2, 1, t2, 59, log60 + [t2]);
    assert AcceptLog(calls, user) == Repeated(log60 + [t2], t2, 59);
  }

  class Throttle {
    var entries: Entries

    constructor ()
      ensures entries == Run([])
    {
      entries := map[];
    }

    /** `check_and_record`. */
    method CheckAndRecord(user: string, now: int) returns (r: Result<()>)
      modifies this
      ensures entries == Step(old(entries), Call(user, now))
      ensures r.Ok? <==> Accepts(Lookup(Retained(old(entries), now), user), now)
    {
      entries := map k | k in entries && NumSeconds(now - entries[k].start) < 60 :: entries[k];
      if user !in entries { entries := entries[user := Entry(now, 0)]; }
      entries := entries[user := Restarted(entries[user], now)];
      if entries[user].count >= MAX_UPLOADS { return Err(TooManyRequests); }
      entries := entries[user := entries[user].(count := entries[user].count + 1)];
      r := Ok(());
    }
  }
}
