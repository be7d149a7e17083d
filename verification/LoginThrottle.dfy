/**
 The login throttle: one shared map under a lock, which `check` also garbage-collects. It answers every email
 as a private counter without collection would, and bounds recorded failures in every sliding minute.
 */
module LoginThrottle {
  import opened Common
  import opened Windows

  const MAX_FAILS: nat := 10
  const LOCKOUT: int := 60 * SECOND

  /** `(window_start, fails_in_window, lockout_until)`. */
  datatype Entry = Entry(start: int, fails: nat, lock: Option<int>)

  type Entries = map<string, Entry>

  function Lookup(m: Entries, email: string): Option<Entry> { if email in m then Some(m[email]) else None }

  /** What `check` answers for an entry. */
  predicate Blocks(o: Option<Entry>, now: int) { o.Some? && o.value.lock.Some? && now < o.value.lock.value }

  predicate Kept(e: Entry, now: int) { NumSeconds(now - e.start) < 600 || (e.lock.Some? && e.lock.value > now) }

  function Retained(m: Entries, now: int): Entries { map k | k in m && Kept(m[k], now) :: m[k] }

  function Failed(o: Option<Entry>, now: int): Entry {
    var e := if o.None? then Entry(now, 0, None) else o.value;
    var current := if NumSeconds(now - e.start) >= 60 then Entry(now, 0, None) else e;
    var fails := current.fails + 1;
    Entry(current.start, fails, if fails >= MAX_FAILS then Some(now + LOCKOUT) else current.lock)
  }

  datatype Op = Check(email: string, now: int) | Fail(email: string, now: int) | Succeed(email: string, now: int)

  function Step(m: Entries, op: Op): Entries {
    match op
    case Check(email, now) => if Blocks(Lookup(m, email), now) then m else Retained(m, now)
    case Fail(email, now) => m[email := Failed(Lookup(m, email), now)]
    case Succeed(email, _) => m - {email}
  }

  function Run(ops: seq<Op>): Entries {
    if ops == [] then map[] else Step(Run(ops[..|ops| - 1]), ops[|ops| - 1])
  }

  /** A counter for one email that is never collected and sees only that email's operations. */
  function Private(ops: seq<Op>, email: string): Option<Entry> {
    if ops == [] then None
    else
      var before := Private(ops[..|ops| - 1], email);
      match ops[|ops| - 1]
      case Fail(e, now) => if e == email then Some(Failed(before, now)) else before
      case Succeed(e, _) => if e == email then None else before
      case Check(_, _) => before
  }

  ghost predicate Monotone(ops: seq<Op>) {
    forall i, j | 0 <= i <= j < |ops| :: ops[i].now <= ops[j].now
  }

  lemma MonotonePrefix(ops: seq<Op>)
    requires Monotone(ops) && ops != []
    ensures Monotone(ops[..|ops| - 1])
  {
  }

  // ---------------------------------------------------------------------------
  // Garbage collection is not observable
  // ---------------------------------------------------------------------------

  /** The shared entry is the private one, or was collected when it could no longer matter. */
  predicate Agrees(shared: Option<Entry>, own: Option<Entry>, now: int) {
    shared == own || (shared.None? && own.Some? && !Kept(own.value, now))
  }

  lemma AgreeingEntriesAct(shared: Option<Entry>, own: Option<Entry>, since: int, now: int)
    requires Agrees(shared, own, since) && since <= now
    ensures Blocks(shared, now) <==> Blocks(own, now)
    ensures Failed(shared, now) == Failed(own, now)
    ensures Agrees(shared, own, now)
  {
    if shared != own {
      WholeSeconds(since - own.value.start, 600);
      WholeSeconds(now - own.value.start, 600);
      WholeSeconds(now - own.value.start, 60);
    }
  }

  lemma {:induction false} SharedAgrees(ops: seq<Op>, email: string, now: int)
    requires Monotone(ops) && forall i | 0 <= i < |ops| :: ops[i].now <= now
    ensures Agrees(Lookup(Run(ops), email), Private(ops, email), now)
  {
    if ops != [] {
      var n := |ops| - 1;
      var op := ops[n];
      var m := Run(ops[..n]);
      MonotonePrefix(ops);
      assert forall i | 0 <= i < n :: ops[..n][i] == ops[i];
      SharedAgrees(ops[..n], email, op.now);
      AgreeingEntriesAct(Lookup(m, email), Private(ops[..n], email), op.now, op.now);
      match op {
        case Check(_, t) => assert Lookup(Retained(m, t), email) == Lookup(m, email) || !Kept(m[email], t);
        case _ =>
      }
      AgreeingEntriesAct(Lookup(Run(ops), email), Private(ops, email), op.now, now);
    }
  }

  /** Every `check` gives exactly the answer of the email's private counter, whatever was collected before. */
  lemma CollectionIsUnobservable(ops: seq<Op>, i: nat)
    requires Monotone(ops) && i < |ops| && ops[i].Check?
    ensures Blocks(Lookup(Run(ops[..i]), ops[i].email), ops[i].now)
       <==> Blocks(Private(ops[..i], ops[i].email), ops[i].now)
  {
    SharedAgrees(ops[..i], ops[i].email, ops[i].now);
    AgreeingEntriesAct(Lookup(Run(ops[..i]), ops[i].email), Private(ops[..i], ops[i].email), ops[i].now, ops[i].now);
  }

  // ---------------------------------------------------------------------------
  // At most 18 recorded failures in a sliding minute
  // ---------------------------------------------------------------------------

  /** The email's latest operation is a check that passed. */
  predicate Ready(ops: seq<Op>, email: string) {
    ops != [] &&
    var n := |ops| - 1;
    if ops[n].email != email then Ready(ops[..n], email)
    else ops[n].Check? && !Blocks(Lookup(Run(ops[..n]), email), ops[n].now)
  }

  /** Attempts for the email come one after another and none succeeds: each failure follows its own passed check. */
  ghost predicate SerialFailures(ops: seq<Op>, email: string) {
    && (forall i | 0 <= i < |ops| && ops[i].Fail? && ops[i].email == email :: Ready(ops[..i], email))
    && forall i | 0 <= i < |ops| && ops[i].email == email :: !ops[i].Succeed?
  }

  function FailLog(ops: seq<Op>, email: string): seq<int> {
    if ops == [] then []
    else
      var n := |ops| - 1;
      FailLog(ops[..n], email) + if ops[n].Fail? && ops[n].email == email then [ops[n].now] else []
  }

  /** The private counter describes the last window of the log. */
  predicate Describes(o: Option<Entry>, log: seq<int>, win: seq<nat>) {
    if log == [] || |win| != |log| || win[|log| - 1] >= |log| then o.None? && log == [] && win == []
    else
      var w := win[|log| - 1];
      && o.Some? && o.value.start == log[w] && o.value.fails == |log| - w
      && o.value.lock == if o.value.fails >= MAX_FAILS then Some(log[|log| - 1] + LOCKOUT) else None
  }

  lemma FailureExtends(o: Option<Entry>, log: seq<int>, win: seq<nat>, t: int) returns (win': seq<nat>)
    requires Windowed(log, win, MAX_FAILS, true) && Describes(o, log, win)
    requires (log != [] ==> log[|log| - 1] <= t) && !Blocks(o, t)
    ensures Windowed(log + [t], win', MAX_FAILS, true) && Describes(Some(Failed(o, t)), log + [t], win')
  {
    if log == [] {
      WindowedAppend(log, win, MAX_FAILS, true, t, 0);
      win' := [0];
      assert win + [0] == [0];
    } else {
      var w := win[|log| - 1];
      WholeSeconds(t - log[w], 60);
      if NumSeconds(t - log[w]) >= 60 {
        win' := win + [|log|];
        assert NewWindow(log + [t], win', MAX_FAILS, true, |log|);
        WindowedAppend(log, win, MAX_FAILS, true, t, |log|);
      } else {
        win' := win + [w];
        WindowedAppend(log, win, MAX_FAILS, true, t, w);
      }
    }
  }

  lemma {:induction false} FailLogTimes(ops: seq<Op>, email: string, now: int)
    requires forall i | 0 <= i < |ops| :: ops[i].now <= now
    ensures forall i | 0 <= i < |FailLog(ops, email)| :: FailLog(ops, email)[i] <= now
  {
    if ops != [] {
      assert forall i | 0 <= i < |ops| - 1 :: ops[..|ops| - 1][i] == ops[i];
      FailLogTimes(ops[..|ops| - 1], email, now);
    }
  }

  /** A passed check still passes when its failure is recorded. */
  lemma {:induction false} ReadyIsNotBlocked(ops: seq<Op>, email: string, now: int)
    requires Monotone(ops) && Ready(ops, email) && forall i | 0 <= i < |ops| :: ops[i].now <= now
    ensures !Blocks(Private(ops, email), now)
  {
    var n := |ops| - 1;
    MonotonePrefix(ops);
    assert forall i | 0 <= i < n :: ops[..n][i] == ops[i];
    if ops[n].email != email {
      ReadyIsNotBlocked(ops[..n], email, now);
    } else {
      CollectionIsUnobservable(ops, n);
    }
  }

  lemma SerialPrefix(ops: seq<Op>, email: string)
    requires Monotone(ops) && SerialFailures(ops, email) && ops != []
    ensures var prefix := ops[..|ops| - 1]; var op := ops[|ops| - 1];
            && Monotone(prefix) && SerialFailures(prefix, email)
            && (forall i | 0 <= i < |prefix| :: prefix[i].now <= op.now)
            && (op.Fail? && op.email == email ==> Ready(prefix, email))
  {
    assert forall i | 0 <= i < |ops| - 1 :: ops[..|ops| - 1][..i] == ops[..i];
  }

  /** The counter and its log when the email's operation is no failure. */
  lemma OtherOps(ops: seq<Op>, email: string)
    requires SerialFailures(ops, email) && ops != []
    requires var op := ops[|ops| - 1]; !(op.Fail? && op.email == email)
    ensures FailLog(ops, email) == FailLog(ops[..|ops| - 1], email)
            && Private(ops, email) == Private(ops[..|ops| - 1], email)
  {
  }

  lemma {:induction false} LogIsWindowed(ops: seq<Op>, email: string) returns (win: seq<nat>)
    requires Monotone(ops) && SerialFailures(ops, email)
    ensures Windowed(FailLog(ops, email), win, MAX_FAILS, true)
            && Describes(Private(ops, email), FailLog(ops, email), win)
  {
    if ops == [] {
      win := [];
    } else {
      var prefix, op := ops[..|ops| - 1], ops[|ops| - 1];
      SerialPrefix(ops, email);
      win := LogIsWindowed(prefix, email);
      if op.Fail? && op.email == email {
        ReadyIsNotBlocked(prefix, email, op.now);
        FailLogTimes(prefix, email, op.now);
        win := FailureExtends(Private(prefix, email), FailLog(prefix, email), win, op.now);
      } else {
        OtherOps(ops, email);
      }
    }
  }

  /**
   In any half-open minute at most 18 failures are recorded: the nineteenth comes a minute or more after the
   first.
   */
  lemma AtMost18FailuresPerMinute(ops: seq<Op>, email: string, i: nat)
    requires Monotone(ops) && SerialFailures(ops, email) && i + 18 < |FailLog(ops, email)|
    ensures FailLog(ops, email)[i + 18] >= FailLog(ops, email)[i] + WINDOW
  {
    var win := LogIsWindowed(ops, email);
    SpanBound(FailLog(ops, email), win, MAX_FAILS, true, i);
  }

  // ---------------------------------------------------------------------------
  // The bound is tight
  // ---------------------------------------------------------------------------

  ghost predicate Fine(ops: seq<Op>, email: string, now: int) {
    Monotone(ops) && SerialFailures(ops, email) && forall i | 0 <= i < |ops| :: ops[i].now <= now
  }

  lemma FineAppend(ops: seq<Op>, op: Op, email: string, now: int)
    requires Fine(ops, email, now) && now <= op.now && !op.Succeed?
    requires op.Fail? && op.email == email ==> Ready(ops, email)
    ensures Fine(ops + [op], email, op.now)
  {
    var next := ops + [op];
    forall i | 0 <= i < |next| && next[i].Fail? && next[i].email == email
      ensures Ready(next[..i], email)
    {
      if i < |ops| { assert next[..i] == ops[..i]; } else { assert next[..i] == ops; }
    }
  }

  lemma Appended(ops: seq<Op>, op: Op, email: string)
    requires op.email == email && !op.Succeed?
    ensures var next := ops + [op];
            && FailLog(next, email) == FailLog(ops, email) + (if op.Fail? then [op.now] else [])
            && Private(next, email)
               == (if op.Fail? then Some(Failed(Private(ops, email), op.now)) else Private(ops, email))
            && (Ready(next, email) <==> op.Check? && !Blocks(Lookup(Run(ops), email), op.now))
  {
    var next := ops + [op];
    assert next[..|next| - 1] == ops;
  }

  function Attempt(ops: seq<Op>, email: string, t: int): seq<Op> { ops + [Check(email, t)] + [Fail(email, t)] }

  /** A failed attempt that the throttle lets through. */
  lemma AttemptCounts(ops: seq<Op>, email: string, now: int, t: int)
    requires Fine(ops, email, now) && now <= t && !Blocks(Private(ops, email), t)
    ensures var next := Attempt(ops, email, t);
            && Fine(next, email, t) && FailLog(next, email) == FailLog(ops, email) + [t]
            && Private(next, email) == Some(Failed(Private(ops, email), t))
  {
    var checked := ops + [Check(email, t)];
    SharedAgrees(ops, email, now);
    AgreeingEntriesAct(Lookup(Run(ops), email), Private(ops, email), now, t);
    Appended(ops, Check(email, t), email);
    FineAppend(ops, Check(email, t), email, now);
    Appended(checked, Fail(email, t), email);
    FineAppend(checked, Fail(email, t), email, t);
  }

  /** The email's counter and log, without its history. */
  ghost predicate At(ops: seq<Op>, email: string, now: int, entry: Entry, log: seq<int>) {
    Fine(ops, email, now) && Private(ops, email) == Some(entry) && FailLog(ops, email) == log
  }

  lemma AttemptAt(ops: seq<Op>, email: string, now: int, entry: Entry, log: seq<int>, t: int) returns (next: seq<Op>)
    requires At(ops, email, now, entry, log) && now <= t && !Blocks(Some(entry), t)
    ensures At(next, email, t, Failed(Some(entry), t), log + [t])
  {
    next := Attempt(ops, email, t);
    AttemptCounts(ops, email, now, t);
  }

  lemma NextFailure(start: int, fails: nat, t: int)
    requires start <= t < start + WINDOW && fails < MAX_FAILS
    ensures Failed(Some(Entry(start, fails, None)), t)
         == Entry(start, fails + 1, if fails + 1 == MAX_FAILS then Some(t + LOCKOUT) else None)
  {
    WholeSeconds(t - start, 60);
  }

  lemma {:induction false} AttemptsCount(
    ops: seq<Op>, email: string, now: int, start: int, fails: nat, t: int, k: nat, log: seq<int>)
    returns (next: seq<Op>)
    requires At(ops, email, now, Entry(start, fails, None), log) && now <= t
    requires start <= t < start + WINDOW && 1 <= fails && k >= 1 && fails + k <= MAX_FAILS
    ensures At(next, email, t,
               Entry(start, fails + k, if fails + k == MAX_FAILS then Some(t + LOCKOUT) else None), Repeated(log, t, k))
  {
    NextFailure(start, fails + k - 1, t);
    if k == 1 {
      assert Repeated(log, t, 0) == log;
      next := AttemptAt(ops, email, now, Entry(start, fails, None), log, t);
    } else {
      next := AttemptsCount(ops, email, now, start, fails, t, k - 1, log);
      next := AttemptAt(next, email, t, Entry(start, fails + k - 1, None), Repeated(log, t, k - 1), t);
    }
  }

  lemma FirstFailure(email: string) returns (ops: seq<Op>)
    ensures At(ops, email, 0, Entry(0, 1, None), [0])
  {
    ops := Attempt([], email, 0);
    AttemptCounts([], email, 0, 0);
    assert FailLog(ops, email) == [0];
  }

  /** Eighteen failures within one second of each other: eight at the end of a window, ten at the start of the next. */
  lemma EighteenFailuresHappen(email: string) returns (ops: seq<Op>)
    ensures Monotone(ops) && SerialFailures(ops, email) && |FailLog(ops, email)| == 19
    ensures FailLog(ops, email)[18] < FailLog(ops, email)[1] + WINDOW
  {
    var t1, t2 := 59 * SECOND, 60 * SECOND;
    ops := FirstFailure(email);
    ops := AttemptsCount(ops, email, 0, 0, 1, t1, 8, [0]);
    var log9 := Repeated([0], t1, 8);
    ops := AttemptAt(ops, email, t1, Entry(0, 9, None), log9, t2);
    ops := AttemptsCount(ops, email, t2, t2, 1, t2, 9, log9 + [t2]);
    assert FailLog(ops, email) == Repeated(log9 + [t2], t2, 9);
  }

  // ---------------------------------------------------------------------------
  // The throttle itself
  // ---------------------------------------------------------------------------

  class Throttle {
    var entries: Entries

    constructor ()
      ensures entries == Run([])
    {
      entries := map[];
    }

    method CheckEmail(email: string, now: int) returns (r: Result<()>)
      modifies this
      ensures entries == Step(old(entries), Check(email, now))
      ensures r == if Blocks(Lookup(old(entries), email), now) then Err(TooManyRequests) else Ok(())
    {
      if email in entries && entries[email].lock.Some? && now < entries[email].lock.value {
        return Err(TooManyRequests);
      }
      entries := map k | k in entries && (NumSeconds(now - entries[k].start) < 600
                                          || (entries[k].lock.Some? && entries[k].lock.value > now)) :: entries[k];
      r := Ok(());
    }

    method RecordFailure(email: string, now: int)
      modifies this
      ensures entries == Step(old(entries), Fail(email, now))
    {
      if email !in entries { entries := entries[email := Entry(now, 0, None)]; }
      if NumSeconds(now - entries[email].start) >= 60 { entries := entries[email := Entry(now, 0, None)]; }
      entries := entries[email := entries[email].(fails := entries[email].fails + 1)];
      if entries[email].fails >= MAX_FAILS {
        entries := entries[email := entries[email].(lock := Some(now + LOCKOUT))];
      }
    }

    method RecordSuccess(email: string, now: int)
      modifies this
      ensures entries == Step(old(entries), Succeed(email, now))
    {
      entries := entries - {email};
    }

    /** The order in `login`: check, verify, record. A refused attempt records nothing and learns nothing. */
    method Login(email: string, checkedAt: int, verified: bool, recordedAt: int) returns (r: Result<()>)
      modifies this
      ensures Blocks(Lookup(old(entries), email), checkedAt) ==> r == Err(TooManyRequests) && entries == old(entries)
      ensures !Blocks(Lookup(old(entries), email), checkedAt) ==>
                && r == (if verified then Ok(()) else Err(Unauthorized))
                && entries == Step(Retained(old(entries), checkedAt),
                                   if verified then Succeed(email, recordedAt) else Fail(email, recordedAt))
    {
      var check := CheckEmail(email, checkedAt);
      if check.Err? { return check; }
      if !verified {
        RecordFailure(email, recordedAt);
        return Err(Unauthorized);
      }
      RecordSuccess(email, recordedAt);
      r := Ok(());
    }
  }
}
