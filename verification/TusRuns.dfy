/**
 Runs in which resumable uploads, one-shot uploads and every other file operation interleave. Seen from the file
 server, such a run is a run of `Lifecycle`, so the run theorems carry over; and a completed session's file reads back
 as the chunks received.
 */
module TusRuns {
  import opened Common
  import opened Storage
  import opened Schema
  import opened Quota
  import opened Lifecycle
  import opened KeyInvariants
  import History
  import QuotaRuns
  import ReadBack
  import Tus

  type Events = seq<Tus.Event>

  /** What the file server sees of an event: a finalisation, the file event itself, or nothing. */
  ghost function StoreEvent(s: Tus.State, e: Tus.Event): Option<Event> {
    match e
    case FileEvent(x) => Some(x)
    case PatchSession(q, fin) =>
      if Tus.CheckPatch(s, q).Ok? && s.sessions[q.id].offset + |q.body| == s.sessions[q.id].length then
        var bytes := s.blobs[q.id] + q.body;
        Some(FinishUpload(q.user, Tus.FieldsOf(s.sessions[q.id], q.id, bytes), fin.fileId, fin.now, fin.nonce))
      else None
    case _ => None
  }

  /** What the file server sees of a run. */
  ghost function StoreEvents(c: Config, s: Tus.State, events: Events): seq<Event> {
    if events == [] then []
    else
      var n := |events| - 1;
      match StoreEvent(Tus.Run(c, s, events[..n]), events[n])
      case Some(x) => StoreEvents(c, s, events[..n]) + [x]
      case None => StoreEvents(c, s, events[..n])
  }

  lemma StepOnStore(c: Config, s: Tus.State, e: Tus.Event)
    ensures Tus.Step(c, s, e).store == match StoreEvent(s, e) case Some(x) => Step(c, s.store, x) case None => s.store
  {
  }

  lemma RunAppend(c: Config, s: Store, events: seq<Event>, e: Event)
    ensures Run(c, s, events + [e]) == Step(c, Run(c, s, events), e)
  {
    assert (events + [e])[..|events|] == events;
  }

  /** The store of a run is that of the lifecycle run which the file server sees. */
  lemma {:induction false} StoreFollowsLifecycle(c: Config, s: Tus.State, events: Events)
    ensures Tus.Run(c, s, events).store == Run(c, s.store, StoreEvents(c, s, events))
  {
    if events != [] {
      var n := |events| - 1;
      var t := Tus.Run(c, s, events[..n]);
      StoreFollowsLifecycle(c, s, events[..n]);
      StepOnStore(c, t, events[n]);
      match StoreEvent(t, events[n]) {
        case Some(x) => RunAppend(c, s.store, StoreEvents(c, s, events[..n]), x);
        case None =>
      }
    }
  }

  // ---------------------------------------------------------------------------
  // Conditions on events carry over
  // ---------------------------------------------------------------------------

  /** Each event that the file server sees satisfies `P` where it happens. */
  ghost predicate Each(c: Config, s: Tus.State, events: Events, P: (Store, Event) -> bool) {
    forall i | 0 <= i < |events| ::
      var t := Tus.Run(c, s, events[..i]);
      match StoreEvent(t, events[i]) case Some(x) => P(t.store, x) case None => true
  }

  ghost predicate EachSeen(c: Config, s: Store, events: seq<Event>, P: (Store, Event) -> bool) {
    forall i | 0 <= i < |events| :: P(Run(c, s, events[..i]), events[i])
  }

  lemma {:induction false} EachIsSeen(c: Config, s: Tus.State, events: Events, P: (Store, Event) -> bool)
    requires Each(c, s, events, P)
    ensures EachSeen(c, s.store, StoreEvents(c, s, events), P)
  {
    if events != [] {
      var n := |events| - 1;
      EachPrefix(c, s, events, n, P);
      EachIsSeen(c, s, events[..n], P);
      StoreFollowsLifecycle(c, s, events[..n]);
      match StoreEvent(Tus.Run(c, s, events[..n]), events[n]) {
        case Some(x) => EachAppend(c, s.store, StoreEvents(c, s, events[..n]), x, P);
        case None =>
      }
    }
  }

  lemma EachPrefix(c: Config, s: Tus.State, events: Events, k: nat, P: (Store, Event) -> bool)
    requires Each(c, s, events, P) && k <= |events|
    ensures Each(c, s, events[..k], P)
  {
    forall i | 0 <= i < k
      ensures events[..k][..i] == events[..i]
    {
    }
  }

  lemma EachAppend(c: Config, s: Store, events: seq<Event>, x: Event, P: (Store, Event) -> bool)
    requires EachSeen(c, s, events, P) && P(Run(c, s, events), x)
    ensures EachSeen(c, s, events + [x], P)
  {
    var longer := events + [x];
    forall i | 0 <= i < |longer|
      ensures P(Run(c, s, longer[..i]), longer[i])
    {
      assert longer[..i] == events[..i];
      if i == |events| { assert events[..i] == events; }
    }
  }

  /** No new version is refused for quota or stored over a first one. */
  ghost predicate AdmissibleEvents(c: Config, s: Tus.State, events: Events) {
    Each(c, s, events, (t, x) => Admissible(c, t, x))
  }

  ghost predicate OrderlyEvents(c: Config, s: Tus.State, events: Events) {
    Each(c, s, events, (t, x) => Orderly(c, t, x))
  }

  ghost predicate CheckedEvents(c: Config, s: Tus.State, events: Events) {
    Each(c, s, events, (t, x) => QuotaRuns.Checked(c, t, x))
  }

  lemma AdmissibleIsSeen(c: Config, s: Tus.State, events: Events)
    requires AdmissibleEvents(c, s, events)
    ensures AdmissibleRun(c, s.store, StoreEvents(c, s, events))
  {
    var P := (t, x) => Admissible(c, t, x);
    EachIsSeen(c, s, events, P);
    var seen := StoreEvents(c, s, events);
    forall i | 0 <= i < |seen|
      ensures Admissible(c, Run(c, s.store, seen[..i]), seen[i])
    {
      assert P(Run(c, s.store, seen[..i]), seen[i]);
    }
  }

  // ---------------------------------------------------------------------------
  // The run theorems
  // ---------------------------------------------------------------------------

  /** Keys stay distinct, the bytes of surviving versions that were not moved stay as they are, and nothing returns. */
  lemma RunIsGood(c: Config, s: Tus.State, events: Events)
    requires Inv(s.store) && AdmissibleEvents(c, s, events)
    ensures GoodStep(s.store, Tus.Run(c, s, events).store, MovedIn(c, s.store, StoreEvents(c, s, events)))
  {
    AdmissibleIsSeen(c, s, events);
    StoreFollowsLifecycle(c, s, events);
    KeyInvariants.RunIsGood(c, s.store, StoreEvents(c, s, events));
  }

  /** Each file's history stays a contiguous block below its current version. */
  lemma RunKeepsHistoryContiguous(c: Config, events: Events)
    requires OrderlyEvents(c, Tus.FRESH, events)
    ensures History.Contiguous(Tus.Run(c, Tus.FRESH, events).store)
  {
    var P := (t, x) => Orderly(c, t, x);
    EachIsSeen(c, Tus.FRESH, events, P);
    var seen := StoreEvents(c, Tus.FRESH, events);
    forall i | 0 <= i < |seen|
      ensures Orderly(c, Run(c, EMPTY, seen[..i]), seen[i])
    {
      assert P(Run(c, EMPTY, seen[..i]), seen[i]);
    }
    StoreFollowsLifecycle(c, Tus.FRESH, events);
    History.RunKeepsHistoryContiguous(c, seen);
  }

  /** Caps hold. */
  lemma RunKeepsCaps(c: Config, s: Tus.State, events: Events)
    requires WithinCaps(c, s.store.files) && CheckedEvents(c, s, events)
    ensures WithinCaps(c, Tus.Run(c, s, events).store.files) && WithinQuotas(c, Tus.Run(c, s, events).store.files)
  {
    var P := (t, x) => QuotaRuns.Checked(c, t, x);
    EachIsSeen(c, s, events, P);
    var seen := StoreEvents(c, s, events);
    forall i | 0 <= i < |seen|
      ensures QuotaRuns.Checked(c, Run(c, s.store, seen[..i]), seen[i])
    {
      assert P(Run(c, s.store, seen[..i]), seen[i]);
    }
    StoreFollowsLifecycle(c, s, events);
    QuotaRuns.RunKeepsCaps(c, s.store, seen);
  }

  // ---------------------------------------------------------------------------
  // From chunks to downloads
  // ---------------------------------------------------------------------------

  /** The bodies written in a run, by file and version. */
  ghost function Written(c: Config, events: Events): map<VersionId, Bytes> {
    ReadBack.Written(c, StoreEvents(c, Tus.FRESH, events))
  }

  /** Every stored version reads back as the body written for it. */
  lemma EveryVersionReadsBack(c: Config, events: Events)
    requires Lawful(c.cipher) && AdmissibleEvents(c, Tus.FRESH, events)
    ensures ReadBack.ReadsBack(c, Tus.Run(c, Tus.FRESH, events).store, Written(c, events))
  {
    AdmissibleIsSeen(c, Tus.FRESH, events);
    StoreFollowsLifecycle(c, Tus.FRESH, events);
    ReadBack.EveryVersionReadsBack(c, StoreEvents(c, Tus.FRESH, events));
  }

  lemma LastWritten(c: Config, seen: seq<Event>, x: Event)
    ensures ReadBack.Written(c, seen + [x])
         == match ReadBack.Created(c, Run(c, EMPTY, seen), x)
            case Some((r, body)) => ReadBack.Written(c, seen)[r := body]
            case None => ReadBack.Written(c, seen)
  {
    assert (seen + [x])[..|seen|] == seen;
  }

  lemma LastStepKeepsWritten(c: Config, events: Events, r: VersionId)
    requires events != [] && AdmissibleEvents(c, Tus.FRESH, events) && r in Written(c, events[..|events| - 1])
    ensures r in Written(c, events) && Written(c, events)[r] == Written(c, events[..|events| - 1])[r]
  {
    var n := |events| - 1;
    AdmissibleIsSeen(c, Tus.FRESH, events);
    var seen := StoreEvents(c, Tus.FRESH, events);
    match StoreEvent(Tus.Run(c, Tus.FRESH, events[..n]), events[n]) {
      case Some(x) =>
        assert seen[..|seen| - 1] == StoreEvents(c, Tus.FRESH, events[..n]);
        ReadBack.WrittenOnce(c, seen, r);
      case None =>
    }
  }

  /** What was written once stays what it was. */
  lemma {:induction false} WrittenStays(c: Config, events: Events, k: nat, r: VersionId)
    requires AdmissibleEvents(c, Tus.FRESH, events) && k <= |events| && r in Written(c, events[..k])
    ensures r in Written(c, events) && Written(c, events)[r] == Written(c, events[..k])[r]
  {
    if k == |events| {
      assert events[..k] == events;
    } else {
      var n := |events| - 1;
      EachPrefix(c, Tus.FRESH, events, n, (t, x) => Admissible(c, t, x));
      assert events[..n][..k] == events[..k];
      WrittenStays(c, events[..n], k, r);
      LastStepKeepsWritten(c, events, r);
    }
  }

  /**
   A completed session's file, as long as its first version is stored, reads back as the concatenation of the chunks
   that the session received.
   */
  lemma FinishedUploadReadsBack(c: Config, events: Events, id: Uuid)
    requires Lawful(c.cipher) && Tus.RegularRun(c, Tus.FRESH, events) && AdmissibleEvents(c, Tus.FRESH, events)
    requires Tus.Done(Tus.Run(c, Tus.FRESH, events), id)
    ensures var s := Tus.Run(c, Tus.FRESH, events);
            var first: VersionId := (s.sessions[id].completed.value, 1);
            IsRef(s.store, first) ==>
              && RefKey(s.store, first) in s.store.objects
              && Unframed(c.cipher, c.cipher.Some?, s.store.objects[RefKey(s.store, first)])
                 == Ok(Tus.Received(c, Tus.FRESH, events, id))
  {
    var k := Tus.CompletedSessionIsOneShotUpload(c, events, id);
    var s := Tus.Run(c, Tus.FRESH, events[..k]);
    var bytes := Tus.Received(c, Tus.FRESH, events, id);
    FinishIsWritten(c, events, k, id, bytes);
    WrittenStays(c, events, k + 1, (events[k].fin.fileId, 1));
    EveryVersionReadsBack(c, events);
  }

  lemma FinishIsSeen(c: Config, s: Tus.State, e: Tus.Event, id: Uuid, bytes: Bytes)
    requires Tus.CompletesAsOneShot(c, s, e, id, bytes)
    ensures var x := StoreEvent(s, e);
            x.Some? && ReadBack.Created(c, s.store, x.value) == Some(((e.fin.fileId, 1), bytes))
  {
  }

  lemma FinishIsWritten(c: Config, events: Events, k: nat, id: Uuid, bytes: Bytes)
    requires k < |events| && Tus.CompletesAsOneShot(c, Tus.Run(c, Tus.FRESH, events[..k]), events[k], id, bytes)
    ensures var r: VersionId := (events[k].fin.fileId, 1);
            r in Written(c, events[..k + 1]) && Written(c, events[..k + 1])[r] == bytes
  {
    var s := Tus.Run(c, Tus.FRESH, events[..k]);
    var seen := StoreEvents(c, Tus.FRESH, events[..k]);
    StoreFollowsLifecycle(c, Tus.FRESH, events[..k]);
    FinishIsSeen(c, s, events[k], id, bytes);
    LastWritten(c, seen, StoreEvent(s, events[k]).value);
    assert events[..k + 1][..k] == events[..k];
  }
}
