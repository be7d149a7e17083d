/**
 Where the code does not keep what it promises: for each exact condition, one input that reaches the failing side. The
 collisions of object keys are in `KeyCounterexamples`.
 */
module Counterexamples {
  import opened Common
  import opened ObjectKeys
  import opened Storage
  import opened Schema
  import opened Quota
  import opened Lifecycle
  import opened KeyInvariants
  import opened Setting
  import QuotaRuns
  import ReadBack
  import Relocation
  import Policies
  import RotationRace
  import Tus
  import Workflow
  import FsStore
  import FsDisk
  import Ranges

  // ---------------------------------------------------------------------------
  // Versions
  // ---------------------------------------------------------------------------

  /**
   A second version refused for quota breaks the invariant, and the next pruning to one version deletes the live bytes.
   */
  lemma RefusedVersionBreaksInv(file: Uuid, nonce: Nonce)
    ensures var c := Setup(1, 0, None);
            var s := Run(c, EMPTY, [FirstUpload(PLAIN, file, nonce)]);
            var (s', r) := UploadVersion(c, s, "u1", file, None, Some([7, 7]), nonce);
            && Inv(s) && r == Err(PayloadTooLarge) && !Inv(s')
            && file in s'.files && s'.files[file].objectKey in s'.objects
            && s'.files[file].objectKey !in Prune(s', file, 1, {}).objects
  {
    var c := Setup(1, 0, None);
    OneFile(1, 0, None, file, nonce);
    RefusedVersion(Run(c, EMPTY, [FirstUpload(PLAIN, file, nonce)]), file, nonce);
  }

  lemma RefusedVersion(s: Store, file: Uuid, nonce: Nonce)
    requires OnlyFile(s, file, None) && Inv(s)
    ensures var (s', r) := UploadVersion(Setup(1, 0, None), s, "u1", file, None, Some([7, 7]), nonce);
            && r == Err(PayloadTooLarge) && !Inv(s')
            && file in s'.files && s'.files[file].objectKey in s'.objects
            && s'.files[file].objectKey !in Prune(s', file, 1, {}).objects
  {
    var c := Setup(1, 0, None);
    UsageOfOne(file, s.files[file], InSystem("s1"));
    assert !Fits(c, s.files, 2, InSystem("s1"));
    NewVersionKeepsInvIff(c, s, "u1", file, None, Some([7, 7]), nonce);
  }

  // ---------------------------------------------------------------------------
  // Renames and moves
  // ---------------------------------------------------------------------------

  function Renaming(folder: Option<Option<string>>, nonce: Nonce): Request {
    Request(PatchFields(Some("b"), None, None, folder), {}, nonce, {})
  }

  lemma OtherKey(file: Uuid)
    ensures FirstKey("b1", file, "a") != FirstKey("b1", file, "b")
  {
    PlainName("a");
    PlainName("b");
    if FirstKey("b1", file, "a") == FirstKey("b1", file, "b") { KeyTailInjective("b1", file, "a", "b"); }
  }

  /** A rename into an unknown folder is refused, and the file's bytes are gone. */
  lemma RefusedPatchLosesBytes(file: Uuid, nonce: Nonce)
    ensures var c := Setup(0, 0, None);
            var s := Run(c, EMPTY, [FirstUpload(PLAIN, file, nonce)]);
            var (s', r) := ApplyPatch(c, s, file, Renaming(Some(Some("nowhere")), nonce));
            && file in s.files && ReadFile(c, s, file) == Ok(Some([7]))
            && r == Err(BadRequest) && s'.files == s.files && ReadFile(c, s', file) != Ok(Some([7]))
  {
    var c := Setup(0, 0, None);
    OneFile(0, 0, None, file, nonce);
    RefusedAt(Run(c, EMPTY, [FirstUpload(PLAIN, file, nonce)]), file, nonce);
  }

  lemma RenameIsRefused(s: Store, file: Uuid, nonce: Nonce)
    requires OnlyFile(s, file, None)
    ensures var c, q := Setup(0, 0, None), Renaming(Some(Some("nowhere")), nonce);
            && ReadFile(c, s, file) == Ok(Some([7])) && Relocates(c, s, file, q.fields)
            && ApplyPatch(c, s, file, q).1 == Err(BadRequest)
  {
    OtherKey(file);
  }

  lemma RefusedAt(s: Store, file: Uuid, nonce: Nonce)
    requires OnlyFile(s, file, None) && Relocation.Rooted(Setup(0, 0, None), s)
    ensures var c := Setup(0, 0, None);
            var (s', r) := ApplyPatch(c, s, file, Renaming(Some(Some("nowhere")), nonce));
            && ReadFile(c, s, file) == Ok(Some([7])) && r == Err(BadRequest)
            && s'.files == s.files && ReadFile(c, s', file) != Ok(Some([7]))
  {
    RenameIsRefused(s, file, nonce);
    Relocation.RefusedPatchKeepsBytesIff(Setup(0, 0, None), s, file, Renaming(Some(Some("nowhere")), nonce), [7]);
  }

  const TAG: Bytes := seq(TAG_LENGTH, _ => 0)

  /** A cipher with the lengths of AES-GCM, for the sake of having one. */
  const TOY: Cipher := Cipher(
    (nonce: Nonce, body: Bytes) => body + TAG,
    (nonce: Nonce, sealed: Bytes) => if |sealed| >= TAG_LENGTH then Some(sealed[..|sealed| - TAG_LENGTH]) else None)

  lemma ToyIsLawful()
    ensures Lawful(Some(TOY))
  {
    forall nonce: Nonce, body: Bytes
      ensures TOY.unseal(nonce, TOY.seal(nonce, body)) == Some(body)
      ensures |TOY.seal(nonce, body)| == |body| + TAG_LENGTH
    {
      assert (body + TAG)[..|body|] == body;
    }
  }

  /** A file uploaded in plaintext and renamed after encryption was switched on no longer reads back. */
  lemma RenameAfterSwitchGarbles(file: Uuid, nonce: Nonce)
    ensures var c, c' := Setup(0, 0, None), Setup(0, 0, Some(TOY));
            var s := Run(c, EMPTY, [FirstUpload(PLAIN, file, nonce)]);
            var (s', r) := ApplyPatch(c', s, file, Renaming(None, nonce));
            && Lawful(c'.cipher) && file in s.files && ReadFile(c', s, file) == Ok(Some([7]))
            && r == Ok(()) && file in s'.files && ReadFile(c', s', file) != Ok(Some([7]))
  {
    OneFile(0, 0, None, file, nonce);
    ToyIsLawful();
    RenameGarbles(Run(Setup(0, 0, None), EMPTY, [FirstUpload(PLAIN, file, nonce)]), file, nonce);
  }

  lemma RenameGarbles(s: Store, file: Uuid, nonce: Nonce)
    requires OnlyFile(s, file, None) && Lawful(Some(TOY))
    ensures var c' := Setup(0, 0, Some(TOY));
            var (s', r) := ApplyPatch(c', s, file, Renaming(None, nonce));
            && ReadFile(c', s, file) == Ok(Some([7]))
            && r == Ok(()) && file in s'.files && ReadFile(c', s', file) != Ok(Some([7]))
  {
    OtherKey(file);
    Relocation.RelocationReadsBackIff(Setup(0, 0, Some(TOY)), s, file, Renaming(None, nonce), [7]);
  }

  /** Nor does one saved from an editor then, and its archived version is labelled with the new body's size. */
  lemma SaveAfterSwitchGarbles(file: Uuid, nonce: Nonce)
    ensures var c, c' := Setup(0, 0, None), Setup(0, 0, Some(TOY));
            var s := Run(c, EMPTY, [FirstUpload(PLAIN, file, nonce)]);
            var (s', r) := WopiPutFile(c', s, file, [8, 8], nonce);
            && Lawful(c'.cipher) && r == Ok(2) && file in s'.files
            && ReadFile(c', s', file) != Ok(Some([8, 8]))
            && (file, 1) in s'.versions && s'.versions[(file, 1)].size == 2
            && s'.versions[(file, 1)].objectKey in s'.objects
            && s'.objects[s'.versions[(file, 1)].objectKey] == [7]
  {
    OneFile(0, 0, None, file, nonce);
    ToyIsLawful();
    SaveGarbles(Run(Setup(0, 0, None), EMPTY, [FirstUpload(PLAIN, file, nonce)]), file, nonce);
  }

  lemma OtherVersionKey(file: Uuid)
    ensures FirstKey("b1", file, "a") != VersionKey("b1", file, 2, "a")
  {
    PlainName("a");
    if FirstKey("b1", file, "a") == VersionKey("b1", file, 2, "a") {
      KeyTailInjective("b1", file, "a", VersionTail(2, "a"));
    }
  }

  lemma SaveGarbles(s: Store, file: Uuid, nonce: Nonce)
    requires OnlyFile(s, file, None) && Lawful(Some(TOY))
    ensures var c' := Setup(0, 0, Some(TOY));
            var (s', r) := WopiPutFile(c', s, file, [8, 8], nonce);
            && r == Ok(2) && file in s'.files && ReadFile(c', s', file) != Ok(Some([8, 8]))
            && (file, 1) in s'.versions && s'.versions[(file, 1)].size == 2
            && s'.versions[(file, 1)].objectKey in s'.objects
            && s'.objects[s'.versions[(file, 1)].objectKey] == [7]
  {
    NoCaps(Some(TOY), s.files, 2, Some("u1"), None);
    OtherVersionKey(file);
    ReadBack.WopiSaveReadsBackIff(Setup(0, 0, Some(TOY)), s, file, [8, 8], nonce);
  }

  function Moving(nonce: Nonce): Request {
    Request(PatchFields(None, Some("s2"), None, None), {}, nonce, {})
  }

  /** A file moved to another system without naming a folder stays in a folder of its old system. */
  lemma MoveLeavesFolderBehind(file: Uuid, nonce: Nonce)
    ensures var c := Setup(0, 0, None);
            var s := Run(c, EMPTY, [FirstUpload(IN_FOLDER, file, nonce)]);
            var (s', r) := ApplyPatch(c, s, file, Moving(nonce));
            && file in s.files && Relocation.FolderInSystem(c, s.files[file])
            && r == Ok(()) && file in s'.files && !Relocation.FolderInSystem(c, s'.files[file])
  {
    OneFile(0, 0, Some("d1"), file, nonce);
    MoveKeepsFolder(Run(Setup(0, 0, None), EMPTY, [FirstUpload(IN_FOLDER, file, nonce)]), file, nonce);
  }

  lemma MoveKeepsFolder(s: Store, file: Uuid, nonce: Nonce)
    requires OnlyFile(s, file, Some("d1"))
    ensures var c := Setup(0, 0, None);
            var (s', r) := ApplyPatch(c, s, file, Moving(nonce));
            && Relocation.FolderInSystem(c, s.files[file])
            && r == Ok(()) && file in s'.files && !Relocation.FolderInSystem(c, s'.files[file])
  {
    Relocation.PatchKeepsFolderInSystemIff(Setup(0, 0, None), s, file, Moving(nonce));
  }

  // ---------------------------------------------------------------------------
  // Caps
  // ---------------------------------------------------------------------------

  /** The trash is not counted, so a restore overruns a cap that the next upload filled. */
  lemma RestoreOverrunsCap(file: Uuid, other: Uuid, nonce: Nonce)
    requires file != other
    ensures var c := Setup(1, 0, None);
            var e1, e2, e3 := FirstUpload(PLAIN, file, nonce), TrashFile(file, 1), FirstUpload(PLAIN, other, nonce);
            var s := Run(c, EMPTY, [e1, e2, e3]);
            WithinCaps(c, s.files) && !WithinCaps(c, Restore(s, file).files)
  {
    var c := Setup(1, 0, None);
    var e1, e2, e3 := FirstUpload(PLAIN, file, nonce), TrashFile(file, 1), FirstUpload(PLAIN, other, nonce);
    OneFile(1, 0, None, file, nonce);
    RunTwo(c, e1, e2);
    RunThree(c, e1, e2, e3);
    RestoreAfterRefill(Run(c, EMPTY, [e1]), file, other, nonce);
  }

  /** One trashed file of one byte. */
  ghost predicate OnlyTrashed(u: Store, file: Uuid) {
    && file in u.files && u.files == map[file := u.files[file]] && WithinCaps(Setup(1, 0, None), u.files)
    && u.files[file].deletedAt.Some? && u.files[file].systemId == "s1" && u.files[file].size == 1
  }

  lemma Trashing(s: Store, file: Uuid)
    requires OnlyFile(s, file, None) && WithinCaps(Setup(1, 0, None), s.files)
    ensures OnlyTrashed(Step(Setup(1, 0, None), s, TrashFile(file, 1)), file)
  {
    QuotaRuns.RemovalKeepsCaps(Setup(1, 0, None), s, TrashFile(file, 1));
  }

  /** Beside it there is room for one byte, and none after that. */
  lemma Refill(u: Store, file: Uuid, other: Uuid, nonce: Nonce)
    requires OnlyTrashed(u, file) && file != other
    ensures var t := Step(Setup(1, 0, None), u, FirstUpload(PLAIN, other, nonce));
            && file in t.files && t.files[file] == u.files[file] && Usage(t.files, InSystem("s1")) == 1
            && WithinCaps(Setup(1, 0, None), t.files)
  {
    var c := Setup(1, 0, None);
    UsageOfOne(file, u.files[file], InSystem("s1"));
    assert Enforce(c, u.files, 1, Some("s1"), None, Some("u1")).Ok?;
    assert WithDefaults(c, "u1", PLAIN) == PLAIN;
    var t := InsertFile(c, u, "u1", PLAIN, other, 0, nonce).0;
    UsageUpdate(u.files, other, t.files[other], InSystem("s1"));
    QuotaRuns.InsertFileKeepsCaps(c, u, "u1", PLAIN, other, 0, nonce);
  }

  lemma RestoreAfterRefill(s: Store, file: Uuid, other: Uuid, nonce: Nonce)
    requires OnlyFile(s, file, None) && WithinCaps(Setup(1, 0, None), s.files) && file != other
    ensures var c := Setup(1, 0, None);
            var t := Step(c, Step(c, s, TrashFile(file, 1)), FirstUpload(PLAIN, other, nonce));
            WithinCaps(c, t.files) && !WithinCaps(c, Restore(t, file).files)
  {
    var c := Setup(1, 0, None);
    Trashing(s, file);
    var u := Step(c, s, TrashFile(file, 1));
    Refill(u, file, other, nonce);
    RestoreOverruns(Step(c, u, FirstUpload(PLAIN, other, nonce)), file);
  }

  lemma RestoreOverruns(t: Store, file: Uuid)
    requires WithinCaps(Setup(1, 0, None), t.files) && Usage(t.files, InSystem("s1")) == 1
    requires file in t.files && t.files[file].deletedAt.Some?
    requires t.files[file].systemId == "s1" && t.files[file].size == 1
    ensures !WithinCaps(Setup(1, 0, None), Restore(t, file).files)
  {
    assert !Fits(Setup(1, 0, None), t.files, 1, InSystem("s1"));
    QuotaRuns.RestoreKeepsCapsIff(Setup(1, 0, None), t, file);
  }

  /** A new version by someone else is charged to the creator but checked against the uploader. */
  lemma OthersVersionOverrunsCap(file: Uuid, nonce: Nonce)
    ensures var c := Setup(0, 1, None);
            var s := Run(c, EMPTY, [FirstUpload(PLAIN, file, nonce)]);
            var (s', r) := UploadVersion(c, s, "u2", file, None, Some([7, 7]), nonce);
            WithinCaps(c, s.files) && r == Ok(2) && !WithinCaps(c, s'.files)
  {
    var c := Setup(0, 1, None);
    OneFile(0, 1, None, file, nonce);
    OthersVersionOverruns(Run(c, EMPTY, [FirstUpload(PLAIN, file, nonce)]), file, nonce);
  }

  lemma OthersVersionOverruns(s: Store, file: Uuid, nonce: Nonce)
    requires OnlyFile(s, file, None) && WithinCaps(Setup(0, 1, None), s.files)
    ensures var c := Setup(0, 1, None);
            var (s', r) := UploadVersion(c, s, "u2", file, None, Some([7, 7]), nonce);
            r == Ok(2) && !WithinCaps(c, s'.files)
  {
    var c := Setup(0, 1, None);
    UsageOfOne(file, s.files[file], OfUser("u1"));
    assert Enforce(c, s.files, 2, Some("s1"), None, Some("u2")).Ok?;
    QuotaRuns.NewVersionKeepsCapsIff(c, s, "u2", file, None, Some([7, 7]), nonce);
  }

  function IntoSecond(file: Uuid, nonce: Nonce): Event {
    Upload("u1", UploadFields(Some("a"), Some([7]), Some("s2"), None, None), file, 0, nonce)
  }

  function MovingBack(nonce: Nonce): Request {
    Request(PatchFields(None, Some("s1"), None, None), {}, nonce, {})
  }

  /** Two files of one byte, one in each system. */
  ghost predicate OneInEach(s: Store, file: Uuid, other: Uuid) {
    && file != other && Live(s, other) && s.files[other].systemId == "s2" && s.files[other].size == 1
    && s.files[other].name == "a" && s.files[other].orgId.None? && s.files[other].folderId.None?
    && s.files[other].createdBy == Some("u1") && !s.files[other].encrypted
    && Usage(s.files, InSystem("s1")) == 1 && WithinCaps(Setup(1, 0, None), s.files)
  }

  lemma SecondSystemFilled(s: Store, file: Uuid, other: Uuid, nonce: Nonce)
    requires OnlyFile(s, file, None) && WithinCaps(Setup(1, 0, None), s.files) && file != other
    ensures OneInEach(Step(Setup(1, 0, None), s, IntoSecond(other, nonce)), file, other)
  {
    var c, e := Setup(1, 0, None), IntoSecond(other, nonce);
    assert WithDefaults(c, "u1", e.fields) == e.fields;
    var t := InsertFile(c, s, "u1", e.fields, other, 0, nonce).0;
    QuotaRuns.InsertFileKeepsCaps(c, s, "u1", e.fields, other, 0, nonce);
    UsageOfOne(file, s.files[file], InSystem("s1"));
    UsageUpdate(s.files, other, t.files[other], InSystem("s1"));
  }

  lemma MoveBackOverruns(s: Store, file: Uuid, other: Uuid, nonce: Nonce)
    requires OneInEach(s, file, other)
    ensures var (s', r) := ApplyPatch(Setup(1, 0, None), s, other, MovingBack(nonce));
            r == Ok(()) && !WithinCaps(Setup(1, 0, None), s'.files)
  {
    var c := Setup(1, 0, None);
    assert !Fits(c, s.files, 1, InSystem("s1"));
    QuotaRuns.PatchKeepsCapsIff(c, s, other, MovingBack(nonce));
    assert QuotaRuns.Enters(
      s.files[other], PatchedRow(c, other, s.files[other], MovingBack(nonce).fields), InSystem("s1"));
  }

  /** A move is not checked: it overruns the quota of a system that is full already. */
  lemma MoveOverrunsCap(file: Uuid, other: Uuid, nonce: Nonce)
    requires file != other
    ensures var c := Setup(1, 0, None);
            var s := Run(c, EMPTY, [FirstUpload(PLAIN, file, nonce), IntoSecond(other, nonce)]);
            var (s', r) := ApplyPatch(c, s, other, MovingBack(nonce));
            WithinCaps(c, s.files) && r == Ok(()) && !WithinCaps(c, s'.files)
  {
    var c := Setup(1, 0, None);
    OneFile(1, 0, None, file, nonce);
    RunTwo(c, FirstUpload(PLAIN, file, nonce), IntoSecond(other, nonce));
    SecondSystemFilled(Run(c, EMPTY, [FirstUpload(PLAIN, file, nonce)]), file, other, nonce);
    MoveBackOverruns(
      Run(c, EMPTY, [FirstUpload(PLAIN, file, nonce), IntoSecond(other, nonce)]), file, other, nonce);
  }

  // ---------------------------------------------------------------------------
  // The worker, uploads in pieces, the disk, workflows
  // ---------------------------------------------------------------------------

  const AFTER_A_DAY: Policies.Policy := Policies.Policy(Policies.WorkspaceScope, None, 0, 0, 1)

  /** A pass has just begun with the file in its list, due to be purged. */
  ghost predicate PassBegun(s: RotationRace.State, file: Uuid) {
    && s.worker.Busy? && |s.worker.todo| == 1 && s.worker.phase.ToPrune? && s.worker.todo[0].id == file
    && s.worker.ps == [AFTER_A_DAY] && s.now == DAY + 1
    && file in s.store.files && s.store.files[file].deletedAt == Some(0) && s.worker.todo[0].deletedAt == Some(0)
  }

  ghost function Last(t: RotationRace.Trace): RotationRace.State
    requires t.states != []
  {
    t.states[|t.states| - 1]
  }

  lemma Extend(c: Config, t: RotationRace.Trace, a: RotationRace.Action) returns (t': RotationRace.Trace)
    requires RotationRace.IsRun(c, t) && RotationRace.Enabled(Last(t), a)
    ensures RotationRace.IsRun(c, t') && t'.actions == t.actions + [a] && t.states < t'.states
    ensures Last(t') == RotationRace.Do(c, Last(t), a)
  {
    t' := RotationRace.Trace(t.states + [RotationRace.Do(c, Last(t), a)], t.actions + [a]);
    forall i | 0 <= i < |t'.actions|
      ensures RotationRace.Follows(c, t', i)
    {
      if i < |t.actions| { assert RotationRace.Follows(c, t, i); }
    }
  }

  /** The policies are set and the file is there. */
  lemma FileIsThere(file: Uuid, nonce: Nonce) returns (t: RotationRace.Trace)
    ensures RotationRace.IsRun(Setup(0, 0, None), t) && OnlyFile(Last(t).store, file, None)
    ensures Last(t).now == 0 && Last(t).policies == [AFTER_A_DAY] && Last(t).worker.Idle?
  {
    var c := Setup(0, 0, None);
    var e := FirstUpload(PLAIN, file, nonce);
    t := RotationRace.Trace([RotationRace.State(0, EMPTY, [], RotationRace.Idle)], []);
    t := Extend(c, t, RotationRace.EditPolicies([AFTER_A_DAY]));
    OneFile(0, 0, None, file, nonce);
    RunOne(c, e);
    t := Extend(c, t, RotationRace.Request(e));
  }

  lemma BeginPass(file: Uuid, nonce: Nonce) returns (t: RotationRace.Trace)
    ensures RotationRace.IsRun(Setup(0, 0, None), t) && PassBegun(Last(t), file)
  {
    var c := Setup(0, 0, None);
    t := FileIsThere(file, nonce);
    t := Extend(c, t, RotationRace.Request(TrashFile(file, 0)));
    t := Extend(c, t, RotationRace.Tick(DAY + 1));
    t := Extend(c, t, RotationRace.Begin([file]));
  }

  /** The file is out of the trash while the pass is at work. */
  ghost predicate RestoredInPass(s: RotationRace.State, file: Uuid) { s.worker.Busy? && Live(s.store, file) }

  lemma Retrash(c: Config, t: RotationRace.Trace, file: Uuid) returns (t': RotationRace.Trace, i: nat)
    requires RotationRace.IsRun(c, t) && PassBegun(Last(t), file)
    ensures RotationRace.IsRun(c, t') && t.states < t'.states
    ensures |t.states| <= i < |t'.states| && RestoredInPass(t'.states[i], file)
    ensures Last(t') == RotationRace.Retrashed(Last(t), DAY + 1)
  {
    t' := Extend(c, t, RotationRace.Request(RestoreFile(file)));
    i := |t'.states| - 1;
    t' := Extend(c, t', RotationRace.Request(TrashFile(file, DAY + 1)));
    t' := Extend(c, t', RotationRace.Tick(DAY + 1));
  }

  lemma LastLevelCounts(x: nat)
    ensures Policies.FirstPositive([0, 0, 0, x]) == x
  {
    assert Policies.FirstPositive([x]) == x;
    assert [0, x][1..] == [x] && Policies.FirstPositive([0, x]) == x;
    assert [0, 0, x][1..] == [0, x] && Policies.FirstPositive([0, 0, x]) == x;
    assert [0, 0, 0, x][1..] == [0, 0, x];
  }

  lemma PolicyInForce(f: Policies.FileMin)
    ensures Policies.Resolved([AFTER_A_DAY], f) == Policies.Effective(0, 0, 1)
  {
    forall level: nat
      ensures Policies.Scan([AFTER_A_DAY], f, level)
              == if Policies.Applies(AFTER_A_DAY, f, level) then Some(AFTER_A_DAY) else None
    {
      assert [AFTER_A_DAY][1..] == [];
    }
    LastLevelCounts(0);
    LastLevelCounts(1);
  }

  lemma RetrashedIsPurged(s: RotationRace.State, file: Uuid)
    requires PassBegun(s, file)
    ensures var pruned := RotationRace.WorkerStep(RotationRace.Retrashed(s, DAY + 1), {});
            pruned.worker.Busy? && file !in RotationRace.Aged(pruned, {}).store.files
  {
    PolicyInForce(s.worker.todo[0]);
    RotationRace.RetrashedFilePurgedIff(s, DAY + 1, {});
  }

  lemma Age(c: Config, t: RotationRace.Trace) returns (t': RotationRace.Trace)
    requires RotationRace.IsRun(c, t) && Last(t).worker.Busy?
    ensures RotationRace.IsRun(c, t') && t.states < t'.states && Last(t') == RotationRace.Aged(Last(t), {})
  {
    t' := Extend(c, t, RotationRace.Work({}));
    if Last(t').worker.Busy? && Last(t').worker.phase.Purging? { t' := Extend(c, t', RotationRace.Work({})); }
  }

  /** A file restored while a pass is at work and trashed again is purged by that pass, a day late as it is. */
  lemma RestoredFileIsPurged(file: Uuid, nonce: Nonce) returns (t: RotationRace.Trace, b: nat, i: nat)
    ensures RotationRace.IsRun(Setup(0, 0, None), t) && b < i < |t.states|
    ensures PassBegun(t.states[b], file) && RestoredInPass(t.states[i], file) && file !in Last(t).store.files
  {
    var c := Setup(0, 0, None);
    t := BeginPass(file, nonce);
    b := |t.states| - 1;
    var s := Last(t);
    t, i := Retrash(c, t, file);
    RetrashedIsPurged(s, file);
    t := Extend(c, t, RotationRace.Work({}));
    t := Age(c, t);
  }

  /** Session metadata that names the system only. */
  const META: map<string, string> := map["system_id" := "s1"]

  function Opening(session: Uuid): Tus.Event { Tus.CreateSession("u1", Some(1), META, session, 0) }

  function Completing(session: Uuid, file: Uuid, nonce: Nonce): Tus.Event {
    Tus.PatchSession(Tus.Chunk("u1", session, Some(0), Tus.CHUNK_TYPE, [7]), Tus.Finish(file, 0, nonce, false))
  }

  function Repeating(session: Uuid, file: Uuid, nonce: Nonce): Tus.Event {
    Tus.PatchSession(Tus.Chunk("u1", session, Some(1), Tus.CHUNK_TYPE, []), Tus.Finish(file, 0, nonce, true))
  }

  /** A session that is full and completed, with its blob still there. */
  ghost predicate LeftOver(s: Tus.State, session: Uuid) {
    && Tus.Done(s, session) && session in s.blobs && |s.blobs[session]| == 1
    && var x := s.sessions[session];
       x.owner == "u1" && x.length == 1 && x.offset == 1 && x.systemId == "s1" && x.orgId.None? && x.folderId.None?
  }

  ghost predicate JustOpened(s: Tus.State, session: Uuid) {
    && s.sessions == map[session := Tus.Session("u1", 1, 0, None, "s1", None, None, DAY, None)]
    && s.blobs == map[session := []] && s.store == EMPTY && s.made == []
  }

  lemma CompletedMade(s: Tus.State, session: Uuid, file: Uuid, nonce: Nonce)
    requires JustOpened(s, session)
    ensures Tus.Step(Setup(0, 0, None), s, Completing(session, file, nonce)).made == [(session, file)]
    ensures LeftOver(Tus.Step(Setup(0, 0, None), s, Completing(session, file, nonce)), session)
  {
    NoCaps(None, map[], 1, Some("u1"), None);
    assert s.blobs[session] + [7] == [7];
  }

  lemma CompletedOnce(s: Tus.State, session: Uuid, file: Uuid, nonce: Nonce)
    requires JustOpened(s, session)
    ensures var t := Tus.Step(Setup(0, 0, None), s, Completing(session, file, nonce));
            LeftOver(t, session) && Tus.Made(t.made, session) == 1
  {
    CompletedMade(s, session, file, nonce);
    Tus.MadeAppend([], (session, file), session);
    assert [] + [(session, file)] == [(session, file)];
  }

  lemma OpenedAndCompleted(session: Uuid, file: Uuid, nonce: Nonce)
    ensures var c := Setup(0, 0, None);
            var s := Tus.Step(c, Tus.Step(c, Tus.FRESH, Opening(session)), Completing(session, file, nonce));
            LeftOver(s, session) && Tus.Made(s.made, session) == 1
  {
    var s := Tus.Step(Setup(0, 0, None), Tus.FRESH, Opening(session));
    assert JustOpened(s, session);
    CompletedOnce(s, session, file, nonce);
  }

  lemma RunTwoTus(c: Config, e1: Tus.Event, e2: Tus.Event)
    ensures Tus.Run(c, Tus.FRESH, [e1, e2]) == Tus.Step(c, Tus.Step(c, Tus.FRESH, e1), e2)
  {
    assert [e1, e2][..1] == [e1];
    assert [e1][..0] == [] && Tus.Run(c, Tus.FRESH, [e1]) == Tus.Step(c, Tus.FRESH, e1);
  }

  lemma RunThreeTus(c: Config, e1: Tus.Event, e2: Tus.Event, e3: Tus.Event)
    ensures Tus.Run(c, Tus.FRESH, [e1, e2, e3]) == Tus.Step(c, Tus.Run(c, Tus.FRESH, [e1, e2]), e3)
  {
    assert [e1, e2, e3][..2] == [e1, e2];
  }

  /** One session, whose blob could not be removed when it was completed, makes two files. */
  lemma LeftoverBlobMakesSecondFile(session: Uuid, file: Uuid, other: Uuid, nonce: Nonce)
    ensures var c := Setup(0, 0, None);
            var e1, e2, e3 := Opening(session), Completing(session, file, nonce), Repeating(session, other, nonce);
            var s, t := Tus.Run(c, Tus.FRESH, [e1, e2]), Tus.Run(c, Tus.FRESH, [e1, e2, e3]);
            Tus.Done(s, session) && Tus.Made(s.made, session) == 1 && Tus.Made(t.made, session) == 2
  {
    var c := Setup(0, 0, None);
    var e1, e2, e3 := Opening(session), Completing(session, file, nonce), Repeating(session, other, nonce);
    OpenedAndCompleted(session, file, nonce);
    RunTwoTus(c, e1, e2);
    RunThreeTus(c, e1, e2, e3);
    SecondFile(Tus.Run(c, Tus.FRESH, [e1, e2]), session, other, nonce);
  }

  lemma SecondFile(s: Tus.State, session: Uuid, other: Uuid, nonce: Nonce)
    requires LeftOver(s, session)
    ensures Tus.Made(Tus.Step(Setup(0, 0, None), s, Repeating(session, other, nonce)).made, session)
         == Tus.Made(s.made, session) + 1
  {
    NoCaps(None, s.store.files, 1, Some("u1"), None);
    Tus.LeftoverBlobFinalisesAgainIff(Setup(0, 0, None), s, session, Tus.Finish(other, 0, nonce, true));
  }

  /** The same server with a default org for `u1`. */
  const WITH_DEFAULT: Config :=
    Settings(
      map["s1" := System("b1", 0, "shared", None, false)], map["o1" := 0], map["u1" := 0], None, map[],
      map["u1" := Defaults(None, Some("o1"))], None, (body: Bytes) => "")

  lemma NoCapsWithDefault(files: map<Uuid, FileRow>, size: nat, org: Option<string>)
    ensures Enforce(WITH_DEFAULT, files, size, Some("s1"), org, Some("u1")).Ok?
  {
    assert forall scope: Scope :: Cap(WITH_DEFAULT, scope) <= 0;
  }

  lemma CompletedWithoutOrg(s: Tus.State, session: Uuid, file: Uuid, nonce: Nonce)
    requires JustOpened(s, session)
    ensures var t := Tus.Step(WITH_DEFAULT, s, Completing(session, file, nonce));
            && Tus.Done(t, session) && file in t.store.files && t.store.files[file].orgId == None
            && t.sessions[session].filename == None
  {
    NoCapsWithDefault(map[], 1, None);
    assert s.blobs[session] + [7] == [7];
  }

  /** The form that a one-shot upload of the same bytes sends. */
  function SameForm(session: Uuid): UploadFields {
    Tus.FieldsOf(Tus.Session("u1", 1, 0, None, "s1", None, None, DAY, None), session, [7])
  }

  lemma OneShotGetsDefault(session: Uuid, file: Uuid, nonce: Nonce)
    ensures var (s, r) := PersistUpload(WITH_DEFAULT, EMPTY, "u1", SameForm(session), file, 0, nonce);
            r == Ok(file) && s.files[file].orgId == Some("o1")
  {
    NoCapsWithDefault(map[], 1, Some("o1"));
  }

  /** A resumable upload of a user with a default org gets no org; a one-shot upload of the same bytes gets it. */
  lemma SessionIgnoresDefaultOrg(session: Uuid, file: Uuid, nonce: Nonce)
    ensures var e1, e2 := Opening(session), Completing(session, file, nonce);
            var s := Tus.Run(WITH_DEFAULT, Tus.FRESH, [e1, e2]).store;
            var (t, r) := PersistUpload(WITH_DEFAULT, EMPTY, "u1", SameForm(session), file, 0, nonce);
            file in s.files && s.files[file].orgId == None && r == Ok(file) && t.files[file].orgId == Some("o1")
  {
    var e1 := Opening(session);
    RunTwoTus(WITH_DEFAULT, e1, Completing(session, file, nonce));
    var s := Tus.Step(WITH_DEFAULT, Tus.FRESH, e1);
    assert JustOpened(s, session);
    CompletedWithoutOrg(s, session, file, nonce);
    OneShotGetsDefault(session, file, nonce);
  }

  /** The first file put into a new directory can vanish in a crash, although `put` returned after its fsyncs. */
  lemma FirstPutCanVanish(body: Bytes)
    ensures var t := FsDisk.PutAll(FsStore.EMPTY_ROOT, "b1/x", body, 0, 0);
            && FsStore.ViewAt(t, "b1/x") == Some(body)
            && exists found, kept :: FsStore.CrashTo(t, found, kept) && FsStore.ViewAt(found, "b1/x") != Some(body)
  {
    FsDisk.FinishedPutSurvivesIff(FsStore.EMPTY_ROOT, "b1/x", body, 0, 0);
  }

  /** A rejection that its reviewer takes back leaves the workflow rejected, though no step is rejected any more. */
  lemma TakenBackRejectionSticks()
    ensures var f := Workflow.Run(Workflow.Started(2), [Workflow.Choice(0, Workflow.Rejected)]);
            var g := Workflow.Decide(f, 0, Workflow.Approved).0;
            && Workflow.Consistent(f) && g.state == Workflow.AnyRejected
            && Workflow.RollUp(g.steps) == Workflow.InReview && !Workflow.Consistent(g)
  {
    Workflow.DecidedOnceIsRollUp(2, [Workflow.Choice(0, Workflow.Rejected)]);
    var f := Workflow.Run(Workflow.Started(2), [Workflow.Choice(0, Workflow.Rejected)]);
    assert f == Workflow.Decide(Workflow.Started(2), 0, Workflow.Rejected).0 by {
      assert [Workflow.Choice(0, Workflow.Rejected)][..0] == [];
    }
    assert f.steps == [Workflow.Rejected, Workflow.Pending] && f.steps[0] == Workflow.Rejected;
    Workflow.DecisionKeepsRollUpIff(f, 0, Workflow.Approved);
    assert f.steps[0 := Workflow.Approved] == [Workflow.Approved, Workflow.Pending];
    assert [Workflow.Approved, Workflow.Pending][1] != Workflow.Approved;
  }

  /** The example of the handler's own comment, on a body of 10000 bytes. */
  lemma DocumentedSuffixIsRefused()
    ensures var spec := Ranges.SuffixRange(1024);
            && Ranges.ParseRange(Ranges.Printed(spec), 10000) == None
            && Ranges.Selected(spec, 10000) == Some((8976, 9999))
  {
    Ranges.SuffixRangeOutcome(1024, 10000);
  }
}
