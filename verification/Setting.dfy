/** A small server from which the counterexamples start. File ids and nonces, which the server draws, are arbitrary. */
module Setting {
  import opened Common
  import opened ObjectKeys
  import opened Storage
  import opened Schema
  import opened Quota
  import opened Lifecycle
  import opened KeyInvariants
  import QuotaRuns
  import Relocation

  // ---------------------------------------------------------------------------
  // A server with two systems, two users and one folder
  // ---------------------------------------------------------------------------

  /** System `s1` has a quota, user `u1` has one, and folder `d1` belongs to `s1`; 0 stands for no cap. */
  function Setup(systemQuota: int, userQuota: int, cipher: Option<Cipher>): Config {
    Settings(
      map["s1" := System("b1", systemQuota, "shared", None, false), "s2" := System("b2", 0, "shared", None, false)],
      map[], map["u1" := userQuota, "u2" := 0], None, map["d1" := "s1"], map[], cipher, (body: Bytes) => "")
  }

  function Form(name: string, body: Bytes, folder: Option<string>): UploadFields {
    UploadFields(Some(name), Some(body), Some("s1"), None, folder)
  }

  /** The server after its first upload. */
  function Uploaded(c: Config, f: UploadFields, file: Uuid, nonce: Nonce): Store
    requires f.name.Some? && f.body.Some? && f.systemId == Some("s1") && "s1" in c.systems
  {
    var row := Lifecycle.NewRow(c, "u1", f, file, 0);
    Store(map[file := row], map[], map[row.objectKey := Framed(c.cipher, nonce, f.body.value)], {file})
  }

  function FirstUpload(f: UploadFields, file: Uuid, nonce: Nonce): Event { Upload("u1", f, file, 0, nonce) }

  lemma RunOne(c: Config, e: Event)
    ensures Run(c, EMPTY, [e]) == Step(c, EMPTY, e)
  {
    assert [e][..0] == [];
  }

  lemma RunTwo(c: Config, e1: Event, e2: Event)
    ensures Run(c, EMPTY, [e1, e2]) == Step(c, Run(c, EMPTY, [e1]), e2)
  {
    assert [e1, e2][..1] == [e1];
  }

  lemma RunThree(c: Config, e1: Event, e2: Event, e3: Event)
    ensures Run(c, EMPTY, [e1, e2, e3]) == Step(c, Run(c, EMPTY, [e1, e2]), e3)
  {
    assert [e1, e2, e3][..2] == [e1, e2];
  }

  lemma RunFour(c: Config, e1: Event, e2: Event, e3: Event, e4: Event)
    ensures Run(c, EMPTY, [e1, e2, e3, e4]) == Step(c, Run(c, EMPTY, [e1, e2, e3]), e4)
  {
    assert [e1, e2, e3, e4][..3] == [e1, e2, e3];
  }

  lemma RunFive(c: Config, e1: Event, e2: Event, e3: Event, e4: Event, e5: Event)
    ensures Run(c, EMPTY, [e1, e2, e3, e4, e5]) == Step(c, Run(c, EMPTY, [e1, e2, e3, e4]), e5)
  {
    assert [e1, e2, e3, e4, e5][..4] == [e1, e2, e3, e4];
  }

  lemma RunSix(c: Config, e1: Event, e2: Event, e3: Event, e4: Event, e5: Event, e6: Event)
    ensures Run(c, EMPTY, [e1, e2, e3, e4, e5, e6]) == Step(c, Run(c, EMPTY, [e1, e2, e3, e4, e5]), e6)
  {
    assert [e1, e2, e3, e4, e5, e6][..5] == [e1, e2, e3, e4, e5];
  }

  lemma EmptyIsGood(c: Config)
    ensures Inv(EMPTY) && Relocation.Rooted(c, EMPTY) && WithinCaps(c, EMPTY.files)
  {
  }

  /** The first upload is accepted if it fits, and every invariant holds after it. */
  lemma FirstUploadWorks(c: Config, f: UploadFields, file: Uuid, nonce: Nonce)
    requires f.name.Some? && f.body.Some? && f.systemId == Some("s1") && "s1" in c.systems && "u1" !in c.userDefaults
    requires Enforce(c, map[], |f.body.value|, f.systemId, f.orgId, Some("u1")).Ok?
    requires ForeignKeysHold(c, Lifecycle.NewRow(c, "u1", f, file, 0))
    ensures Run(c, EMPTY, [FirstUpload(f, file, nonce)]) == Uploaded(c, f, file, nonce)
    ensures Inv(Uploaded(c, f, file, nonce)) && Relocation.Rooted(c, Uploaded(c, f, file, nonce))
    ensures WithinCaps(c, Uploaded(c, f, file, nonce).files)
  {
    var e := FirstUpload(f, file, nonce);
    RunOne(c, e);
    EmptyIsGood(c);
    assert WithDefaults(c, "u1", f) == f;
    assert Step(c, EMPTY, e) == Uploaded(c, f, file, nonce);
    StepIsGood(c, EMPTY, e);
    Relocation.EventRooted(c, EMPTY, e);
    QuotaRuns.StepKeepsCapsIff(c, EMPTY, e);
  }

  lemma UsageOfOne(file: Uuid, row: FileRow, scope: Scope)
    ensures Usage(map[file := row], scope) == Weight(row, scope)
  {
    UsageWithout(map[file := row], file, scope);
    assert map[file := row] - {file} == map[];
  }

  /** What a name that is safe already is stored as. */
  lemma PlainName(name: string)
    requires SafeName(name)
    ensures Sanitize(name) == name
  {
    SafeIffFixed(name);
  }

  /** Without caps everything fits. */
  lemma NoCaps(cipher: Option<Cipher>, files: map<Uuid, FileRow>, size: nat, user: Option<string>, org: Option<string>)
    ensures var c := Setup(0, 0, cipher);
            forall systemId: Option<string> :: Enforce(c, files, size, systemId, org, user).Ok?
  {
    var c := Setup(0, 0, cipher);
    assert forall scope: Scope :: Cap(c, scope) <= 0;
  }

  const PLAIN: UploadFields := Form("a", [7], None)
  const IN_FOLDER: UploadFields := Form("a", [7], Some("d1"))

  /** One live file with body [7], called "a", in system `s1`. */
  ghost predicate OnlyFile(s: Store, file: Uuid, folder: Option<string>) {
    var key := FirstKey("b1", file, "a");
    && s.files == map[file := FileRow("a", "b1", key, 1, 1, "s1", None, folder, Some("u1"), 0, None, "", false)]
    && s.versions == map[] && s.objects == map[key := [7]]
  }

  /** Any quota admits one byte. */
  lemma OneByteFits(systemQuota: nat, userQuota: nat, folder: Option<string>, file: Uuid)
    requires folder.Some? ==> folder.value == "d1"
    ensures var c, f := Setup(systemQuota, userQuota, None), Form("a", [7], folder);
            && Enforce(c, map[], 1, f.systemId, f.orgId, Some("u1")).Ok?
            && ForeignKeysHold(c, Lifecycle.NewRow(c, "u1", f, file, 0))
  {
  }

  lemma OneFile(systemQuota: nat, userQuota: nat, folder: Option<string>, file: Uuid, nonce: Nonce)
    requires folder.Some? ==> folder.value == "d1"
    ensures var c := Setup(systemQuota, userQuota, None);
            var s := Run(c, EMPTY, [FirstUpload(Form("a", [7], folder), file, nonce)]);
            && OnlyFile(s, file, folder) && Inv(s) && WithinCaps(c, s.files) && Relocation.Rooted(c, s)
  {
    OneByteFits(systemQuota, userQuota, folder, file);
    FirstUploadWorks(Setup(systemQuota, userQuota, None), Form("a", [7], folder), file, nonce);
  }
}
