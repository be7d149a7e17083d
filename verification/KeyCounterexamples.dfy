/**
 Runs in which one version of a file is stored over another: new versions, saves and renames whose key a row already
 names. Every event before the last is admissible.
 */
module KeyCounterexamples {
  import opened Common
  import opened ObjectKeys
  import opened Storage
  import opened Schema
  import opened Lifecycle
  import opened KeyInvariants
  import opened Setting
  import Relocation

  const C: Config := Setup(0, 0, None)

  function First(file: Uuid, name: string, nonce: Nonce): Event { FirstUpload(Form(name, [1], None), file, nonce) }

  function Version(file: Uuid, name: string, body: Bytes, nonce: Nonce): Event {
    NewVersion("u1", file, Some(name), Some(body), nonce)
  }

  function Rename(file: Uuid, name: string, nonce: Nonce): Event {
    PatchFile(file, Request(PatchFields(Some(name), None, None, None), {}, nonce, {}))
  }

  /** The name of a file, what its keys end in, version by version, and its current body. */
  datatype Shelf = Shelf(name: string, tails: seq<string>, body: Bytes)

  predicate RowIs(row: FileRow, file: Uuid, x: Shelf)
    requires |x.tails| >= 1
  {
    && row.name == x.name && row.bucket == "b1" && row.systemId == "s1" && row.version == |x.tails|
    && row.deletedAt.None? && row.orgId.None? && row.folderId.None? && row.createdBy == Some("u1") && !row.encrypted
    && row.objectKey == KeyOf("b1", file, x.tails[|x.tails| - 1])
  }

  predicate VersionIs(s: Store, file: Uuid, v: nat, x: Shelf) {
    1 <= v < |x.tails| ==>
      (file, v) in s.versions && s.versions[(file, v)].objectKey == KeyOf("b1", file, x.tails[v - 1])
  }

  ghost predicate Shelved(s: Store, file: Uuid, x: Shelf) {
    && Inv(s) && |x.tails| >= 1 && s.files.Keys == {file} && RowIs(s.files[file], file, x)
    && s.files[file].objectKey in s.objects && s.objects[s.files[file].objectKey] == x.body
    && forall v: nat :: VersionIs(s, file, v, x)
  }

  lemma ShelvedKey(s: Store, file: Uuid, x: Shelf, r: VersionId)
    requires Shelved(s, file, x) && IsRef(s, r)
    ensures r.0 == file && 1 <= r.1 <= |x.tails| && RefKey(s, r) == KeyOf("b1", file, x.tails[r.1 - 1])
  {
    assert r.0 in s.files;
    assert VersionIs(s, file, r.1, x);
  }

  lemma UnusedIff(s: Store, file: Uuid, x: Shelf, tail: string)
    requires Shelved(s, file, x)
    ensures Unused(s, KeyOf("b1", file, tail)) <==> tail !in x.tails
  {
    if tail !in x.tails {
      forall q: VersionId | IsRef(s, q)
        ensures RefKey(s, q) != KeyOf("b1", file, tail)
      {
        ShelvedKey(s, file, x, q);
        if RefKey(s, q) == KeyOf("b1", file, tail) { KeyTailInjective("b1", file, x.tails[q.1 - 1], tail); }
      }
    } else {
      var i :| 0 <= i < |x.tails| && x.tails[i] == tail;
      var r: VersionId := (file, i + 1);
      assert VersionIs(s, file, i + 1, x) && IsRef(s, r);
      ShelvedKey(s, file, x, r);
    }
  }

  lemma FirstShelved(file: Uuid, name: string, nonce: Nonce)
    ensures Shelved(Run(C, EMPTY, [First(file, name, nonce)]), file, Shelf(name, [Sanitize(name)], [1]))
  {
    NoCaps(None, map[], 1, Some("u1"), None);
    FirstUploadWorks(C, Form(name, [1], None), file, nonce);
  }

  lemma VersionPromotes(s: Store, file: Uuid, x: Shelf, name: string, body: Bytes, nonce: Nonce)
    requires Shelved(s, file, x)
    ensures var row := VersionRow(s.files[file].objectKey, s.files[file].size, s.files[file].etag);
            && Step(C, s, Version(file, name, body, nonce)) == Promoted(C, s, file, name, row, body, nonce, false)
            && NextKey(s, file, name) == KeyOf("b1", file, VersionTail(|x.tails| + 1, Sanitize(name)))
  {
    NoCaps(None, s.files, |body|, Some("u1"), None);
  }

  lemma SavePromotes(s: Store, file: Uuid, x: Shelf, body: Bytes, nonce: Nonce)
    requires Shelved(s, file, x)
    ensures var row := VersionRow(s.files[file].objectKey, |body|, C.md5(body));
            && Step(C, s, WopiSave(file, body, nonce)) == Promoted(C, s, file, x.name, row, body, nonce, false)
            && NextKey(s, file, x.name) == KeyOf("b1", file, VersionTail(|x.tails| + 1, Sanitize(x.name)))
  {
    NoCaps(None, s.files, |body|, Some("u1"), None);
    WopiSaveOutcome(C, s, file, body, nonce);
  }

  /** The shelf after a new version. */
  lemma PromotedShelved(
    s: Store, file: Uuid, x: Shelf, name: string, row: VersionRow, tail: string, body: Bytes, nonce: Nonce)
    requires Shelved(s, file, x) && row.objectKey == s.files[file].objectKey
    requires NextKey(s, file, name) == KeyOf("b1", file, tail)
    requires Inv(Promoted(C, s, file, name, row, body, nonce, false))
    ensures Shelved(Promoted(C, s, file, name, row, body, nonce, false), file, Shelf(x.name, x.tails + [tail], body))
  {
    var s', x' := Promoted(C, s, file, name, row, body, nonce, false), Shelf(x.name, x.tails + [tail], body);
    forall v: nat
      ensures VersionIs(s', file, v, x')
    {
      assert VersionIs(s, file, v, x);
    }
  }

  /** A version under a new key is harmless. */
  lemma VersionShelved(s: Store, file: Uuid, x: Shelf, name: string, tail: string, body: Bytes, nonce: Nonce)
    requires Shelved(s, file, x) && tail == VersionTail(|x.tails| + 1, Sanitize(name)) && tail !in x.tails
    ensures Shelved(Step(C, s, Version(file, name, body, nonce)), file, Shelf(x.name, x.tails + [tail], body))
  {
    VersionPromotes(s, file, x, name, body, nonce);
    UnusedIff(s, file, x, tail);
    var row := VersionRow(s.files[file].objectKey, s.files[file].size, s.files[file].etag);
    PromoteStep(C, s, file, name, row, body, nonce, false);
    PromotedShelved(s, file, x, name, row, tail, body, nonce);
  }

  /** What a rename does: it is accepted, and the current body has a new key. */
  lemma RenameMoves(s: Store, file: Uuid, x: Shelf, name: string, nonce: Nonce)
    requires Shelved(s, file, x) && name != x.name && Sanitize(name) != x.tails[|x.tails| - 1]
    ensures var s', q := Step(C, s, Rename(file, name, nonce)), Rename(file, name, nonce).q;
            var key := FirstKey("b1", file, name);
            && Relocates(C, s, file, q.fields) && TargetKey(C, s, file, q.fields) == key
            && Copying(C, s, file, q.fields) && PatchFits(C, s, file, q) && ApplyPatch(C, s, file, q).1.Ok?
            && ReadFile(C, s, file) == Ok(Some(x.body))
            && s'.files == s.files[file := s.files[file].(name := name, objectKey := key)] && s'.versions == s.versions
            && key in s'.objects && s'.objects[key] == x.body
  {
    if s.files[file].objectKey == FirstKey("b1", file, name) {
      KeyTailInjective("b1", file, x.tails[|x.tails| - 1], Sanitize(name));
    }
    PatchOutcome(C, s, file, Rename(file, name, nonce).q);
  }

  /** A rename to a new key is harmless. */
  lemma RenameShelved(s: Store, file: Uuid, x: Shelf, name: string, nonce: Nonce)
    requires Shelved(s, file, x) && name != x.name && Sanitize(name) !in x.tails
    ensures var tails := x.tails[..|x.tails| - 1] + [Sanitize(name)];
            Shelved(Step(C, s, Rename(file, name, nonce)), file, Shelf(name, tails, x.body))
  {
    var s', tails := Step(C, s, Rename(file, name, nonce)), x.tails[..|x.tails| - 1] + [Sanitize(name)];
    RenameMoves(s, file, x, name, nonce);
    UnusedIff(s, file, x, Sanitize(name));
    StepIsGood(C, s, Rename(file, name, nonce));
    forall v: nat
      ensures VersionIs(s', file, v, Shelf(name, tails, x.body))
    {
      assert VersionIs(s, file, v, x);
    }
  }

  /** The bytes that version `v` of the file now has. */
  ghost predicate StoredOver(s: Store, file: Uuid, v: nat, body: Bytes) {
    && !KeysDistinct(s) && IsRef(s, (file, v))
    && RefKey(s, (file, v)) in s.objects && s.objects[RefKey(s, (file, v))] == body
  }

  lemma VersionCollides(s: Store, file: Uuid, x: Shelf, name: string, v: nat, body: Bytes, nonce: Nonce)
    requires Shelved(s, file, x) && 1 <= v <= |x.tails|
    requires x.tails[v - 1] == VersionTail(|x.tails| + 1, Sanitize(name))
    ensures StoredOver(Step(C, s, Version(file, name, body, nonce)), file, v, body)
  {
    VersionPromotes(s, file, x, name, body, nonce);
    var r: VersionId := (file, v);
    assert VersionIs(s, file, v, x) && IsRef(s, r);
    ShelvedKey(s, file, x, r);
    var row := VersionRow(s.files[file].objectKey, s.files[file].size, s.files[file].etag);
    PromotionKeepsDistinctIff(C, s, file, name, row, body, nonce, false);
  }

  lemma SaveCollides(s: Store, file: Uuid, x: Shelf, v: nat, body: Bytes, nonce: Nonce)
    requires Shelved(s, file, x) && 1 <= v <= |x.tails|
    requires x.tails[v - 1] == VersionTail(|x.tails| + 1, Sanitize(x.name))
    ensures StoredOver(Step(C, s, WopiSave(file, body, nonce)), file, v, body)
  {
    SavePromotes(s, file, x, body, nonce);
    var r: VersionId := (file, v);
    assert VersionIs(s, file, v, x) && IsRef(s, r);
    ShelvedKey(s, file, x, r);
    var row := VersionRow(s.files[file].objectKey, |body|, C.md5(body));
    PromotionKeepsDistinctIff(C, s, file, x.name, row, body, nonce, false);
  }

  lemma RenameCollides(s: Store, file: Uuid, x: Shelf, name: string, v: nat, nonce: Nonce)
    requires Shelved(s, file, x) && 1 <= v < |x.tails| && name != x.name
    requires x.tails[v - 1] == Sanitize(name) && x.tails[|x.tails| - 1] != Sanitize(name)
    ensures StoredOver(Step(C, s, Rename(file, name, nonce)), file, v, x.body)
  {
    var q, r: VersionId := Rename(file, name, nonce).q, (file, v);
    RenameMoves(s, file, x, name, nonce);
    assert VersionIs(s, file, v, x) && IsRef(s, r);
    ShelvedKey(s, file, x, r);
    RelocationCollides(s, file, q, x.body, r);
  }

  lemma RelocationCollides(s: Store, file: Uuid, q: Request, body: Bytes, r: VersionId)
    requires Inv(s) && Relocates(C, s, file, q.fields) && ApplyPatch(C, s, file, q).1.Ok?
    requires ReadFile(C, s, file) == Ok(Some(body))
    requires r in s.versions && RefKey(s, r) == TargetKey(C, s, file, q.fields) && r.0 == file
    ensures StoredOver(ApplyPatch(C, s, file, q).0, file, r.1, body)
  {
    PatchOutcome(C, s, file, q);
    Relocation.RelocationKeepsKeysDistinctIff(C, s, file, q);
    Relocation.OthersKeepBytesIff(C, s, file, q, body, r);
  }

  // ---------------------------------------------------------------------------
  // Names and the tails they give
  // ---------------------------------------------------------------------------

  lemma Letters()
    ensures Sanitize("a") == "a" && Sanitize("b") == "b" && Sanitize("c") == "c" && Sanitize("x") == "x"
    ensures Sanitize("y") == "y" && Sanitize("z") == "z"
  {
    PlainName("a");
    PlainName("b");
    PlainName("c");
    PlainName("x");
    PlainName("y");
    PlainName("z");
  }

  lemma Tails()
    ensures VersionTail(2, "x") == "v2-x" && VersionTail(3, "c") == "v3-c" && VersionTail(3, "z") == "v3-z"
    ensures VersionTail(4, "y") == "v4-y"
  {
  }

  lemma SpellingNames()
    ensures Sanitize("v3-c") == "v3-c" && Sanitize("v4-y") == "v4-y"
  {
    PlainName("v3-c");
    PlainName("v4-y");
  }

  lemma SlashIsReplaced()
    ensures Sanitize("a/") == "a_" && Sanitize("a_") == "a_"
  {
    PlainName("a_");
    assert Replaced("a/", true) == "a_" by {
      assert "a/"[1..] == "/" && "/"[1..] == "";
      assert Replaced("/", false) == "_";
    }
  }

  // ---------------------------------------------------------------------------
  // The runs
  // ---------------------------------------------------------------------------

  /** A file with a second version. */
  lemma TwoVersions(file: Uuid, name: string, nonce: Nonce)
    requires Sanitize(name) != "v2-x"
    ensures var s := Run(C, EMPTY, [First(file, name, nonce), Version(file, "x", [2], nonce)]);
            Shelved(s, file, Shelf(name, [Sanitize(name), "v2-x"], [2]))
  {
    Letters();
    Tails();
    FirstShelved(file, name, nonce);
    RunTwo(C, First(file, name, nonce), Version(file, "x", [2], nonce));
    var s := Run(C, EMPTY, [First(file, name, nonce)]);
    VersionShelved(s, file, Shelf(name, [Sanitize(name)], [1]), "x", "v2-x", [2], nonce);
    assert [Sanitize(name)] + ["v2-x"] == [Sanitize(name), "v2-x"];
  }

  lemma RenamedTwo(s: Store, file: Uuid, name: string, newName: string, nonce: Nonce)
    requires Shelved(s, file, Shelf(name, [Sanitize(name), "v2-x"], [2]))
    requires name != newName && Sanitize(newName) !in [Sanitize(name), "v2-x"]
    ensures Shelved(Step(C, s, Rename(file, newName, nonce)), file,
                    Shelf(newName, [Sanitize(name), Sanitize(newName)], [2]))
  {
    RenameShelved(s, file, Shelf(name, [Sanitize(name), "v2-x"], [2]), newName, nonce);
    assert [Sanitize(name), "v2-x"][..1] + [Sanitize(newName)] == [Sanitize(name), Sanitize(newName)];
  }

  /** The same file renamed. */
  lemma TwoVersionsRenamed(file: Uuid, name: string, newName: string, nonce: Nonce)
    requires name != newName && Sanitize(name) != "v2-x" && Sanitize(newName) !in [Sanitize(name), "v2-x"]
    ensures var e1, e2, e3 := First(file, name, nonce), Version(file, "x", [2], nonce), Rename(file, newName, nonce);
            Shelved(Run(C, EMPTY, [e1, e2, e3]), file, Shelf(newName, [Sanitize(name), Sanitize(newName)], [2]))
  {
    var e1, e2, e3 := First(file, name, nonce), Version(file, "x", [2], nonce), Rename(file, newName, nonce);
    TwoVersions(file, name, nonce);
    RunThree(C, e1, e2, e3);
    RenamedTwo(Run(C, EMPTY, [e1, e2]), file, name, newName, nonce);
  }

  /** And with a third version. */
  lemma ThreeVersions(file: Uuid, newName: string, nonce: Nonce)
    requires Sanitize(newName) !in ["a", "v2-x", "v3-z"]
    ensures var e1, e2 := First(file, "a", nonce), Version(file, "x", [2], nonce);
            var e3, e4 := Rename(file, newName, nonce), Version(file, "z", [3], nonce);
            Shelved(Run(C, EMPTY, [e1, e2, e3, e4]), file, Shelf(newName, ["a", Sanitize(newName), "v3-z"], [3]))
  {
    var e1, e2 := First(file, "a", nonce), Version(file, "x", [2], nonce);
    var e3, e4 := Rename(file, newName, nonce), Version(file, "z", [3], nonce);
    Letters();
    Tails();
    TwoVersionsRenamed(file, "a", newName, nonce);
    RunFour(C, e1, e2, e3, e4);
    var x := Shelf(newName, ["a", Sanitize(newName)], [2]);
    VersionShelved(Run(C, EMPTY, [e1, e2, e3]), file, x, "z", "v3-z", [3], nonce);
    assert x.tails + ["v3-z"] == ["a", Sanitize(newName), "v3-z"];
  }

  /** A third version stored over the first one, whose name spells its key. */
  lemma ThirdVersionOverwritesFirst(file: Uuid, nonce: Nonce)
    ensures var e1, e2 := First(file, "v3-c", nonce), Version(file, "x", [2], nonce);
            var e3 := Version(file, "c", [3], nonce);
            Inv(Run(C, EMPTY, [e1, e2])) && StoredOver(Run(C, EMPTY, [e1, e2, e3]), file, 1, [3])
  {
    var e1, e2 := First(file, "v3-c", nonce), Version(file, "x", [2], nonce);
    Letters();
    Tails();
    SpellingNames();
    TwoVersions(file, "v3-c", nonce);
    RunThree(C, e1, e2, Version(file, "c", [3], nonce));
    VersionCollides(Run(C, EMPTY, [e1, e2]), file, Shelf("v3-c", ["v3-c", "v2-x"], [2]), "c", 1, [3], nonce);
  }

  /** A WOPI save of the same file, renamed to what its first name spells, stored over the first version. */
  lemma SaveAfterRenameOverwritesFirst(file: Uuid, nonce: Nonce)
    ensures var e1, e2 := First(file, "v3-c", nonce), Version(file, "x", [2], nonce);
            var e3, e4 := Rename(file, "c", nonce), WopiSave(file, [3], nonce);
            Inv(Run(C, EMPTY, [e1, e2, e3])) && StoredOver(Run(C, EMPTY, [e1, e2, e3, e4]), file, 1, [3])
  {
    var e1, e2 := First(file, "v3-c", nonce), Version(file, "x", [2], nonce);
    var e3 := Rename(file, "c", nonce);
    Letters();
    Tails();
    SpellingNames();
    TwoVersionsRenamed(file, "v3-c", "c", nonce);
    RunFour(C, e1, e2, e3, WopiSave(file, [3], nonce));
    SaveCollides(Run(C, EMPTY, [e1, e2, e3]), file, Shelf("c", ["v3-c", "c"], [2]), 1, [3], nonce);
  }

  lemma FourthCollides(s: Store, file: Uuid, nonce: Nonce)
    requires Shelved(s, file, Shelf("v4-y", ["a", "v4-y", "v3-z"], [3]))
    ensures StoredOver(Step(C, s, Version(file, "y", [4], nonce)), file, 2, [4])
  {
    Letters();
    Tails();
    VersionCollides(s, file, Shelf("v4-y", ["a", "v4-y", "v3-z"], [3]), "y", 2, [4], nonce);
  }

  /** A fourth version stored over the second one, which a rename gave the key that the fourth one's name spells. */
  lemma FourthVersionOverwritesSecond(file: Uuid, nonce: Nonce)
    ensures var e1, e2 := First(file, "a", nonce), Version(file, "x", [2], nonce);
            var e3, e4 := Rename(file, "v4-y", nonce), Version(file, "z", [3], nonce);
            var e5 := Version(file, "y", [4], nonce);
            Inv(Run(C, EMPTY, [e1, e2, e3, e4])) && StoredOver(Run(C, EMPTY, [e1, e2, e3, e4, e5]), file, 2, [4])
  {
    var e1, e2 := First(file, "a", nonce), Version(file, "x", [2], nonce);
    var e3, e4 := Rename(file, "v4-y", nonce), Version(file, "z", [3], nonce);
    SpellingNames();
    ThreeVersions(file, "v4-y", nonce);
    RunFive(C, e1, e2, e3, e4, Version(file, "y", [4], nonce));
    FourthCollides(Run(C, EMPTY, [e1, e2, e3, e4]), file, nonce);
  }

  /** A rename that changes nothing but a replaced character stores the current bytes over the first version. */
  lemma RenameOverwritesFirst(file: Uuid, nonce: Nonce)
    ensures var e1, e2 := First(file, "a_", nonce), Version(file, "x", [2], nonce);
            var e3 := Rename(file, "a/", nonce);
            Inv(Run(C, EMPTY, [e1, e2])) && StoredOver(Run(C, EMPTY, [e1, e2, e3]), file, 1, [2])
  {
    var e1, e2 := First(file, "a_", nonce), Version(file, "x", [2], nonce);
    SlashIsReplaced();
    TwoVersions(file, "a_", nonce);
    RunThree(C, e1, e2, Rename(file, "a/", nonce));
    RenameCollides(Run(C, EMPTY, [e1, e2]), file, Shelf("a_", ["a_", "v2-x"], [2]), "a/", 1, nonce);
  }

  lemma RenamedThree(s: Store, file: Uuid, nonce: Nonce)
    requires Shelved(s, file, Shelf("b", ["a", "b", "v3-z"], [3]))
    ensures Shelved(Step(C, s, Rename(file, "c", nonce)), file, Shelf("c", ["a", "b", "c"], [3]))
  {
    Letters();
    RenameShelved(s, file, Shelf("b", ["a", "b", "v3-z"], [3]), "c", nonce);
    assert ["a", "b", "v3-z"][..2] + ["c"] == ["a", "b", "c"];
  }

  lemma ThreeVersionsRenamed(file: Uuid, nonce: Nonce)
    ensures var e1, e2 := First(file, "a", nonce), Version(file, "x", [2], nonce);
            var e3, e4, e5 := Rename(file, "b", nonce), Version(file, "z", [3], nonce), Rename(file, "c", nonce);
            Shelved(Run(C, EMPTY, [e1, e2, e3, e4, e5]), file, Shelf("c", ["a", "b", "c"], [3]))
  {
    var e1, e2 := First(file, "a", nonce), Version(file, "x", [2], nonce);
    var e3, e4, e5 := Rename(file, "b", nonce), Version(file, "z", [3], nonce), Rename(file, "c", nonce);
    Letters();
    ThreeVersions(file, "b", nonce);
    RunFive(C, e1, e2, e3, e4, e5);
    RenamedThree(Run(C, EMPTY, [e1, e2, e3, e4]), file, nonce);
  }

  /** Renaming back to a name that an old version was renamed to stores the current bytes over that version. */
  lemma RenameBackOverwritesSecond(file: Uuid, nonce: Nonce)
    ensures var e1, e2 := First(file, "a", nonce), Version(file, "x", [2], nonce);
            var e3, e4, e5 := Rename(file, "b", nonce), Version(file, "z", [3], nonce), Rename(file, "c", nonce);
            var e6 := Rename(file, "b", nonce);
            && Inv(Run(C, EMPTY, [e1, e2, e3, e4, e5]))
            && StoredOver(Run(C, EMPTY, [e1, e2, e3, e4, e5, e6]), file, 2, [3])
  {
    var e1, e2 := First(file, "a", nonce), Version(file, "x", [2], nonce);
    var e3, e4, e5 := Rename(file, "b", nonce), Version(file, "z", [3], nonce), Rename(file, "c", nonce);
    Letters();
    ThreeVersionsRenamed(file, nonce);
    RunSix(C, e1, e2, e3, e4, e5, Rename(file, "b", nonce));
    RenameCollides(Run(C, EMPTY, [e1, e2, e3, e4, e5]), file, Shelf("c", ["a", "b", "c"], [3]), "b", 2, nonce);
  }
}
