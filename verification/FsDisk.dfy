/** `FsStore` as the application calls it: each method runs its system calls in order and stops at the first failure. */
module FsDisk {
  import opened Common
  import opened FsPaths
  import opened FsStore

  /** The system calls of a `put` that can fail it; the directory fsync at the end cannot. */
  datatype Call = MakingDirs | Creating | Writing | Syncing | Renaming

  /** The state in which `put` leaves the disk when every call succeeds. */
  function PutAll(s: Fs, key: string, body: Bytes, suffix: nat, inode: nat): Fs {
    SyncDir(Rename(WrittenTmp(s, key, body, suffix, inode), Tmp(key, suffix), Key(key)), Parent(key))
  }

  /** The state once the temp file is written and fsynced. */
  function WrittenTmp(s: Fs, key: string, body: Bytes, suffix: nat, inode: nat): (t: Fs)
    ensures Tmp(key, suffix) in t.names && t.names[Tmp(key, suffix)] == inode && inode in t.inodes
            && t.onDisk == s.onDisk
    ensures t.inodes[inode] == Inode(body, true)
  {
    var created := CreateFile(CreateDirAll(s, Parent(key)), Tmp(key, suffix), inode);
    SyncFile(Write(created, inode, body), inode)
  }

  ghost predicate AllQuiet(s: Fs, t: Fs) { Valid(t) && forall key :: Quiet(s, t, key) }

  lemma QuietTogether(s: Fs, t: Fs, u: Fs)
    requires AllQuiet(s, t) && AllQuiet(t, u)
    ensures AllQuiet(s, u)
  {
    forall key
      ensures Quiet(s, u, key)
    {
      assert Quiet(s, t, key) && Quiet(t, u, key);
    }
  }

  /** A new temp file, and each change to it, is invisible under every key. */
  lemma TmpFileIsQuiet(s: Fs, key: string, body: Bytes, suffix: nat, inode: nat)
    requires Valid(s) && inode !in s.inodes
    ensures var a := CreateDirAll(s, Parent(key));
            var b := CreateFile(a, Tmp(key, suffix), inode);
            && AllQuiet(s, a) && AllQuiet(s, b) && AllQuiet(s, Write(b, inode, body))
            && AllQuiet(s, WrittenTmp(s, key, body, suffix, inode)) && Parent(key) in a.dirs
  {
    var a := CreateDirAll(s, Parent(key));
    var b := CreateFile(a, Tmp(key, suffix), inode);
    var w := Write(b, inode, body);
    CreateDirAllStep(s, Parent(key));
    CreateFileStep(a, Tmp(key, suffix), inode);
    FreshFileIsPrivate(a, Tmp(key, suffix), inode);
    QuietTogether(s, a, b);
    FileStep(b, inode, Inode(b.inodes[inode].data + body, false));
    QuietTogether(s, b, w);
    FileStep(w, inode, w.inodes[inode].(synced := true));
    QuietTogether(s, w, WrittenTmp(s, key, body, suffix, inode));
  }

  class Disk {
    var fs: Fs

    constructor ()
      ensures fs == EMPTY_ROOT && Valid(fs)
    {
      fs := EMPTY_ROOT;
    }

    /** Everything up to the rename; a failure on the way leaves every key as it was, even after a crash. */
    method WriteTmp(key: string, body: Bytes, suffix: nat, inode: nat, fault: Option<Call>) returns (r: Result<()>)
      requires Valid(fs) && inode !in fs.inodes
      modifies this
      ensures AllQuiet(old(fs), fs)
      ensures r == if fault.None? || fault == Some(Renaming) then Ok(()) else Err(Other)
      ensures r.Ok? ==> fs == WrittenTmp(old(fs), key, body, suffix, inode)
    {
      TmpFileIsQuiet(fs, key, body, suffix, inode);
      if fault == Some(MakingDirs) { return Err(Other); }
      fs := CreateDirAll(fs, Parent(key));
      if fault == Some(Creating) { return Err(Other); }
      fs := CreateFile(fs, Tmp(key, suffix), inode);
      if fault == Some(Writing) { return Err(Other); }
      fs := Write(fs, inode, body);
      if fault == Some(Syncing) { return Err(Other); }
      fs := SyncFile(fs, inode);
      assert fault.Some? ==> fault.value == Renaming;
      r := Ok(());
    }

    /** `put`; `dirOpens` says whether the directory could be opened for its fsync. */
    method Put(key: string, body: Bytes, suffix: nat, inode: nat, fault: Option<Call>, dirOpens: bool)
      returns (r: Result<()>)
      requires Valid(fs) && inode !in fs.inodes
      modifies this
      ensures Valid(fs) && r == (if Allowed(key) && fault.None? then Ok(()) else Err(Other))
      ensures r.Ok? ==> ViewAt(fs, key) == Some(body) && forall k | k != key :: ViewAt(fs, k) == ViewAt(old(fs), k)
      ensures r.Err? ==> AllQuiet(old(fs), fs)
      ensures r.Ok? && dirOpens ==> fs == PutAll(old(fs), key, body, suffix, inode)
    {
      var path := PathFor(key);
      if path.Err? {
        assert AllQuiet(fs, fs);
        return Err(Other);
      }
      TmpFileIsQuiet(fs, key, body, suffix, inode);
      r := WriteTmp(key, body, suffix, inode, fault);
      if r.Err? { return; }
      if fault == Some(Renaming) { return Err(Other); }
      RenameAndSync(old(fs), fs, key, body, suffix, inode);
      fs := Rename(fs, Tmp(key, suffix), Key(key));
      if dirOpens { fs := SyncDir(fs, Parent(key)); }
    }

    method Get(key: string) returns (r: Result<Option<Bytes>>)
      ensures r == if Allowed(key) then Ok(ViewAt(fs, key)) else Err(Other)
    {
      var path := PathFor(key);
      if path.Err? { return Err(Other); }
      if Key(key) !in fs.names { return Ok(None); }
      r := Ok(Content(fs, Some(fs.names[Key(key)])));
    }

    /** `delete`: a missing file is no error. */
    method Delete(key: string) returns (r: Result<()>)
      requires Valid(fs)
      modifies this
      ensures Valid(fs) && r == (if Allowed(key) then Ok(()) else Err(Other))
      ensures forall k :: ViewAt(fs, k) == if r.Ok? && k == key then None else ViewAt(old(fs), k)
    {
      var path := PathFor(key);
      if path.Err? { return Err(Other); }
      RemoveFileStep(fs, key);
      fs := RemoveFile(fs, Key(key));
      r := Ok(());
    }
  }

  lemma FreshFileIsPrivate(s: Fs, n: Name, inode: nat)
    requires Valid(s) && n.Tmp? && inode !in s.inodes
    ensures forall key :: !Refers(CreateFile(s, n, inode), Key(key), inode)
  {
    forall key
      ensures !Refers(CreateFile(s, n, inode), Key(key), inode)
    {
      assert !Refers(s, Key(key), inode);
    }
  }

  /** The last two calls of `put`. */
  lemma RenameAndSync(s: Fs, g: Fs, key: string, body: Bytes, suffix: nat, inode: nat)
    requires Valid(s) && inode !in s.inodes && g == WrittenTmp(s, key, body, suffix, inode) && AllQuiet(s, g)
    ensures var h := Rename(g, Tmp(key, suffix), Key(key));
            var t := SyncDir(h, Parent(key));
            && Valid(h) && ViewAt(h, key) == Some(body) && (forall k | k != key :: ViewAt(h, k) == ViewAt(s, k))
            && Valid(t) && Settled(t, key) && forall k :: ViewAt(t, k) == ViewAt(h, k)
  {
    var h := Rename(g, Tmp(key, suffix), Key(key));
    assert Parent(key) in g.dirs;
    RenameStep(g, Tmp(key, suffix), key);
    forall k | k != key
      ensures ViewAt(h, k) == ViewAt(s, k)
    {
      assert Quiet(s, g, k) && Quiet(g, h, k);
    }
    SyncDirKeepsValid(h, Parent(key));
    forall k
      ensures ViewAt(SyncDir(h, Parent(key)), k) == ViewAt(h, k)
    {
      SyncDirStep(h, Parent(key), k);
    }
    SyncDirStep(h, Parent(key), key);
  }

  /**
   Which crashes a finished `put` survives: all of them exactly when the key's directory was on disk before, as
   `put` fsyncs that directory but not the ones above it.
   */
  lemma FinishedPutSurvivesIff(s: Fs, key: string, body: Bytes, suffix: nat, inode: nat)
    requires Valid(s) && inode !in s.inodes
    ensures var t := PutAll(s, key, body, suffix, inode);
            && Valid(t) && ViewAt(t, key) == Some(body)
            && ((forall found, kept | CrashTo(t, found, kept) :: ViewAt(found, key) == Some(body))
                <==> Anchored(s.onDisk, Parent(key)))
  {
    var g := WrittenTmp(s, key, body, suffix, inode);
    TmpFileIsQuiet(s, key, body, suffix, inode);
    RenameAndSync(s, g, key, body, suffix, inode);
    var t := PutAll(s, key, body, suffix, inode);
    SettledSurvivesIff(t, key);
    SyncDirAnchorsNothingAbove(Rename(g, Tmp(key, suffix), Key(key)), Parent(key));
    if Anchored(s.onDisk, Parent(key)) {
      forall found, kept | CrashTo(t, found, kept)
        ensures ViewAt(found, key) == Some(body)
      {
        CrashPicks(t, found, kept, key);
      }
    } else {
      MayIsExact(t, key, None);
    }
  }

  lemma {:induction false} SameAnchors(a: set<string>, b: set<string>, d: string)
    requires forall e | |e| <= |d| :: e in a <==> e in b
    ensures Anchored(a, d) <==> Anchored(b, d)
    decreases |d|
  {
    if d != "" { SameAnchors(a, b, Parent(d)); }
  }

  lemma SyncDirAnchorsNothingAbove(s: Fs, d: string)
    ensures Anchored(SyncDir(s, d).onDisk, d) <==> Anchored(s.onDisk, d)
  {
    SameAnchors(s.onDisk, SyncDir(s, d).onDisk, d);
  }
}
