/**
 The file-system object store under concurrent writers and readers and under crashes. A directory entry that
 was changed but not yet fsynced may come back after a crash as any value it had since the last directory
 fsync; a file that was not fsynced may come back with any bytes; a directory whose own entry was never
 fsynced may vanish with all it holds.
 */
module FsStore {
  import opened Common
  import opened FsPaths

  datatype Name = Key(key: string) | Tmp(key: string, suffix: nat)

  datatype Inode = Inode(data: Bytes, synced: bool)

  /**
   `names` is what processes see, `disk` what is safely stored, and `pending` every entry value that may have
   reached the disk since. `onDisk` holds the directories whose own entry is safely stored in their parent.
   */
  datatype Fs = Fs(
    inodes: map<nat, Inode>, names: map<Name, nat>, disk: map<Name, nat>, pending: set<(Name, Option<nat>)>,
    dirs: set<string>, onDisk: set<string>)

  const EMPTY_ROOT: Fs := Fs(map[], map[], map[], {}, {""}, {})

  function Lookup(m: map<Name, nat>, n: Name): Option<nat> { if n in m then Some(m[n]) else None }

  function Content(s: Fs, o: Option<nat>): Option<Bytes> {
    if o.Some? && o.value in s.inodes then Some(s.inodes[o.value].data) else None
  }

  /** What a `get` of the key returns now. */
  function ViewAt(s: Fs, key: string): Option<Bytes> { Content(s, Lookup(s.names, Key(key))) }

  // ---------------------------------------------------------------------------
  // System calls
  // ---------------------------------------------------------------------------

  function Ancestors(d: string): (ds: set<string>)
    ensures d in ds
    decreases |d|
  {
    if d == "" then {""} else {d} + Ancestors(Parent(d))
  }

  function CreateDirAll(s: Fs, d: string): Fs { s.(dirs := s.dirs + Ancestors(d)) }

  function CreateFile(s: Fs, n: Name, inode: nat): Fs {
    s.(inodes := s.inodes[inode := Inode([], false)], names := s.names[n := inode],
       pending := s.pending + {(n, Some(inode))})
  }

  function Write(s: Fs, inode: nat, chunk: Bytes): Fs
    requires inode in s.inodes
  {
    s.(inodes := s.inodes[inode := Inode(s.inodes[inode].data + chunk, false)])
  }

  function SyncFile(s: Fs, inode: nat): Fs
    requires inode in s.inodes
  {
    s.(inodes := s.inodes[inode := s.inodes[inode].(synced := true)])
  }

  function Rename(s: Fs, from: Name, to: Name): Fs
    requires from in s.names
  {
    s.(names := (s.names - {from})[to := s.names[from]],
       pending := s.pending + {(from, None), (to, Some(s.names[from]))})
  }

  function RemoveFile(s: Fs, n: Name): Fs {
    if n in s.names then s.(names := s.names - {n}, pending := s.pending + {(n, None)}) else s
  }

  /** Stores the directory's entries, those of its sub-directories included; not its own entry. */
  function SyncDir(s: Fs, d: string): Fs {
    s.(disk := (map n | n in s.disk.Keys + s.names.Keys && (if Parent(n.key) == d then n in s.names else n in s.disk)
                  :: if Parent(n.key) == d then s.names[n] else s.disk[n]),
       pending := (set p | p in s.pending && Parent(p.0.key) != d),
       onDisk := s.onDisk + (set e | e in s.dirs && e != "" && Parent(e) == d))
  }

  // ---------------------------------------------------------------------------
  // Crashes
  // ---------------------------------------------------------------------------

  predicate MaySurvive(s: Fs, n: Name, v: Option<nat>) {
    v == Lookup(s.disk, n) || (n, v) in s.pending
  }

  /** The directory and all above it have their entries in `kept`. */
  predicate Anchored(kept: set<string>, d: string)
    decreases |d|
  {
    d == "" || (d in kept && Anchored(kept, Parent(d)))
  }

  /** The directories that are left when those in `kept` are. */
  function Left(dirs: set<string>, kept: set<string>): set<string> { set e | e in dirs && Anchored(kept, e) }

  /** `s'` may be found on disk after a crash in `s` that keeps the directories `kept`. */
  ghost predicate CrashTo(s: Fs, s': Fs, kept: set<string>) {
    && s.onDisk <= kept <= s.dirs
    && s'.dirs == Left(s.dirs, kept)
    && s'.onDisk == s'.dirs - {""}
    && (forall n: Name ::
          if Anchored(kept, Parent(n.key)) then MaySurvive(s, n, Lookup(s'.names, n)) else n !in s'.names)
    && s'.disk == s'.names && s'.pending == {}
    && s'.inodes.Keys == s.inodes.Keys
    && forall i | i in s.inodes :: s'.inodes[i].synced && (s.inodes[i].synced ==> s'.inodes[i] == s.inodes[i])
  }

  /** The contents of a key that a crash may leave behind. */
  ghost predicate May(s: Fs, key: string, v: Option<Bytes>) {
    || (v.None? && !Anchored(s.onDisk, Parent(key)))
    || exists o: Option<nat> :: MaySurvive(s, Key(key), o) && v == Content(s, o)
  }

  /** The entry has the value now or may have it after a crash. */
  predicate Refers(s: Fs, n: Name, inode: nat) {
    Lookup(s.names, n) == Some(inode) || MaySurvive(s, n, Some(inode))
  }

  ghost predicate Valid(s: Fs) {
    && (forall n, i | Refers(s, n, i) :: i in s.inodes && Parent(n.key) in s.dirs)
    && (forall key, i | Refers(s, Key(key), i) :: s.inodes[i].synced)
    && (forall n :: MaySurvive(s, n, Lookup(s.names, n)))
    && (forall d | d in s.dirs :: Anchored(s.dirs, d))
    && "" in s.dirs && s.onDisk <= s.dirs
  }

  lemma {:induction false} AnchoredMore(kept: set<string>, more: set<string>, d: string)
    requires kept <= more && Anchored(kept, d)
    ensures Anchored(more, d)
    decreases |d|
  {
    if d != "" { AnchoredMore(kept, more, Parent(d)); }
  }

  lemma {:induction false} AnchoredAgain(kept: set<string>, dirs: set<string>, d: string)
    requires kept <= dirs && "" in dirs && Anchored(kept, d)
    ensures var left := Left(dirs, kept);
            d in left && Anchored(left, d) && Anchored(left - {""}, d)
    decreases |d|
  {
    if d != "" { AnchoredAgain(kept, dirs, Parent(d)); }
  }

  /** A crash leaves one of the possible contents, and nothing else remains possible. */
  lemma CrashPicks(s: Fs, s': Fs, kept: set<string>, key: string)
    requires Valid(s) && CrashTo(s, s', kept)
    ensures May(s, key, ViewAt(s', key))
    ensures forall v :: May(s', key, v) <==> v == ViewAt(s', key)
  {
    var d := Parent(key);
    var o := Lookup(s'.names, Key(key));
    if Anchored(kept, d) {
      assert MaySurvive(s, Key(key), o);
      if o.Some? { assert Refers(s, Key(key), o.value); }
      assert ViewAt(s', key) == Content(s, o);
      AnchoredAgain(kept, s.dirs, d);
      assert Anchored(s'.onDisk, d);
    } else {
      if Anchored(s.onDisk, d) { AnchoredMore(s.onDisk, kept, d); }
    }
    assert MaySurvive(s', Key(key), o) && forall p: Option<nat> | MaySurvive(s', Key(key), p) :: p == o;
  }

  lemma CrashKeepsValid(s: Fs, s': Fs, kept: set<string>)
    requires Valid(s) && CrashTo(s, s', kept)
    ensures Valid(s')
  {
    forall n, i | Refers(s', n, i)
      ensures i in s'.inodes && Parent(n.key) in s'.dirs
    {
      assert Anchored(kept, Parent(n.key));
      assert MaySurvive(s, n, Lookup(s'.names, n));
      assert Refers(s, n, i);
    }
    forall d | d in s'.dirs
      ensures Anchored(s'.dirs, d)
    {
      assert Anchored(kept, d);
      AnchoredAgain(kept, s.dirs, d);
    }
  }

  /** The state found after a crash in which one entry came back as `o` and every other as last fsynced. */
  function After(s: Fs, kept: set<string>, n: Name, o: Option<nat>): Fs {
    var names := map m | m in s.disk && Anchored(kept, Parent(m.key)) :: s.disk[m];
    var left := Left(s.dirs, kept);
    var names' :=
      if !Anchored(kept, Parent(n.key)) then names else if o.Some? then names[n := o.value] else names - {n};
    Fs(map i | i in s.inodes :: s.inodes[i].(synced := true), names', names', {}, left, left - {""})
  }

  lemma AfterIsACrash(s: Fs, kept: set<string>, n: Name, o: Option<nat>)
    requires Valid(s) && s.onDisk <= kept <= s.dirs && MaySurvive(s, n, o)
    ensures CrashTo(s, After(s, kept, n, o), kept)
  {
    var s' := After(s, kept, n, o);
    forall m: Name
      ensures if Anchored(kept, Parent(m.key)) then MaySurvive(s, m, Lookup(s'.names, m)) else m !in s'.names
    {
    }
  }

  /** `May` is exact: a content is possible exactly when some crash leaves it. */
  lemma MayIsExact(s: Fs, key: string, v: Option<Bytes>)
    requires Valid(s)
    ensures May(s, key, v) <==> exists s', kept :: CrashTo(s, s', kept) && ViewAt(s', key) == v
  {
    if May(s, key, v) {
      var n := Key(key);
      if o: Option<nat> :| MaySurvive(s, n, o) && v == Content(s, o) {
        if o.Some? { assert Refers(s, n, o.value); }
        AfterIsACrash(s, s.dirs, n, o);
        assert ViewAt(After(s, s.dirs, n, o), key) == v;
      } else {
        AfterIsACrash(s, s.onDisk, n, Lookup(s.disk, n));
        assert ViewAt(After(s, s.onDisk, n, Lookup(s.disk, n)), key) == None;
      }
    } else {
      forall s', kept | CrashTo(s, s', kept)
        ensures ViewAt(s', key) != v
      {
        CrashPicks(s, s', kept, key);
      }
    }
  }

  // ---------------------------------------------------------------------------
  // What each system call does to a key
  // ---------------------------------------------------------------------------

  /** Nothing about the key changes, now or after a crash. */
  ghost predicate Quiet(s: Fs, t: Fs, key: string) {
    ViewAt(t, key) == ViewAt(s, key) && forall v :: May(t, key, v) <==> May(s, key, v)
  }

  lemma SameEntryIsQuiet(s: Fs, t: Fs, key: string)
    requires Lookup(t.names, Key(key)) == Lookup(s.names, Key(key)) && t.onDisk == s.onDisk
    requires forall o :: MaySurvive(t, Key(key), o) <==> MaySurvive(s, Key(key), o)
    requires forall i | Refers(s, Key(key), i) :: Content(t, Some(i)) == Content(s, Some(i))
    ensures Quiet(s, t, key)
  {
    forall o | MaySurvive(s, Key(key), o)
      ensures Content(t, o) == Content(s, o)
    {
      if o.Some? { assert Refers(s, Key(key), o.value); }
    }
  }

  lemma {:induction false} AncestorsAnchored(d: string)
    ensures "" in Ancestors(d) && forall e | e in Ancestors(d) :: Anchored(Ancestors(d), e)
    decreases |d|
  {
    if d != "" {
      AncestorsAnchored(Parent(d));
      forall e | e in Ancestors(Parent(d))
        ensures Anchored(Ancestors(d), e)
      {
        AnchoredMore(Ancestors(Parent(d)), Ancestors(d), e);
      }
      assert Parent(d) in Ancestors(Parent(d));
    }
  }

  lemma CreateDirAllStep(s: Fs, d: string)
    requires Valid(s)
    ensures Valid(CreateDirAll(s, d)) && forall key :: Quiet(s, CreateDirAll(s, d), key)
  {
    var t := CreateDirAll(s, d);
    AncestorsAnchored(d);
    forall e | e in t.dirs
      ensures Anchored(t.dirs, e)
    {
      if e in s.dirs { AnchoredMore(s.dirs, t.dirs, e); } else { AnchoredMore(Ancestors(d), t.dirs, e); }
    }
    forall n, i | Refers(t, n, i)
      ensures Refers(s, n, i)
    {
    }
    forall n
      ensures MaySurvive(t, n, Lookup(t.names, n))
    {
      assert MaySurvive(s, n, Lookup(s.names, n));
    }
    forall key
      ensures Quiet(s, t, key)
    {
      SameEntryIsQuiet(s, t, key);
    }
  }

  lemma CreateFileStep(s: Fs, n: Name, inode: nat)
    requires Valid(s) && n.Tmp? && inode !in s.inodes && Parent(n.key) in s.dirs
    ensures Valid(CreateFile(s, n, inode)) && forall key :: Quiet(s, CreateFile(s, n, inode), key)
  {
    var t := CreateFile(s, n, inode);
    forall m, i | Refers(t, m, i)
      ensures Refers(s, m, i) || (m == n && i == inode)
    {
    }
    forall m
      ensures MaySurvive(t, m, Lookup(t.names, m))
    {
      assert MaySurvive(s, m, Lookup(s.names, m));
    }
    forall key
      ensures Quiet(s, t, key)
    {
      SameEntryIsQuiet(s, t, key);
    }
  }

  /** Changing a file that no key refers to. */
  lemma FileStep(s: Fs, inode: nat, file: Inode)
    requires Valid(s) && inode in s.inodes
    requires (forall key :: !Refers(s, Key(key), inode)) || (file.data == s.inodes[inode].data && file.synced)
    ensures var t := s.(inodes := s.inodes[inode := file]);
            Valid(t) && forall key :: Quiet(s, t, key)
  {
    var t := s.(inodes := s.inodes[inode := file]);
    forall m, i | Refers(t, m, i)
      ensures Refers(s, m, i)
    {
    }
    forall m
      ensures MaySurvive(t, m, Lookup(t.names, m))
    {
      assert MaySurvive(s, m, Lookup(s.names, m));
    }
    forall key
      ensures Quiet(s, t, key)
    {
      SameEntryIsQuiet(s, t, key);
    }
  }

  /** The key's new value is `v`, which may or may not survive a crash; so may every earlier one. */
  ghost predicate Becomes(s: Fs, t: Fs, key: string, v: Option<Bytes>) {
    ViewAt(t, key) == v && forall w :: May(t, key, w) <==> May(s, key, w) || w == v
  }

  lemma NewEntryBecomes(s: Fs, t: Fs, key: string, o: Option<nat>)
    requires t.inodes == s.inodes && t.onDisk == s.onDisk && Lookup(t.names, Key(key)) == o
    requires forall p :: MaySurvive(t, Key(key), p) <==> MaySurvive(s, Key(key), p) || p == o
    ensures Becomes(s, t, key, Content(s, o))
  {
    assert forall p :: Content(t, p) == Content(s, p);
    assert MaySurvive(t, Key(key), o);
  }

  lemma RenameStep(s: Fs, from: Name, to: string)
    requires Valid(s) && from.Tmp? && from in s.names && Parent(to) in s.dirs && s.inodes[s.names[from]].synced
    ensures var t := Rename(s, from, Key(to));
            && Valid(t) && Becomes(s, t, to, Some(s.inodes[s.names[from]].data))
            && forall key | key != to :: Quiet(s, t, key)
  {
    var t := Rename(s, from, Key(to));
    assert Refers(s, from, s.names[from]);
    forall m, i | Refers(t, m, i)
      ensures Refers(s, m, i) || (m == Key(to) && i == s.names[from])
    {
    }
    forall m
      ensures MaySurvive(t, m, Lookup(t.names, m))
    {
      assert MaySurvive(s, m, Lookup(s.names, m));
    }
    NewEntryBecomes(s, t, to, Some(s.names[from]));
    forall key | key != to
      ensures Quiet(s, t, key)
    {
      SameEntryIsQuiet(s, t, key);
    }
  }

  lemma RemoveFileStep(s: Fs, gone: string)
    requires Valid(s)
    ensures var t := RemoveFile(s, Key(gone));
            Valid(t) && Becomes(s, t, gone, None) && forall key | key != gone :: Quiet(s, t, key)
  {
    var t := RemoveFile(s, Key(gone));
    forall m, i | Refers(t, m, i)
      ensures Refers(s, m, i)
    {
    }
    forall m
      ensures MaySurvive(t, m, Lookup(t.names, m))
    {
      assert MaySurvive(s, m, Lookup(s.names, m));
    }
    assert MaySurvive(s, Key(gone), Lookup(s.names, Key(gone)));
    NewEntryBecomes(s, t, gone, None);
    forall key | key != gone
      ensures Quiet(s, t, key)
    {
      SameEntryIsQuiet(s, t, key);
    }
  }

  /** The entry on disk is the current one. */
  ghost predicate Settled(s: Fs, key: string) {
    forall o :: MaySurvive(s, Key(key), o) <==> o == Lookup(s.names, Key(key))
  }

  /** What is settled survives a crash exactly when the directory does. */
  lemma SettledSurvivesIff(s: Fs, key: string)
    requires Valid(s) && Settled(s, key)
    ensures forall v :: May(s, key, v) <==> v == ViewAt(s, key) || (v.None? && !Anchored(s.onDisk, Parent(key)))
  {
    assert MaySurvive(s, Key(key), Lookup(s.names, Key(key)));
  }

  lemma SyncDirEntry(s: Fs, d: string, n: Name, o: Option<nat>)
    requires Valid(s)
    ensures MaySurvive(SyncDir(s, d), n, o)
            <==> if Parent(n.key) == d then o == Lookup(s.names, n) else MaySurvive(s, n, o)
  {
  }

  lemma SyncDirKeepsValid(s: Fs, d: string)
    requires Valid(s)
    ensures Valid(SyncDir(s, d))
  {
    var t := SyncDir(s, d);
    forall m, o
      ensures MaySurvive(t, m, o) <==> if Parent(m.key) == d then o == Lookup(s.names, m) else MaySurvive(s, m, o)
    {
      SyncDirEntry(s, d, m, o);
    }
    forall m, i | Refers(t, m, i)
      ensures Refers(s, m, i)
    {
    }
    forall m
      ensures MaySurvive(t, m, Lookup(t.names, m))
    {
      assert MaySurvive(s, m, Lookup(s.names, m));
    }
  }

  lemma SyncDirStep(s: Fs, d: string, key: string)
    requires Valid(s)
    ensures var t := SyncDir(s, d);
            && ViewAt(t, key) == ViewAt(s, key) && (forall v | May(t, key, v) :: May(s, key, v))
            && (Parent(key) == d ==> Settled(t, key))
            && (Parent(key) != d ==> forall v: Option<Bytes> | v.Some? :: May(t, key, v) <==> May(s, key, v))
  {
    var t := SyncDir(s, d);
    assert MaySurvive(s, Key(key), Lookup(s.names, Key(key)));
    forall o
      ensures MaySurvive(t, Key(key), o)
              <==> if Parent(key) == d then o == Lookup(s.names, Key(key)) else MaySurvive(s, Key(key), o)
    {
      SyncDirEntry(s, d, Key(key), o);
    }
    assert forall o :: Content(t, o) == Content(s, o);
    if Anchored(s.onDisk, Parent(key)) { AnchoredMore(s.onDisk, t.onDisk, Parent(key)); }
  }

  /** Writeback by the kernel may store a directory's entry at any time. */
  lemma WritebackStep(s: Fs, d: string, key: string)
    requires Valid(s) && d in s.dirs
    ensures var t := s.(onDisk := s.onDisk + {d});
            && Valid(t) && ViewAt(t, key) == ViewAt(s, key)
            && (forall v | May(t, key, v) :: May(s, key, v))
            && (forall v: Option<Bytes> | v.Some? :: May(t, key, v) <==> May(s, key, v))
            && (Settled(s, key) ==> Settled(t, key))
  {
    var t := s.(onDisk := s.onDisk + {d});
    forall m, i
      ensures Refers(t, m, i) <==> Refers(s, m, i)
    {
    }
    forall m, o
      ensures MaySurvive(t, m, o) <==> MaySurvive(s, m, o)
    {
    }
    assert forall o :: Content(t, o) == Content(s, o);
    if Anchored(s.onDisk, Parent(key)) { AnchoredMore(s.onDisk, t.onDisk, Parent(key)); }
  }
}
