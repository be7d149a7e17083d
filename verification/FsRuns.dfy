/**
 Any number of concurrent puts, gets and deletes on the file-system store, one system call at a time, with a
 crash possible between any two. Per key the store behaves like an atomic register.
 */
module FsRuns {
  import opened Common
  import opened FsPaths
  import opened FsStore

  datatype Phase = Begun | Opened | Flushed | Renamed

  /** A `put` in progress: `written` bytes of the body are in the temp file. */
  datatype Writer = Writer(key: string, body: Bytes, suffix: nat, inode: nat, written: nat, phase: Phase)

  /** A `get` in progress on the file it opened, if there was one. */
  datatype Reader = Reader(inode: Option<nat>, got: Bytes)

  datatype Sys = Sys(fs: Fs, writers: map<nat, Writer>, readers: map<nat, Reader>, usedSuffixes: set<nat>)

  datatype Action =
    | Begin(w: nat, key: string, body: Bytes, suffix: nat)    // path check and create_dir_all
    | CreateTmp(w: nat, inode: nat)
    | WriteSome(w: nat, n: nat)
    | Flush(w: nat)                                           // sync_all on the temp file
    | RenameTmp(w: nat)
    | Finish(w: nat, synced: bool)                            // best-effort directory fsync, then return
    | Abort(w: nat)                                           // a system call before the rename failed
    | Remove(key: string)
    | Open(r: nat, key: string)
    | ReadSome(r: nat, n: nat)
    | Close(r: nat)
    | Writeback(d: string)                                    // by the kernel
    | Crash(kept: set<string>, found: Fs)

  function TmpOf(w: Writer): Name { Tmp(w.key, w.suffix) }

  predicate Owns(w: Writer, inode: nat) { (w.phase.Opened? || w.phase.Flushed?) && w.inode == inode }

  ghost predicate Enabled(s: Sys, a: Action) {
    match a
    case Begin(w, key, body, suffix) => w !in s.writers && suffix !in s.usedSuffixes && Allowed(key)
    case CreateTmp(w, inode) => w in s.writers && s.writers[w].phase.Begun? && inode !in s.fs.inodes
    case WriteSome(w, n) =>
      w in s.writers && s.writers[w].phase.Opened? && s.writers[w].written + n <= |s.writers[w].body|
    case Flush(w) => w in s.writers && s.writers[w].phase.Opened? && s.writers[w].written == |s.writers[w].body|
    case RenameTmp(w) => w in s.writers && s.writers[w].phase.Flushed?
    case Finish(w, _) => w in s.writers && s.writers[w].phase.Renamed?
    case Abort(w) => w in s.writers && !s.writers[w].phase.Renamed?
    case Remove(key) => Allowed(key)
    case Open(r, key) => r !in s.readers && Allowed(key)
    case ReadSome(r, n) => r in s.readers && s.readers[r].inode.Some? && n <= Unread(s, s.readers[r])
    case Close(r) => r in s.readers && Unread(s, s.readers[r]) == 0
    case Writeback(d) => d in s.fs.dirs
    case Crash(kept, found) => CrashTo(s.fs, found, kept)
  }

  function Unread(s: Sys, r: Reader): nat {
    match Content(s.fs, r.inode)
    case None => 0
    case Some(data) => if |r.got| <= |data| then |data| - |r.got| else 0
  }

  function FsAfter(s: Sys, a: Action): Fs {
    match a
    case Begin(_, key, _, _) => CreateDirAll(s.fs, Parent(key))
    case CreateTmp(w, inode) => if w in s.writers then CreateFile(s.fs, TmpOf(s.writers[w]), inode) else s.fs
    case WriteSome(w, n) =>
      if w in s.writers && s.writers[w].inode in s.fs.inodes && s.writers[w].written + n <= |s.writers[w].body| then
        Write(s.fs, s.writers[w].inode, s.writers[w].body[s.writers[w].written..s.writers[w].written + n])
      else s.fs
    case Flush(w) =>
      if w in s.writers && s.writers[w].inode in s.fs.inodes then SyncFile(s.fs, s.writers[w].inode) else s.fs
    case RenameTmp(w) =>
      if w in s.writers && TmpOf(s.writers[w]) in s.fs.names then
        Rename(s.fs, TmpOf(s.writers[w]), Key(s.writers[w].key))
      else s.fs
    case Finish(w, synced) => if w in s.writers && synced then SyncDir(s.fs, Parent(s.writers[w].key)) else s.fs
    case Remove(key) => RemoveFile(s.fs, Key(key))
    case Writeback(d) => s.fs.(onDisk := s.fs.onDisk + {d})
    case Crash(_, found) => found
    case _ => s.fs
  }

  function WritersAfter(s: Sys, a: Action): map<nat, Writer> {
    match a
    case Begin(w, key, body, suffix) => s.writers[w := Writer(key, body, suffix, 0, 0, Begun)]
    case CreateTmp(w, inode) =>
      if w in s.writers then s.writers[w := s.writers[w].(inode := inode, phase := Opened)] else s.writers
    case WriteSome(w, n) =>
      if w in s.writers then s.writers[w := s.writers[w].(written := s.writers[w].written + n)] else s.writers
    case Flush(w) => if w in s.writers then s.writers[w := s.writers[w].(phase := Flushed)] else s.writers
    case RenameTmp(w) => if w in s.writers then s.writers[w := s.writers[w].(phase := Renamed)] else s.writers
    case Finish(w, _) => s.writers - {w}
    case Abort(w) => s.writers - {w}
    case Crash(_, _) => map[]
    case _ => s.writers
  }

  function ReadersAfter(s: Sys, a: Action): map<nat, Reader> {
    match a
    case Open(r, key) => s.readers[r := Reader(Lookup(s.fs.names, Key(key)), [])]
    case ReadSome(r, n) =>
      if r in s.readers then
        var got := s.readers[r].got;
        match Content(s.fs, s.readers[r].inode)
        case None => s.readers
        case Some(data) =>
          if |got| + n <= |data| then s.readers[r := s.readers[r].(got := got + data[|got|..|got| + n])] else s.readers
      else s.readers
    case Close(r) => s.readers - {r}
    case Crash(_, _) => map[]
    case _ => s.readers
  }

  function Do(s: Sys, a: Action): Sys {
    Sys(FsAfter(s, a), WritersAfter(s, a), ReadersAfter(s, a),
        if a.Begin? then s.usedSuffixes + {a.suffix} else s.usedSuffixes)
  }

  // ---------------------------------------------------------------------------
  // Invariant
  // ---------------------------------------------------------------------------

  /** An unfinished file belongs to one writer, under its temp name only, and holds a prefix of its body. */
  ghost predicate WriterOk(fs: Fs, w: Writer) {
    && Parent(w.key) in fs.dirs && (w.phase.Begun? ==> w.written == 0)
    && (w.phase.Opened? || w.phase.Flushed? ==>
          && w.inode in fs.inodes && TmpOf(w) in fs.names && fs.names[TmpOf(w)] == w.inode
          && (forall key :: !Refers(fs, Key(key), w.inode))
          && w.written <= |w.body| && fs.inodes[w.inode].data == w.body[..w.written])
    && (w.phase.Flushed? ==> fs.inodes[w.inode].synced && w.written == |w.body|)
  }

  /** An opened file is a complete one. */
  ghost predicate ReaderOk(fs: Fs, r: Reader) {
    r.inode.Some? ==>
      && r.inode.value in fs.inodes && fs.inodes[r.inode.value].synced
      && r.got <= fs.inodes[r.inode.value].data
  }

  ghost predicate Inv(s: Sys) {
    && Valid(s.fs)
    && (forall w | w in s.writers :: s.writers[w].suffix in s.usedSuffixes && WriterOk(s.fs, s.writers[w]))
    && (forall v, w | v in s.writers && w in s.writers && v != w ::
          s.writers[v].suffix != s.writers[w].suffix && forall i | Owns(s.writers[v], i) :: !Owns(s.writers[w], i))
    && (forall r | r in s.readers :: ReaderOk(s.fs, s.readers[r]))
    && (forall r, w | r in s.readers && w in s.writers && s.readers[r].inode.Some? ::
          !Owns(s.writers[w], s.readers[r].inode.value))
  }

  /** How an action may change a key, now and after a crash. */
  ghost predicate Effect(s: Sys, a: Action, t: Fs, key: string) {
    match a
    case RenameTmp(w) =>
      if w in s.writers && s.writers[w].key == key then Becomes(s.fs, t, key, Some(s.writers[w].body))
      else Quiet(s.fs, t, key)
    case Remove(gone) => if gone == key then Becomes(s.fs, t, key, None) else Quiet(s.fs, t, key)
    case Finish(_, _) => Hardens(s.fs, t, key)
    case Writeback(_) => Hardens(s.fs, t, key)
    case Crash(_, _) => May(s.fs, key, ViewAt(t, key)) && forall v :: May(t, key, v) <==> v == ViewAt(t, key)
    case _ => Quiet(s.fs, t, key)
  }

  /** The content stays, and fewer others may survive a crash. */
  ghost predicate Hardens(s: Fs, t: Fs, key: string) {
    ViewAt(t, key) == ViewAt(s, key) && forall v | May(t, key, v) :: May(s, key, v)
  }

  /** Files change only in the hands of the writer that owns them. */
  lemma FilesFrame(s: Sys, a: Action, i: nat)
    requires Inv(s) && Enabled(s, a) && i in s.fs.inodes
    requires forall w | w in s.writers :: !Owns(s.writers[w], i)
    ensures i in FsAfter(s, a).inodes && (s.fs.inodes[i].synced ==> FsAfter(s, a).inodes[i] == s.fs.inodes[i])
  {
  }

  lemma WriterFsStep(s: Sys, a: Action, w: nat)
    requires Inv(s) && Enabled(s, a) && w in s.writers
    requires a == WriteSome(w, if a.WriteSome? then a.n else 0) || a == Flush(w) || a == RenameTmp(w)
    ensures Valid(FsAfter(s, a)) && forall key :: Effect(s, a, FsAfter(s, a), key)
  {
    var x := s.writers[w];
    match a {
      case WriteSome(_, n) =>
        FileStep(s.fs, x.inode, Inode(s.fs.inodes[x.inode].data + x.body[x.written..x.written + n], false));
      case Flush(_) => FileStep(s.fs, x.inode, s.fs.inodes[x.inode].(synced := true));
      case RenameTmp(_) =>
        assert x.body[..x.written] == x.body;
        RenameStep(s.fs, TmpOf(x), x.key);
    }
  }

  lemma HardeningFsStep(s: Sys, a: Action)
    requires Valid(s.fs) && Enabled(s, a) && (a.Finish? || a.Writeback?)
    ensures Valid(FsAfter(s, a)) && forall key :: Hardens(s.fs, FsAfter(s, a), key)
  {
    match a {
      case Finish(w, synced) =>
        if synced {
          SyncDirKeepsValid(s.fs, Parent(s.writers[w].key));
          forall key ensures Hardens(s.fs, FsAfter(s, a), key) { SyncDirStep(s.fs, Parent(s.writers[w].key), key); }
        }
      case Writeback(d) =>
        WritebackStep(s.fs, d, "");
        forall key ensures Hardens(s.fs, FsAfter(s, a), key) { WritebackStep(s.fs, d, key); }
    }
  }

  /** Every action treats every key as an atomic register. */
  lemma ActionRefinesRegister(s: Sys, a: Action)
    requires Inv(s) && Enabled(s, a)
    ensures Valid(FsAfter(s, a)) && forall key :: Effect(s, a, FsAfter(s, a), key)
  {
    match a {
      case Begin(_, key, _, _) => CreateDirAllStep(s.fs, Parent(key));
      case CreateTmp(w, inode) => CreateFileStep(s.fs, TmpOf(s.writers[w]), inode);
      case WriteSome(w, _) => WriterFsStep(s, a, w);
      case Flush(w) => WriterFsStep(s, a, w);
      case RenameTmp(w) => WriterFsStep(s, a, w);
      case Remove(gone) => RemoveFileStep(s.fs, gone);
      case Crash(kept, found) =>
        CrashKeepsValid(s.fs, found, kept);
        forall key ensures Effect(s, a, found, key) { CrashPicks(s.fs, found, kept, key); }
      case _ => if a.Finish? || a.Writeback? { HardeningFsStep(s, a); }
    }
  }

  function Actor(a: Action): Option<nat> {
    match a
    case Begin(w, _, _, _) => Some(w)
    case CreateTmp(w, _) => Some(w)
    case WriteSome(w, _) => Some(w)
    case Flush(w) => Some(w)
    case RenameTmp(w) => Some(w)
    case Finish(w, _) => Some(w)
    case Abort(w) => Some(w)
    case _ => None
  }

  /** Only a rename gives a key a new file. */
  lemma KeyRefs(s: Sys, a: Action, key: string, i: nat)
    requires Inv(s) && Enabled(s, a) && !a.Crash? && Refers(FsAfter(s, a), Key(key), i)
    ensures Refers(s.fs, Key(key), i) || (a.RenameTmp? && Owns(s.writers[a.w], i))
  {
    if a.Finish? && a.synced {
      SyncDirEntry(s.fs, Parent(s.writers[a.w].key), Key(key), Some(i));
    }
  }

  lemma DirsGrow(s: Sys, a: Action)
    requires !a.Crash?
    ensures s.fs.dirs <= FsAfter(s, a).dirs
  {
  }

  lemma OtherFileStays(s: Sys, a: Action, v: nat)
    requires Inv(s) && Enabled(s, a) && !a.Crash? && v in s.writers && Actor(a) != Some(v)
    requires Owns(s.writers[v], s.writers[v].inode)
    ensures var x, t := s.writers[v], FsAfter(s, a);
            && x.inode in t.inodes && t.inodes[x.inode] == s.fs.inodes[x.inode]
            && TmpOf(x) in t.names && t.names[TmpOf(x)] == x.inode
  {
  }

  lemma OtherFileStaysPrivate(s: Sys, a: Action, v: nat, key: string)
    requires Inv(s) && Enabled(s, a) && !a.Crash? && v in s.writers && Actor(a) != Some(v)
    requires Owns(s.writers[v], s.writers[v].inode)
    ensures !Refers(FsAfter(s, a), Key(key), s.writers[v].inode)
  {
    if Refers(FsAfter(s, a), Key(key), s.writers[v].inode) { KeyRefs(s, a, key, s.writers[v].inode); }
  }

  /** No action disturbs another writer. */
  lemma OtherWriterOk(s: Sys, a: Action, v: nat)
    requires Inv(s) && Enabled(s, a) && !a.Crash? && v in s.writers && Actor(a) != Some(v)
    ensures WriterOk(FsAfter(s, a), s.writers[v])
  {
    var x := s.writers[v];
    DirsGrow(s, a);
    if Owns(x, x.inode) {
      OtherFileStays(s, a, v);
      forall key ensures !Refers(FsAfter(s, a), Key(key), x.inode) { OtherFileStaysPrivate(s, a, v, key); }
    }
  }

  lemma ActorFileIsPrivate(s: Sys, a: Action, key: string)
    requires Inv(s) && Enabled(s, a) && (a.CreateTmp? || a.WriteSome? || a.Flush?)
    ensures !Refers(FsAfter(s, a), Key(key), WritersAfter(s, a)[a.w].inode)
  {
    var i := WritersAfter(s, a)[a.w].inode;
    if Refers(FsAfter(s, a), Key(key), i) {
      KeyRefs(s, a, key, i);
    }
  }

  lemma FileActorOk(s: Sys, a: Action)
    requires Inv(s) && Enabled(s, a) && (a.CreateTmp? || a.WriteSome? || a.Flush?)
    ensures WriterOk(FsAfter(s, a), WritersAfter(s, a)[a.w])
  {
    DirsGrow(s, a);
    forall key
      ensures !Refers(FsAfter(s, a), Key(key), WritersAfter(s, a)[a.w].inode)
    {
      ActorFileIsPrivate(s, a, key);
    }
    if a.WriteSome? {
      var was := s.writers[a.w];
      assert was.body[..was.written] + was.body[was.written..was.written + a.n] == was.body[..was.written + a.n];
    }
  }

  lemma ActorOk(s: Sys, a: Action)
    requires Inv(s) && Enabled(s, a) && Actor(a).Some? && Actor(a).value in WritersAfter(s, a)
    ensures WriterOk(FsAfter(s, a), WritersAfter(s, a)[Actor(a).value])
  {
    if a.CreateTmp? || a.WriteSome? || a.Flush? { FileActorOk(s, a); } else { DirsGrow(s, a); }
  }

  lemma ReadersStayOk(s: Sys, a: Action, r: nat)
    requires Inv(s) && Enabled(s, a) && r in ReadersAfter(s, a)
    ensures ReaderOk(FsAfter(s, a), ReadersAfter(s, a)[r])
    ensures var i := ReadersAfter(s, a)[r].inode;
            i.Some? ==> forall w | w in WritersAfter(s, a) :: !Owns(WritersAfter(s, a)[w], i.value)
  {
    if a.Open? && a.r == r {
      var o := Lookup(s.fs.names, Key(a.key));
      if o.Some? { assert Refers(s.fs, Key(a.key), o.value); }
    } else {
      var o := s.readers[r].inode;
      if o.Some? { FilesFrame(s, a, o.value); }
    }
  }

  lemma WritersStayApart(s: Sys, a: Action)
    requires Inv(s) && Enabled(s, a)
    ensures var ws := WritersAfter(s, a);
            forall v, w | v in ws && w in ws && v != w ::
              ws[v].suffix != ws[w].suffix && forall i | Owns(ws[v], i) :: !Owns(ws[w], i)
  {
  }

  lemma StepKeepsInv(s: Sys, a: Action)
    requires Inv(s) && Enabled(s, a)
    ensures Inv(Do(s, a))
  {
    var t := Do(s, a);
    ActionRefinesRegister(s, a);
    WritersStayApart(s, a);
    forall w | w in t.writers
      ensures t.writers[w].suffix in t.usedSuffixes && WriterOk(t.fs, t.writers[w])
    {
      if Actor(a) == Some(w) { ActorOk(s, a); } else { OtherWriterOk(s, a, w); }
    }
    forall r | r in t.readers
      ensures ReaderOk(t.fs, t.readers[r])
      ensures t.readers[r].inode.Some? ==> forall w | w in t.writers :: !Owns(t.writers[w], t.readers[r].inode.value)
    {
      ReadersStayOk(s, a, r);
    }
  }

  // ---------------------------------------------------------------------------
  // Runs
  // ---------------------------------------------------------------------------

  datatype Trace = Trace(states: seq<Sys>, actions: seq<Action>)

  ghost predicate Follows(t: Trace, i: nat)
    requires |t.states| == |t.actions| + 1 && i < |t.actions|
  {
    Enabled(t.states[i], t.actions[i]) && t.states[i + 1] == Do(t.states[i], t.actions[i])
  }

  ghost predicate IsRun(t: Trace) {
    && |t.states| == |t.actions| + 1 && t.states[0] == Sys(EMPTY_ROOT, map[], map[], {})
    && forall i | 0 <= i < |t.actions| :: Follows(t, i)
  }

  lemma EmptyRootIsValid()
    ensures Valid(EMPTY_ROOT) && forall key, v :: May(EMPTY_ROOT, key, v) ==> v == None
  {
  }

  lemma {:induction false} RunKeepsInv(t: Trace, i: nat)
    requires IsRun(t) && i < |t.states|
    ensures Inv(t.states[i])
  {
    if i == 0 {
      EmptyRootIsValid();
    } else {
      RunKeepsInv(t, i - 1);
      assert Follows(t, i - 1);
      StepKeepsInv(t.states[i - 1], t.actions[i - 1]);
    }
  }

  /** Step `i` puts the whole body at the key. */
  predicate PutsAt(t: Trace, i: int, key: string, body: Bytes)
    requires |t.states| == |t.actions| + 1
  {
    0 <= i < |t.actions| && t.actions[i].RenameTmp? && t.actions[i].w in t.states[i].writers
    && t.states[i].writers[t.actions[i].w].key == key && t.states[i].writers[t.actions[i].w].body == body
  }

  lemma OnlyRenamesAddBodies(t: Trace, k: nat, key: string, body: Bytes)
    requires IsRun(t) && k < |t.actions| && May(t.states[k + 1].fs, key, Some(body))
    ensures PutsAt(t, k, key, body) || May(t.states[k].fs, key, Some(body))
  {
    RunKeepsInv(t, k);
    assert Follows(t, k);
    ActionRefinesRegister(t.states[k], t.actions[k]);
    assert Effect(t.states[k], t.actions[k], t.states[k + 1].fs, key);
  }

  /** Whatever a key holds, now or after a crash, is one whole body that was put there. */
  lemma {:induction false} OnlyWholeBodies(t: Trace, i: nat, key: string, body: Bytes) returns (j: nat)
    requires IsRun(t) && i < |t.states| && May(t.states[i].fs, key, Some(body))
    ensures j < i && PutsAt(t, j, key, body)
  {
    if i == 0 {
      EmptyRootIsValid();
      assert false;
    } else {
      OnlyRenamesAddBodies(t, i - 1, key, body);
      if PutsAt(t, i - 1, key, body) { j := i - 1; } else { j := OnlyWholeBodies(t, i - 1, key, body); }
    }
  }

  lemma ViewIsPossible(s: Fs, key: string)
    requires Valid(s)
    ensures May(s, key, ViewAt(s, key))
  {
    assert MaySurvive(s, Key(key), Lookup(s.names, Key(key)));
  }

  /** A reader never sees a mix or a prefix: what a `get` finds is one whole body put earlier. */
  lemma ViewsAreWholeBodies(t: Trace, i: nat, key: string) returns (j: nat)
    requires IsRun(t) && i < |t.states| && ViewAt(t.states[i].fs, key).Some?
    ensures j < i && PutsAt(t, j, key, ViewAt(t.states[i].fs, key).value)
  {
    RunKeepsInv(t, i);
    ViewIsPossible(t.states[i].fs, key);
    j := OnlyWholeBodies(t, i, key, ViewAt(t.states[i].fs, key).value);
  }

  /** The file a reader opened keeps its bytes until the read ends, whatever happens to the key. */
  lemma {:induction false} OpenFileIsStable(t: Trace, i: nat, m: nat, r: nat, key: string)
    requires IsRun(t) && i < m <= |t.actions| && t.actions[i] == Open(r, key)
    requires forall k | i < k < m :: t.actions[k] != Close(r) && !t.actions[k].Crash?
    ensures r in t.states[m].readers
            && Content(t.states[m].fs, t.states[m].readers[r].inode) == ViewAt(t.states[i].fs, key)
    decreases m
  {
    var s := t.states[m - 1];
    RunKeepsInv(t, m - 1);
    assert Follows(t, m - 1);
    if m == i + 1 {
      var o := Lookup(s.fs.names, Key(key));
      if o.Some? { assert Refers(s.fs, Key(key), o.value); }
    } else {
      OpenFileIsStable(t, i, m - 1, r, key);
      var o := s.readers[r].inode;
      if o.Some? { FilesFrame(s, t.actions[m - 1], o.value); }
    }
  }

  /** A read that runs to the end returns exactly what the key held when the read opened it. */
  lemma ReadsAreAtomic(t: Trace, i: nat, m: nat, r: nat, key: string)
    requires IsRun(t) && i < m < |t.actions| && t.actions[i] == Open(r, key) && t.actions[m] == Close(r)
    requires forall k | i < k < m :: t.actions[k] != Close(r) && !t.actions[k].Crash?
    ensures r in t.states[m].readers
    ensures var x := t.states[m].readers[r];
            ViewAt(t.states[i].fs, key) == if x.inode.Some? then Some(x.got) else None
  {
    OpenFileIsStable(t, i, m, r, key);
    RunKeepsInv(t, m);
    var x := t.states[m].readers[r];
    assert Follows(t, m);
    if x.inode.Some? {
      assert ReaderOk(t.states[m].fs, x);
      assert x.got == t.states[m].fs.inodes[x.inode.value].data;
    }
  }

  // ---------------------------------------------------------------------------
  // Durability
  // ---------------------------------------------------------------------------

  /** The key's entry is on disk, and so are the directories above it. */
  ghost predicate Secure(s: Fs, key: string) { Settled(s, key) && Anchored(s.onDisk, Parent(key)) }

  predicate Replaces(s: Sys, a: Action, key: string) {
    (a.RenameTmp? && a.w in s.writers && s.writers[a.w].key == key) || a == Remove(key)
  }

  /** Only puts and deletes of the key, and crashes, change what it holds. */
  lemma ViewStays(s: Sys, a: Action, key: string)
    requires Inv(s) && Enabled(s, a) && !Replaces(s, a, key) && !a.Crash?
    ensures ViewAt(FsAfter(s, a), key) == ViewAt(s.fs, key)
  {
    ActionRefinesRegister(s, a);
    assert Effect(s, a, FsAfter(s, a), key);
  }

  lemma RenamePuts(s: Sys, w: nat)
    requires Inv(s) && Enabled(s, RenameTmp(w))
    ensures ViewAt(FsAfter(s, RenameTmp(w)), s.writers[w].key) == Some(s.writers[w].body)
  {
    ActionRefinesRegister(s, RenameTmp(w));
    assert Effect(s, RenameTmp(w), FsAfter(s, RenameTmp(w)), s.writers[w].key);
  }

  lemma SettledStays(s: Sys, a: Action, key: string)
    requires Valid(s.fs) && Settled(s.fs, key) && Enabled(s, a) && !Replaces(s, a, key) && !a.Crash?
    ensures Settled(FsAfter(s, a), key) && s.fs.onDisk <= FsAfter(s, a).onDisk
  {
    var t := FsAfter(s, a);
    forall o
      ensures MaySurvive(t, Key(key), o) <==> o == Lookup(t.names, Key(key))
    {
      assert MaySurvive(s.fs, Key(key), o) <==> o == Lookup(s.fs.names, Key(key));
      if a.Finish? && a.synced { SyncDirEntry(s.fs, Parent(s.writers[a.w].key), Key(key), o); }
    }
  }

  lemma SecureCrash(s: Fs, found: Fs, kept: set<string>, key: string)
    requires Valid(s) && Secure(s, key) && CrashTo(s, found, kept)
    ensures Secure(found, key) && ViewAt(found, key) == ViewAt(s, key)
  {
    SettledSurvivesIff(s, key);
    CrashPicks(s, found, kept, key);
    AnchoredMore(s.onDisk, kept, Parent(key));
    AnchoredAgain(kept, s.dirs, Parent(key));
  }

  lemma SecureStep(s: Sys, a: Action, key: string)
    requires Inv(s) && Enabled(s, a) && Secure(s.fs, key) && !Replaces(s, a, key)
    ensures Secure(FsAfter(s, a), key) && ViewAt(FsAfter(s, a), key) == ViewAt(s.fs, key)
  {
    if a.Crash? {
      SecureCrash(s.fs, a.found, a.kept, key);
    } else {
      SettledStays(s, a, key);
      ViewStays(s, a, key);
      AnchoredMore(s.fs.onDisk, FsAfter(s, a).onDisk, Parent(key));
    }
  }

  lemma SecureTraceStep(t: Trace, k: nat, key: string)
    requires IsRun(t) && k < |t.actions| && Secure(t.states[k].fs, key) && !Replaces(t.states[k], t.actions[k], key)
    ensures Secure(t.states[k + 1].fs, key) && ViewAt(t.states[k + 1].fs, key) == ViewAt(t.states[k].fs, key)
  {
    RunKeepsInv(t, k);
    assert Follows(t, k);
    SecureStep(t.states[k], t.actions[k], key);
  }

  lemma {:induction false} SecureStaysUntilReplaced(t: Trace, i: nat, j: nat, key: string)
    requires IsRun(t) && i <= j < |t.states| && Secure(t.states[i].fs, key)
    requires forall k | i <= k < j :: !Replaces(t.states[k], t.actions[k], key)
    ensures Secure(t.states[j].fs, key) && ViewAt(t.states[j].fs, key) == ViewAt(t.states[i].fs, key)
    decreases j
  {
    if i < j {
      SecureStaysUntilReplaced(t, i, j - 1, key);
      SecureTraceStep(t, j - 1, key);
    }
  }

  lemma PutTraceStep(t: Trace, p: nat, key: string, body: Bytes)
    requires IsRun(t) && PutsAt(t, p, key, body)
    ensures ViewAt(t.states[p + 1].fs, key) == Some(body)
  {
    RunKeepsInv(t, p);
    assert Follows(t, p);
    RenamePuts(t.states[p], t.actions[p].w);
  }

  lemma ViewTraceStep(t: Trace, k: nat, key: string)
    requires IsRun(t) && k < |t.actions| && !Replaces(t.states[k], t.actions[k], key) && !t.actions[k].Crash?
    ensures ViewAt(t.states[k + 1].fs, key) == ViewAt(t.states[k].fs, key)
  {
    RunKeepsInv(t, k);
    assert Follows(t, k);
    ViewStays(t.states[k], t.actions[k], key);
  }

  /** Without a crash, a key holds what was put there until it is replaced. */
  lemma {:induction false} PutStaysWithoutCrash(t: Trace, p: nat, j: nat, key: string, body: Bytes)
    requires IsRun(t) && p < j < |t.states| && PutsAt(t, p, key, body)
    requires forall k | p < k < j :: !Replaces(t.states[k], t.actions[k], key) && !t.actions[k].Crash?
    ensures ViewAt(t.states[j].fs, key) == Some(body)
    decreases j
  {
    if p == j - 1 {
      PutTraceStep(t, p, key, body);
    } else {
      PutStaysWithoutCrash(t, p, j - 1, key, body);
      ViewTraceStep(t, j - 1, key);
    }
  }

  /**
   Once a `put` returned with its directory fsync done, in a directory that is itself on disk, its bytes survive
   any number of crashes until a later put or delete of the key.
   */
  lemma FinishedPutIsDurable(t: Trace, p: nat, f: nat, j: nat, key: string, body: Bytes)
    requires IsRun(t) && p < f < j < |t.states| && PutsAt(t, p, key, body)
    requires Follows(t, f) && t.actions[f] == Finish(t.actions[p].w, true)
    requires t.states[f].writers[t.actions[p].w].key == key
    requires forall k | p < k < f :: !t.actions[k].Crash?
    requires Anchored(t.states[f].fs.onDisk, Parent(key))
    requires forall k | p < k < j :: !Replaces(t.states[k], t.actions[k], key)
    ensures ViewAt(t.states[j].fs, key) == Some(body)
  {
    PutStaysWithoutCrash(t, p, f, key, body);
    RunKeepsInv(t, f);
    var s, s' := t.states[f].fs, t.states[f + 1].fs;
    assert s' == SyncDir(s, Parent(key));
    forall o
      ensures MaySurvive(s', Key(key), o) <==> o == Lookup(s'.names, Key(key))
    {
      SyncDirEntry(s, Parent(key), Key(key), o);
    }
    AnchoredMore(s.onDisk, s'.onDisk, Parent(key));
    SyncDirStep(s, Parent(key), key);
    SecureStaysUntilReplaced(t, f + 1, j, key);
  }
}
