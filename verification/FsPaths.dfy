/** How `FsStore::path_for` maps object keys to paths below the storage root. */
module FsPaths {
  import opened Common
  import opened Strings

  function Segments(key: string): (segs: seq<string>)
    ensures segs != []
  {
    Split(key, '/')
  }

  /** The directory a path's segments lead to from `at`, read as the file system does. */
  function Walk(at: seq<string>, segs: seq<string>): seq<string>
    decreases |segs|
  {
    if segs == [] then at
    else
      var next := if segs[0] == "" || segs[0] == "." then at
                  else if segs[0] == ".." then (if at == [] then [] else at[..|at| - 1])
                  else at + [segs[0]];
      Walk(next, segs[1..])
  }

  /** Keys that `path_for` accepts. */
  predicate Allowed(key: string) { ".." !in Segments(key) }

  /** Relative keys with no empty or "." segment. */
  predicate Plain(key: string) {
    forall seg | seg in Segments(key) :: seg != "" && seg != "." && seg != ".."
  }

  /** An accepted key never leads outside the storage root. */
  lemma {:induction false} WalkStaysBelow(root: seq<string>, at: seq<string>, segs: seq<string>)
    requires ".." !in segs && root <= at
    ensures root <= Walk(at, segs)
    decreases |segs|
  {
    if segs != [] {
      var next := if segs[0] == "" || segs[0] == "." then at else at + [segs[0]];
      assert ".." != segs[0];
      assert root <= next;
      WalkStaysBelow(root, next, segs[1..]);
    }
  }

  lemma AllowedKeysStayBelowRoot(root: seq<string>, key: string)
    requires Allowed(key)
    ensures root <= Walk(root, Segments(key))
  {
    WalkStaysBelow(root, root, Segments(key));
  }

  lemma {:induction false} PlainWalk(at: seq<string>, segs: seq<string>)
    requires forall seg | seg in segs :: seg != "" && seg != "." && seg != ".."
    ensures Walk(at, segs) == at + segs
    decreases |segs|
  {
    if segs != [] {
      assert segs[0] in segs && forall seg | seg in segs[1..] :: seg in segs;
      PlainWalk(at + [segs[0]], segs[1..]);
      assert at + [segs[0]] + segs[1..] == at + segs;
    }
  }

  /** Distinct plain keys are distinct files. */
  lemma PlainKeysAreDistinctFiles(root: seq<string>, a: string, b: string)
    requires Plain(a) && Plain(b)
    ensures Walk(root, Segments(a)) == Walk(root, Segments(b)) <==> a == b
  {
    PlainWalk(root, Segments(a));
    PlainWalk(root, Segments(b));
    JoinSplit(a, '/');
    JoinSplit(b, '/');
    if root + Segments(a) == root + Segments(b) {
      assert Segments(a) == (root + Segments(a))[|root|..] == Segments(b);
    }
  }

  /** The loop of `path_for`; a returned path is the key itself, below the root. */
  method PathFor(key: string) returns (r: Result<string>)
    ensures r == if Allowed(key) then Ok(key) else Err(Other)
  {
    var segs := Segments(key);
    for i := 0 to |segs|
      invariant ".." !in segs[..i]
    {
      if segs[i] == ".." { return Err(Other); }
      assert segs[..i + 1] == segs[..i] + [segs[i]];
    }
    assert segs[..|segs|] == segs;
    r := Ok(key);
  }

  /** The directory that holds a path; the storage root is "". */
  function Parent(path: string): (d: string)
    ensures path != "" ==> |d| < |path|
  {
    if path == "" then ""
    else if path[|path| - 1] == '/' then path[..|path| - 1]
    else Parent(path[..|path| - 1])
  }
}
