/**
 Object keys: `sanitize_filename`, the key formats of a first upload and of a later version, and what
 can be read back from a key.
 */
module ObjectKeys {
  import opened Common
  import opened Decimal

  const MAX_NAME: nat := 200
  const DEFAULT_NAME: string := "upload"

  // ---------------------------------------------------------------------------
  // sanitize_filename
  // ---------------------------------------------------------------------------

  predicate Bad(ch: char, leading: bool) {
    ch as int < 0x20 || ch == '/' || ch == '\\' || ch == '"' || (leading && ch == '.')
  }

  function Replaced(s: string, leading: bool): string {
    if s == "" then ""
    else if Bad(s[0], leading) then ['_'] + Replaced(s[1..], leading)
    else [s[0]] + Replaced(s[1..], false)
  }

  function Collapsed(s: string, prevUnderscore: bool): string {
    if s == "" then ""
    else if s[0] == '_' && prevUnderscore then Collapsed(s[1..], true)
    else [s[0]] + Collapsed(s[1..], s[0] == '_')
  }

  function Trimmed(s: string): string { if |s| <= MAX_NAME then s else s[..MAX_NAME] }

  function Sanitize(input: string): string {
    var trimmed := Trimmed(Collapsed(Replaced(input, true), false));
    if trimmed == "" then DEFAULT_NAME else trimmed
  }

  /** What storage backends rely on about a file-name segment. */
  predicate SafeName(s: string) {
    && 1 <= |s| <= MAX_NAME
    && (forall i | 0 <= i < |s| :: !Bad(s[i], false))
    && s[0] != '.'
    && (forall i | 0 <= i < |s| - 1 :: !(s[i] == '_' && s[i + 1] == '_'))
  }

  lemma ReplacedNext(out: string, rest: string, leading: bool)
    requires rest != ""
    ensures out + Replaced(rest, leading)
         == if Bad(rest[0], leading) then (out + ['_']) + Replaced(rest[1..], leading)
            else (out + [rest[0]]) + Replaced(rest[1..], false)
  {
  }

  method ReplaceBad(input: string) returns (out: string)
    ensures out == Replaced(input, true)
  {
    out := "";
    var leading := true;
    var i := 0;
    while i < |input|
      invariant 0 <= i <= |input|
      invariant out + Replaced(input[i..], leading) == Replaced(input, true)
    {
      var ch := input[i];
      ReplacedNext(out, input[i..], leading);
      assert input[i..][1..] == input[i + 1..];
      if Bad(ch, leading) {
        out := out + ['_'];
      } else {
        out := out + [ch];
        leading := false;
      }
      i := i + 1;
    }
  }

  method CollapseRuns(out: string) returns (collapsed: string)
    ensures collapsed == Collapsed(out, false)
  {
    collapsed := "";
    var prevUs := false;
    var i := 0;
    while i < |out|
      invariant 0 <= i <= |out|
      invariant collapsed + Collapsed(out[i..], prevUs) == Collapsed(out, false)
    {
      var ch := out[i];
      ghost var rest := out[i + 1..];
      assert out[i..][1..] == rest;
      if ch != '_' || !prevUs {
        assert (collapsed + [ch]) + Collapsed(rest, ch == '_') == collapsed + ([ch] + Collapsed(rest, ch == '_'));
        collapsed := collapsed + [ch];
      }
      prevUs := ch == '_';
      i := i + 1;
    }
  }

  /** The two passes, the trim and the default, as the handler runs them. */
  method SanitizeFilename(input: string) returns (name: string)
    ensures name == Sanitize(input)
    ensures SafeName(name)
  {
    var out := ReplaceBad(input);
    var collapsed := CollapseRuns(out);
    var trimmed := if |collapsed| <= MAX_NAME then collapsed else collapsed[..MAX_NAME];
    name := if trimmed == "" then DEFAULT_NAME else trimmed;
    SanitizeIsSafe(input);
  }

  lemma {:induction false} ReplacedShape(s: string, leading: bool)
    ensures var r := Replaced(s, leading);
            |r| == |s| && (forall i | 0 <= i < |r| :: !Bad(r[i], false)) && (leading && r != "" ==> r[0] != '.')
  {
    if s != "" {
      ReplacedShape(s[1..], if Bad(s[0], leading) then leading else false);
    }
  }

  lemma {:induction false} CollapsedShape(s: string, prev: bool)
    requires forall i | 0 <= i < |s| :: !Bad(s[i], false)
    ensures var c := Collapsed(s, prev);
            && (forall i | 0 <= i < |c| :: !Bad(c[i], false))
            && (forall i | 0 <= i < |c| - 1 :: !(c[i] == '_' && c[i + 1] == '_'))
            && (prev && c != "" ==> c[0] != '_')
            && (!prev && s != "" ==> c != "" && c[0] == s[0])
  {
    if s != "" {
      CollapsedShape(s[1..], s[0] == '_');
    }
  }

  /** Every sanitised name is safe, whatever the input. */
  lemma SanitizeIsSafe(input: string)
    ensures SafeName(Sanitize(input))
  {
    ReplacedShape(input, true);
    CollapsedShape(Replaced(input, true), false);
  }

  lemma {:induction false} ReplacedFixed(s: string, leading: bool)
    requires forall i | 0 <= i < |s| :: !Bad(s[i], false)
    requires leading && s != "" ==> s[0] != '.'
    ensures Replaced(s, leading) == s
  {
    if s != "" {
      ReplacedFixed(s[1..], false);
    }
  }

  lemma {:induction false} CollapsedFixed(s: string, prev: bool)
    requires forall i | 0 <= i < |s| - 1 :: !(s[i] == '_' && s[i + 1] == '_')
    requires prev && s != "" ==> s[0] != '_'
    ensures Collapsed(s, prev) == s
  {
    if s != "" {
      CollapsedFixed(s[1..], s[0] == '_');
    }
  }

  /** A name is left alone exactly when it is safe; so sanitising is idempotent and its image is the safe names. */
  lemma SafeIffFixed(name: string)
    ensures SafeName(name) <==> Sanitize(name) == name
    ensures Sanitize(Sanitize(name)) == Sanitize(name)
  {
    SanitizeIsSafe(name);
    SafeIsFixed(Sanitize(name));
    if SafeName(name) { SafeIsFixed(name); }
  }

  lemma SafeIsFixed(name: string)
    requires SafeName(name)
    ensures Sanitize(name) == name
  {
    ReplacedFixed(name, true);
    CollapsedFixed(name, false);
  }

  // ---------------------------------------------------------------------------
  // Key formats
  // ---------------------------------------------------------------------------

  /** `{bucket}/{id}-{tail}` */
  function KeyOf(bucket: string, id: Uuid, tail: string): string {
    bucket + "/" + id + "-" + tail
  }

  /** `v{n}-{safe}` */
  function VersionTail(n: nat, safe: string): string { "v" + Dec(n) + "-" + safe }

  function FirstKey(bucket: string, id: Uuid, name: string): string {
    KeyOf(bucket, id, Sanitize(name))
  }

  function VersionKey(bucket: string, id: Uuid, n: nat, name: string): string {
    KeyOf(bucket, id, VersionTail(n, Sanitize(name)))
  }

  // ---------------------------------------------------------------------------
  // Reading keys back
  // ---------------------------------------------------------------------------

  /** The text after the last path separator; everything when there is none. */
  function LastSegment(key: string): (seg: string)
    ensures |seg| <= |key| && '/' !in seg && key[|key| - |seg|..] == seg
    ensures |seg| < |key| ==> key[|key| - |seg| - 1] == '/'
  {
    if key == "" then ""
    else
      var last := |key| - 1;
      if key[last] == '/' then ""
      else
        var seg := LastSegment(key[..last]) + [key[last]];
        assert key[|key| - |seg|..] == key[..last][|key| - |seg|..] + [key[last]];
        seg
  }

  lemma {:induction false} LastSegmentOf(prefix: string, seg: string)
    requires '/' !in seg
    ensures LastSegment(prefix + "/" + seg) == seg
  {
    var key := prefix + "/" + seg;
    if seg == "" {
      assert key[|key| - 1] == '/';
    } else {
      var last := |seg| - 1;
      LastSegmentOf(prefix, seg[..last]);
      assert key[..|key| - 1] == prefix + "/" + seg[..last];
      assert key[|key| - 1] == seg[last];
      assert seg == seg[..last] + [seg[last]];
    }
  }

  datatype KeyParts = KeyParts(bucket: string, id: Uuid, tail: string)

  /** What a reader can recover from an object key alone. */
  function DecodeKey(key: string): Option<KeyParts> {
    var seg := LastSegment(key);
    if |seg| < 37 || |seg| == |key| || seg[36] != '-' then None
    else
      assert forall c | c in seg[..36] :: c in seg;
      Some(KeyParts(key[..|key| - |seg| - 1], seg[..36], seg[37..]))
  }

  /** Bucket, file id and the rest come back from any generated key, even when the bucket contains separators. */
  lemma DecodeKeyOf(bucket: string, id: Uuid, tail: string)
    requires '/' !in tail
    ensures DecodeKey(KeyOf(bucket, id, tail)) == Some(KeyParts(bucket, id, tail))
  {
    var seg := id + "-" + tail;
    assert KeyOf(bucket, id, tail) == bucket + "/" + seg;
    LastSegmentOf(bucket, seg);
    var key := KeyOf(bucket, id, tail);
    assert key[..|key| - |seg| - 1] == bucket;
    assert seg[..36] == id;
    assert seg[37..] == tail;
  }

  /** Splits a tail `v<digits>-<rest>`. */
  function DecodeVersion(tail: string): Option<(string, string)> {
    if tail == "" || tail[0] != 'v' then None
    else
      var k := DigitSpan(tail[1..]);
      if k == 0 || 1 + k == |tail| || tail[1 + k] != '-' then None
      else Some((tail[1..1 + k], tail[2 + k..]))
  }

  lemma DecodeVersionOf(n: nat, rest: string)
    ensures DecodeVersion(VersionTail(n, rest)) == Some((Dec(n), rest))
  {
    var tail := VersionTail(n, rest);
    DigitSpanOf(Dec(n), "-" + rest);
    assert tail[1..] == Dec(n) + ("-" + rest);
    assert tail[1..1 + |Dec(n)|] == Dec(n);
    assert tail[2 + |Dec(n)|..] == rest;
  }

  lemma DecodeVersionInverse(tail: string)
    requires DecodeVersion(tail).Some?
    ensures var (digits, rest) := DecodeVersion(tail).value;
            AllDigits(digits) && tail == "v" + digits + "-" + rest
  {
    var k := DigitSpan(tail[1..]);
    assert tail[1..][..k] == tail[1..1 + k];
    assert tail == [tail[0]] + tail[1..1 + k] + [tail[1 + k]] + tail[2 + k..];
  }

  /** A sanitised first-upload name that some later version of the same file could spell again. Decidable. */
  predicate VersionLike(tail: string) {
    match DecodeVersion(tail)
    case None => false
    case Some((digits, rest)) =>
      DecodeVersionInverse(tail);
      Dec(Value(digits)) == digits && Value(digits) >= 2 && SafeName(rest)
  }

  /** `VersionLike` is exactly "there is a version number and a file name whose key is the same". */
  lemma VersionLikeExact(bucket: string, id: Uuid, name: string)
    ensures VersionLike(Sanitize(name))
       <==> exists n: nat, other: string :: n >= 2 && FirstKey(bucket, id, name) == VersionKey(bucket, id, n, other)
  {
    var tail := Sanitize(name);
    SanitizeIsSafe(name);
    if VersionLike(tail) {
      var (digits, rest) := DecodeVersion(tail).value;
      DecodeVersionInverse(tail);
      SafeIsFixed(rest);
      assert FirstKey(bucket, id, name) == VersionKey(bucket, id, Value(digits), rest);
    }
    if n: nat, other: string :| n >= 2 && FirstKey(bucket, id, name) == VersionKey(bucket, id, n, other) {
      SanitizeIsSafe(other);
      KeyTailInjective(bucket, id, tail, VersionTail(n, Sanitize(other)));
      DecodeVersionOf(n, Sanitize(other));
      ValueOfDec(n);
    }
  }

  lemma KeyTailInjective(bucket: string, id: Uuid, t1: string, t2: string)
    requires KeyOf(bucket, id, t1) == KeyOf(bucket, id, t2)
    ensures t1 == t2
  {
    var p := bucket + "/" + id + "-";
    assert KeyOf(bucket, id, t1) == p + t1;
    assert KeyOf(bucket, id, t2) == p + t2;
    assert (p + t1)[|p|..] == t1;
    assert (p + t2)[|p|..] == t2;
  }

  /** Keys of two different versions differ, whatever the bucket, the file and the two names. */
  lemma VersionKeysDistinct(b1: string, i1: Uuid, n1: nat, name1: string, b2: string, i2: Uuid, n2: nat, name2: string)
    requires VersionKey(b1, i1, n1, name1) == VersionKey(b2, i2, n2, name2)
    ensures b1 == b2 && i1 == i2 && n1 == n2 && Sanitize(name1) == Sanitize(name2)
  {
    SanitizeIsSafe(name1);
    SanitizeIsSafe(name2);
    SafeTail(n1, Sanitize(name1));
    SafeTail(n2, Sanitize(name2));
    DecodeKeyOf(b1, i1, VersionTail(n1, Sanitize(name1)));
    DecodeKeyOf(b2, i2, VersionTail(n2, Sanitize(name2)));
    DecodeVersionOf(n1, Sanitize(name1));
    DecodeVersionOf(n2, Sanitize(name2));
    DecInjective(n1, n2);
  }

  lemma SafeTail(n: nat, safe: string)
    requires SafeName(safe)
    ensures '/' !in VersionTail(n, safe) && '/' !in safe
  {
    assert forall c | c in Dec(n) :: c != '/';
    assert forall c | c in safe :: !Bad(c, false);
  }

  lemma DecodeFirstKey(bucket: string, id: Uuid, name: string)
    ensures DecodeKey(FirstKey(bucket, id, name)) == Some(KeyParts(bucket, id, Sanitize(name)))
  {
    SanitizeIsSafe(name);
    SafeTail(1, Sanitize(name));
    DecodeKeyOf(bucket, id, Sanitize(name));
  }

  lemma DecodeVersionKey(bucket: string, id: Uuid, n: nat, name: string)
    ensures DecodeKey(VersionKey(bucket, id, n, name)) == Some(KeyParts(bucket, id, VersionTail(n, Sanitize(name))))
  {
    SanitizeIsSafe(name);
    SafeTail(n, Sanitize(name));
    DecodeKeyOf(bucket, id, VersionTail(n, Sanitize(name)));
  }
}
