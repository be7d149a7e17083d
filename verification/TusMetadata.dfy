/** The `Upload-Metadata` header of TUS 1.0.0: comma-separated `key base64(value)` entries. */
module TusMetadata {
  import opened Common
  import opened Strings

  /** Base64 together with UTF-8: `decode` is absent where either fails. */
  datatype Codec = Codec(encode: string -> string, decode: string -> Option<string>)

  predicate IsSpace(c: char) { c == ' ' || '\t' <= c <= '\r' }

  predicate IsPlain(s: string) { forall i | 0 <= i < |s| :: !IsSpace(s[i]) && s[i] != ',' }

  /** What is assumed of base64: decoding undoes encoding, and encoded text has no space and no comma. */
  ghost predicate Lawful(b64: Codec) {
    forall v: string ::
      b64.decode(b64.encode(v)) == Some(v) && IsPlain(b64.encode(v)) && (b64.encode(v) == "" <==> v == "")
  }

  function TrimStart(s: string): string { if s != "" && IsSpace(s[0]) then TrimStart(s[1..]) else s }

  function TrimEnd(s: string): string { if s != "" && IsSpace(s[|s| - 1]) then TrimEnd(s[..|s| - 1]) else s }

  function Trim(s: string): string { TrimEnd(TrimStart(s)) }

  /** `splitn(2, ' ')`. */
  function KeyAndValue(entry: string): (string, Option<string>) {
    var parts := Split(entry, ' ');
    (parts[0], if |parts| == 1 then None else Some(Join(parts[1..], ' ')))
  }

  function ValueOf(b64: Codec, v: Option<string>): string {
    if v.None? then ""
    else match b64.decode(Trim(v.value)) case Some(text) => text case None => ""
  }

  /** An entry with an empty key is skipped; a later entry replaces an earlier one of the same key. */
  function Parsed(b64: Codec, entries: seq<string>): map<string, string> {
    if entries == [] then map[]
    else
      var before := Parsed(b64, entries[..|entries| - 1]);
      var (key, v) := KeyAndValue(Trim(entries[|entries| - 1]));
      if key == "" then before else before[key := ValueOf(b64, v)]
  }

  method ParseUploadMetadata(b64: Codec, raw: string) returns (out: map<string, string>)
    ensures out == Parsed(b64, Split(raw, ','))
  {
    out := map[];
    var entries := Split(raw, ',');
    for i := 0 to |entries|
      invariant out == Parsed(b64, entries[..i])
    {
      assert entries[..i + 1][..i] == entries[..i];
      var (key, v) := KeyAndValue(Trim(entries[i]));
      if key == "" { continue; }
      out := out[key := ValueOf(b64, v)];
    }
    assert entries[..|entries|] == entries;
  }

  // ---------------------------------------------------------------------------
  // Reading undoes writing
  // ---------------------------------------------------------------------------

  type Item = (string, string)

  function Entry(b64: Codec, item: Item): string { item.0 + " " + b64.encode(item.1) }

  function Entries(b64: Codec, items: seq<Item>): seq<string> {
    seq(|items|, i requires 0 <= i < |items| => Entry(b64, items[i]))
  }

  /** The header that a client sends for some metadata. */
  function Header(b64: Codec, items: seq<Item>): string
    requires items != []
  {
    Join(Entries(b64, items), ',')
  }

  function MapOf(items: seq<Item>): map<string, string> {
    if items == [] then map[] else MapOf(items[..|items| - 1])[items[|items| - 1].0 := items[|items| - 1].1]
  }

  lemma TrimOf(s: string)
    requires s == "" || (!IsSpace(s[0]) && !IsSpace(s[|s| - 1]))
    ensures Trim(s) == s
  {
  }

  lemma EntryIsRead(b64: Codec, item: Item)
    requires Lawful(b64) && item.0 != "" && IsPlain(item.0)
    ensures var (key, v) := KeyAndValue(Trim(Entry(b64, item)));
            key == item.0 && ValueOf(b64, v) == item.1
  {
    var (key, value) := item;
    var code := b64.encode(value);
    assert ' ' !in key && ' ' !in code;
    if value == "" {
      var s := key + " ";
      assert Entry(b64, item) == s;
      assert TrimStart(s) == s && s[..|s| - 1] == key && s[|s| - 1] == ' ';
      assert TrimEnd(s) == TrimEnd(key) == key;
      SplitPlain(key, ' ');
    } else {
      var s := key + [' '] + code;
      assert Entry(b64, item) == s && s[0] == key[0] && s[|s| - 1] == code[|code| - 1];
      TrimOf(s);
      SplitAfter(key, code, ' ');
      SplitPlain(code, ' ');
      TrimOf(code);
    }
  }

  lemma {:induction false} EntriesAreRead(b64: Codec, items: seq<Item>)
    requires Lawful(b64) && forall x | x in items :: x.0 != "" && IsPlain(x.0)
    ensures Parsed(b64, Entries(b64, items)) == MapOf(items)
  {
    if items != [] {
      var n := |items| - 1;
      assert Entries(b64, items)[..n] == Entries(b64, items[..n]);
      EntriesAreRead(b64, items[..n]);
      EntryIsRead(b64, items[n]);
    }
  }

  /** The server reads back exactly the metadata the client wrote, empty values included. */
  lemma HeaderIsReadBack(b64: Codec, items: seq<Item>)
    requires Lawful(b64) && items != [] && forall x | x in items :: x.0 != "" && IsPlain(x.0)
    ensures Parsed(b64, Split(Header(b64, items), ',')) == MapOf(items)
  {
    var entries := Entries(b64, items);
    forall e | e in entries
      ensures ',' !in e
    {
      var i :| 0 <= i < |items| && e == Entry(b64, items[i]);
      assert IsPlain(items[i].0) && IsPlain(b64.encode(items[i].1));
    }
    SplitJoin(entries, ',');
    EntriesAreRead(b64, items);
  }
}
