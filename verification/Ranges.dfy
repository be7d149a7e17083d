/** `parse_range`: single byte ranges of a download, against the range rules of RFC 9110 section 14.1.2. */
module Ranges {
  import opened Common
  import opened Decimal

  const U64_LIMIT: nat := 0x1_0000_0000_0000_0000

  /** `str::parse::<u64>`: an optional plus sign, at least one digit, no overflow. */
  function ParseU64(s: string): Option<nat> {
    var digits := if s != "" && s[0] == '+' then s[1..] else s;
    if digits == "" || !AllDigits(digits) || Value(digits) >= U64_LIMIT then None
    else Some(Value(digits))
  }

  /** `str::split_once` on a character: the text before and after its first occurrence. */
  function SplitOnce(s: string, c: char): (r: Option<(string, string)>)
    ensures r.Some? ==> s == r.value.0 + [c] + r.value.1 && c !in r.value.0
    ensures r.None? ==> c !in s
  {
    if s == "" then None
    else if s[0] == c then
      assert s == "" + [c] + s[1..];
      Some(("", s[1..]))
    else
      match SplitOnce(s[1..], c)
      case None => None
      case Some((before, after)) =>
        assert s == [s[0]] + s[1..];
        Some(([s[0]] + before, after))
  }

  const UNIT: string := "bytes="

  function ParseRange(header: string, total: nat): Option<(nat, nat)> {
    if !(UNIT <= header) then None
    else
      var rest := header[|UNIT|..];
      if ',' in rest then None
      else
        match SplitOnce(rest, '-')
        case None => None
        case Some((s, e)) =>
          var start := if s == "" then
                         match ParseU64(e)
                         case None => None
                         case Some(suffix) => Some(if suffix <= total then total - suffix else 0)
                       else ParseU64(s);
          var end := if e == "" then Some(if total == 0 then 0 else total - 1) else ParseU64(e);
          if start.None? || end.None? || start.value > end.value || start.value >= total then None
          else Some((start.value, Min(end.value, total - 1)))
  }

  /** Whatever the header, a returned range lies inside the body. */
  lemma ParsedRangeInBounds(header: string, total: nat)
    ensures ParseRange(header, total).Some? ==>
              var (start, end) := ParseRange(header, total).value; 0 <= start <= end < total
  {
    if UNIT <= header && ',' !in header[|UNIT|..] && SplitOnce(header[|UNIT|..], '-').Some? {
      var (s, e) := SplitOnce(header[|UNIT|..], '-').value;
    }
  }

  // ---------------------------------------------------------------------------
  // The standard's ranges
  // ---------------------------------------------------------------------------

  /** `int-range` and `suffix-range` of RFC 9110 section 14.1.1. */
  datatype RangeSpec = IntRange(first: nat, last: Option<nat>) | SuffixRange(length: nat)

  function Selected(spec: RangeSpec, total: nat): Option<(nat, nat)> {
    match spec
    case IntRange(first, last) =>
      if first >= total || (last.Some? && last.value < first) then None
      else Some((first, if last.None? then total - 1 else Min(last.value, total - 1)))
    case SuffixRange(length) =>
      if length == 0 || total == 0 then None
      else Some((if length <= total then total - length else 0, total - 1))
  }

  function Printed(spec: RangeSpec): string {
    match spec
    case IntRange(first, last) => UNIT + Dec(first) + "-" + (if last.None? then "" else Dec(last.value))
    case SuffixRange(length) => UNIT + "-" + Dec(length)
  }

  lemma ParseU64OfDec(n: nat)
    requires n < U64_LIMIT
    ensures ParseU64(Dec(n)) == Some(n)
  {
    ValueOfDec(n);
    assert IsDigit(Dec(n)[0]);
  }

  lemma SplitOnceOf(before: string, after: string, c: char)
    requires c !in before
    ensures SplitOnce(before + [c] + after, c) == Some((before, after))
  {
    var s := before + [c] + after;
    assert s[|before|] == c;
    var (b, a) := SplitOnce(s, c).value;
    assert forall i | 0 <= i < |before| :: s[i] == before[i];
    assert forall i | 0 <= i < |b| :: s[i] == b[i];
    assert s[|b|] == c;
    assert c !in before && c !in b;
    assert |b| == |before|;
    assert b == s[..|before|] == before;
    assert a == s[|before| + 1..] == after;
  }

  /** Splits a printed header the way `ParseRange` does. */
  lemma PrintedParts(before: string, after: string)
    requires AllDigits(before) && AllDigits(after)
    ensures var header := UNIT + before + "-" + after;
            UNIT <= header && ',' !in header[|UNIT|..] && SplitOnce(header[|UNIT|..], '-') == Some((before, after))
  {
    var header := UNIT + before + "-" + after;
    assert header[|UNIT|..] == before + ['-'] + after;
    assert forall c | c in before + ['-'] + after :: c == '-' || IsDigit(c);
    SplitOnceOf(before, after, '-');
  }

  /** For `a-b` and `a-` headers the result is the standard's range, clamped, and nothing is accepted beyond it. */
  lemma IntRangesFollowStandard(first: nat, last: Option<nat>, total: nat)
    requires first < U64_LIMIT && (last.Some? ==> last.value < U64_LIMIT)
    ensures ParseRange(Printed(IntRange(first, last)), total) == Selected(IntRange(first, last), total)
  {
    ParseU64OfDec(first);
    var after := if last.None? then "" else Dec(last.value);
    PrintedParts(Dec(first), after);
    if last.Some? { ParseU64OfDec(last.value); }
  }

  /**
   For `-n` headers the source takes `n` itself as the end of the range. That is the standard's range
   exactly when the suffix is empty, or reaches back to the first or second byte of the body.
   */
  lemma SuffixRangesFollowStandardIff(n: nat, total: nat)
    requires n < U64_LIMIT
    ensures ParseRange(Printed(SuffixRange(n)), total) == Selected(SuffixRange(n), total)
       <==> n == 0 || n + 1 >= total
  {
    ParseU64OfDec(n);
    PrintedParts("", Dec(n));
    assert UNIT + "" + "-" + Dec(n) == Printed(SuffixRange(n));
  }

  /**
   What becomes of the other suffixes, the case the doc comment promises (`bytes=-1024`): a short one is
   refused, a longer one is answered with bytes from the middle, never up to the last byte.
   */
  lemma SuffixRangeOutcome(n: nat, total: nat)
    requires 0 < n < U64_LIMIT && n + 1 < total
    ensures ParseRange(Printed(SuffixRange(n)), total) == if total <= 2 * n then Some((total - n, n)) else None
    ensures Selected(SuffixRange(n), total) == Some((total - n, total - 1))
  {
    ParseU64OfDec(n);
    PrintedParts("", Dec(n));
    assert UNIT + "" + "-" + Dec(n) == Printed(SuffixRange(n));
  }

  // ---------------------------------------------------------------------------
  // Reassembling a body from 206 responses
  // ---------------------------------------------------------------------------

  /** The slice a 206 response carries for a request header. */
  function PartialContent(body: Bytes, header: string): Option<Bytes> {
    ParsedRangeInBounds(header, |body|);
    match ParseRange(header, |body|)
    case None => None
    case Some((start, end)) => Some(body[start..end + 1])
  }

  ghost predicate Increasing(cuts: seq<nat>) { forall i, j | 0 <= i < j < |cuts| :: cuts[i] < cuts[j] }

  function PieceHeader(start: nat, next: nat): string
    requires start < next
  {
    Printed(IntRange(start, Some(next - 1)))
  }

  /** The headers a client sends for the consecutive pieces between cut points. */
  function Headers(cuts: seq<nat>): (headers: seq<string>)
    requires Increasing(cuts)
  {
    if |cuts| < 2 then []
    else [PieceHeader(cuts[0], cuts[1])] + Headers(cuts[1..])
  }

  /** All responses joined, or nothing when one of them is a 416. */
  function Reassembled(body: Bytes, headers: seq<string>): Option<Bytes> {
    if headers == [] then Some([])
    else
      match (PartialContent(body, headers[0]), Reassembled(body, headers[1..]))
      case (Some(x), Some(y)) => Some(x + y)
      case _ => None
  }

  lemma PieceFetched(body: Bytes, start: nat, next: nat)
    requires start < next <= |body| < U64_LIMIT
    ensures PartialContent(body, PieceHeader(start, next)) == Some(body[start..next])
  {
    IntRangesFollowStandard(start, Some(next - 1), |body|);
  }

  lemma FirstPieceJoins(body: Bytes, header: string, rest: seq<string>, x: Bytes, y: Bytes)
    requires PartialContent(body, header) == Some(x) && Reassembled(body, rest) == Some(y)
    ensures Reassembled(body, [header] + rest) == Some(x + y)
  {
    assert ([header] + rest)[1..] == rest;
  }

  lemma SlicesJoin(body: Bytes, start: nat, next: nat)
    requires start <= next <= |body|
    ensures body[start..next] + body[next..] == body[start..]
  {
  }

  /** Any cutting of a body into consecutive pieces, fetched piece by piece, gives the body back. */
  lemma {:induction false} PartitionReassembles(body: Bytes, cuts: seq<nat>)
    requires |cuts| >= 1 && Increasing(cuts)
    requires cuts[|cuts| - 1] == |body| < U64_LIMIT
    ensures cuts[0] <= |body| && Reassembled(body, Headers(cuts)) == Some(body[cuts[0]..])
  {
    if |cuts| >= 2 {
      PartitionReassembles(body, cuts[1..]);
      PieceFetched(body, cuts[0], cuts[1]);
      SlicesJoin(body, cuts[0], cuts[1]);
      FirstPieceJoins(
        body, PieceHeader(cuts[0], cuts[1]), Headers(cuts[1..]), body[cuts[0]..cuts[1]], body[cuts[1]..]);
    } else {
      assert body[cuts[0]..] == [];
    }
  }
}
