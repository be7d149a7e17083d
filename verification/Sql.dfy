/**
 The fragment of SQL that the list, search and folder queries are assembled from, as text: conjuncts, order and limits
 with numbered placeholders, their reading back, and their meaning over a row with parameters bound.
 */
module Sql {
  import opened Common
  import opened Decimal

  /** One conjunct; `n` is the number of its placeholder. A text match owns $1 and $2. */
  datatype Clause =
    | IsNull(col: string)
    | Equals(col: string, n: nat)
    | AnyOf(col: string, n: nat)
    | TextMatch(block: string)

  /** What follows the conjuncts; `limit` and `offset` are the numbers of their placeholders. */
  datatype Ending = Ending(order: string, limit: Option<nat>, offset: Option<nat>)

  datatype Statement = Statement(clauses: seq<Clause>, ending: Option<Ending>)

  datatype Param = Text(text: string) | Texts(texts: seq<string>) | Number(number: int)

  /**
   A table row: its nullable columns as texts, and whether the text match accepts it for a term and a LIKE pattern.
   */
  datatype Row = Row(cell: string -> Option<string>, matches: (string, string) -> bool)

  const WHERE: string := " WHERE "
  const AND: string := " AND "
  const IS_NULL: string := " IS NULL"
  const EQUALS: string := " = $"
  const ANY: string := " = ANY($"
  const ORDER_BY: string := " ORDER BY "
  const LIMIT: string := " LIMIT "
  const OFFSET: string := " OFFSET $"

  predicate IsWordChar(c: char) { 'a' <= c <= 'z' || c == '_' }

  predicate IsColumn(col: string) { col != "" && forall i | 0 <= i < |col| :: IsWordChar(col[i]) }

  /** The text of a text match starts with a parenthesis. */
  predicate IsBlock(block: string) { block != "" && block[0] == '(' }

  /** What can be read back, given the one text match that may occur. */
  predicate Readable(block: string, c: Clause) { if c.TextMatch? then c.block == block else IsColumn(c.col) }

  function Tail(c: Clause): string
    requires !c.TextMatch?
  {
    match c
    case IsNull(_) => IS_NULL
    case Equals(_, n) => EQUALS + Dec(n)
    case AnyOf(_, n) => ANY + (Dec(n) + ")")
  }

  function Body(c: Clause): string { if c.TextMatch? then c.block else c.col + Tail(c) }

  function Render(c: Clause): string { AND + Body(c) }

  function RenderAll(cs: seq<Clause>): string {
    if cs == [] then "" else Render(cs[0]) + RenderAll(cs[1..])
  }

  // ---------------------------------------------------------------------------
  // Reading
  // ---------------------------------------------------------------------------

  function WordSpan(s: string): (k: nat)
    ensures k <= |s| && (forall i | 0 <= i < k :: IsWordChar(s[i])) && (k < |s| ==> !IsWordChar(s[k]))
  {
    if s == "" || !IsWordChar(s[0]) then 0 else 1 + WordSpan(s[1..])
  }

  /** The clause at the front of the text, and the rest. */
  function ParseClause(block: string, text: string): (r: Option<(Clause, string)>)
    ensures r.Some? ==> |r.value.1| < |text|
  {
    if AND <= text then ParseBody(block, text[|AND|..]) else None
  }

  function ParseBody(block: string, t: string): (r: Option<(Clause, string)>)
    ensures r.Some? ==> |r.value.1| <= |t|
  {
    var k := WordSpan(t);
    if k > 0 then ParseTail(t[..k], t[k..])
    else if block <= t then Some((TextMatch(block), t[|block|..]))
    else None
  }

  function ParseTail(col: string, t: string): (r: Option<(Clause, string)>)
    ensures r.Some? ==> |r.value.1| < |t|
  {
    if IS_NULL <= t then Some((IsNull(col), t[|IS_NULL|..]))
    else if ANY <= t then ParseAny(col, t[|ANY|..])
    else if EQUALS <= t then ParseEquals(col, t[|EQUALS|..])
    else None
  }

  function ParseAny(col: string, d: string): (r: Option<(Clause, string)>)
    ensures r.Some? ==> |r.value.1| < |d|
  {
    var k := DigitSpan(d);
    if 0 < k < |d| && d[k] == ')' then Some((AnyOf(col, Value(d[..k])), d[k + 1..])) else None
  }

  function ParseEquals(col: string, d: string): (r: Option<(Clause, string)>)
    ensures r.Some? ==> |r.value.1| < |d|
  {
    var k := DigitSpan(d);
    if 0 < k then Some((Equals(col, Value(d[..k])), d[k..])) else None
  }

  /** All clauses at the front of the text, and the rest. */
  function ParseAll(block: string, text: string): (seq<Clause>, string)
    decreases |text|
  {
    match ParseClause(block, text)
    case None => ([], text)
    case Some((c, rest)) => var (cs, end) := ParseAll(block, rest); ([c] + cs, end)
  }

  /** The position of the first dollar sign, or the length. */
  function DollarSpan(s: string): (k: nat)
    ensures k <= |s| && '$' !in s[..k] && (k < |s| ==> s[k] == '$')
  {
    if s == "" || s[0] == '$' then 0 else 1 + DollarSpan(s[1..])
  }

  function ParseEnding(text: string): Option<Ending> {
    if !(ORDER_BY <= text) then None
    else
      var t := text[|ORDER_BY|..];
      var k := DollarSpan(t);
      if k == |t| then Some(Ending(t, None, None))
      else if k < |LIMIT| || t[k - |LIMIT|..k] != LIMIT then None
      else ParseLimit(t[..k - |LIMIT|], t[k + 1..])
  }

  function ParseLimit(order: string, d: string): Option<Ending> {
    var k := DigitSpan(d);
    if k == 0 then None
    else if d[k..] == "" then Some(Ending(order, Some(Value(d)), None))
    else if OFFSET <= d[k..] then ParseOffset(order, Value(d[..k]), d[k..][|OFFSET|..])
    else None
  }

  function ParseOffset(order: string, limit: nat, d: string): Option<Ending> {
    if d != "" && DigitSpan(d) == |d| then Some(Ending(order, Some(limit), Some(Value(d)))) else None
  }

  /** A statement from its WHERE on. */
  function Read(block: string, text: string): Option<Statement> {
    if !(WHERE <= text) then None
    else
      var (cs, end) := ParseAll(block, AND + text[|WHERE|..]);
      if end == "" then Some(Statement(cs, None))
      else
        match ParseEnding(end)
        case None => None
        case e => Some(Statement(cs, e))
  }

  lemma WordSpanOf(word: string, rest: string)
    requires (forall i | 0 <= i < |word| :: IsWordChar(word[i])) && rest != "" && !IsWordChar(rest[0])
    ensures WordSpan(word + rest) == |word|
  {
    var s := word + rest;
    assert forall i | 0 <= i < |word| :: s[i] == word[i];
    assert s[|word|] == rest[0];
  }

  lemma Skip(p: string, s: string)
    ensures p <= p + s && (p + s)[|p|..] == s && (p + s)[..|p|] == p
  {
  }

  lemma Differs(p: string, s: string, i: nat)
    requires i < |p| && i < |s| && p[i] != s[i]
    ensures !(p <= s)
  {
  }

  lemma ParseAnyOf(col: string, n: nat, rest: string)
    ensures ParseAny(col, Dec(n) + (")" + rest)) == Some((AnyOf(col, n), rest))
  {
    var after := ")" + rest;
    DigitSpanOf(Dec(n), after);
    Skip(Dec(n), after);
    ValueOfDec(n);
    assert (Dec(n) + after)[|Dec(n)| + 1..] == rest;
  }

  lemma ParseEqualsOf(col: string, n: nat, rest: string)
    requires rest == "" || rest[0] == ' '
    ensures ParseEquals(col, Dec(n) + rest) == Some((Equals(col, n), rest))
  {
    DigitSpanOf(Dec(n), rest);
    Skip(Dec(n), rest);
    ValueOfDec(n);
  }

  lemma ParseTailOf(c: Clause, rest: string)
    requires !c.TextMatch?
    requires rest == "" || rest[0] == ' '
    ensures ParseTail(c.col, Tail(c) + rest) == Some((c, rest))
  {
    match c {
      case IsNull(col) => Skip(IS_NULL, rest);
      case AnyOf(col, n) =>
        var d := Dec(n) + (")" + rest);
        assert Tail(c) + rest == ANY + d;
        Differs(IS_NULL, ANY + d, 1);
        Skip(ANY, d);
        ParseAnyOf(col, n, rest);
      case Equals(col, n) =>
        var d := Dec(n) + rest;
        assert Tail(c) + rest == EQUALS + d;
        Differs(IS_NULL, EQUALS + d, 1);
        Differs(ANY, EQUALS + d, 3);
        Skip(EQUALS, d);
        ParseEqualsOf(col, n, rest);
    }
  }

  lemma ParseBodyOf(block: string, c: Clause, rest: string)
    requires IsBlock(block) && Readable(block, c) && (rest == "" || rest[0] == ' ')
    ensures ParseBody(block, Body(c) + rest) == Some((c, rest))
  {
    if c.TextMatch? {
      assert (block + rest)[0] == '(';
      Skip(block, rest);
    } else {
      var tail := Tail(c) + rest;
      assert Body(c) + rest == c.col + tail;
      assert tail[0] == ' ';
      WordSpanOf(c.col, tail);
      Skip(c.col, tail);
      ParseTailOf(c, rest);
    }
  }

  lemma ParseClauseOf(block: string, c: Clause, rest: string)
    requires IsBlock(block) && Readable(block, c) && (rest == "" || rest[0] == ' ')
    ensures ParseClause(block, Render(c) + rest) == Some((c, rest))
  {
    assert Render(c) + rest == AND + (Body(c) + rest);
    Skip(AND, Body(c) + rest);
    ParseBodyOf(block, c, rest);
  }

  predicate Ends(rest: string) { (rest == "" || rest[0] == ' ') && !(AND <= rest) }

  lemma ParseAllStep(block: string, text: string, c: Clause, rest: string)
    requires ParseClause(block, text) == Some((c, rest))
    ensures ParseAll(block, text) == ([c] + ParseAll(block, rest).0, ParseAll(block, rest).1)
  {
  }

  lemma MoreText(cs: seq<Clause>, rest: string)
    requires cs != [] && Ends(rest)
    ensures var more := RenderAll(cs[1..]) + rest;
            RenderAll(cs) + rest == Render(cs[0]) + more && (more == "" || more[0] == ' ')
  {
    RenderStart(cs[1..]);
  }

  lemma ParseFirst(block: string, cs: seq<Clause>, rest: string)
    requires IsBlock(block) && cs != [] && Readable(block, cs[0]) && Ends(rest)
    ensures var (found, end) := ParseAll(block, RenderAll(cs[1..]) + rest);
            ParseAll(block, RenderAll(cs) + rest) == ([cs[0]] + found, end)
  {
    var more := RenderAll(cs[1..]) + rest;
    MoreText(cs, rest);
    ParseClauseOf(block, cs[0], more);
    ParseAllStep(block, RenderAll(cs) + rest, cs[0], more);
  }

  /** Reading assembled clauses gives back exactly them, with their placeholder numbers, and what follows. */
  lemma {:induction false} ParseAllOf(block: string, cs: seq<Clause>, rest: string)
    requires IsBlock(block) && (forall c | c in cs :: Readable(block, c)) && Ends(rest)
    ensures ParseAll(block, RenderAll(cs) + rest) == (cs, rest)
  {
    if cs == [] {
      assert RenderAll(cs) + rest == rest;
    } else {
      ParseFirst(block, cs, rest);
      ParseAllOf(block, cs[1..], rest);
      assert cs == [cs[0]] + cs[1..];
    }
  }

  lemma RenderStart(cs: seq<Clause>)
    ensures RenderAll(cs) == "" || RenderAll(cs)[0] == ' '
  {
  }

  // ---------------------------------------------------------------------------
  // Statements
  // ---------------------------------------------------------------------------

  /** `WHERE` with the clauses. */
  function RenderWhere(cs: seq<Clause>): string
    requires cs != []
  {
    WHERE + (Body(cs[0]) + RenderAll(cs[1..]))
  }

  function NumberText(limit: nat, offset: Option<nat>): string {
    Dec(limit) + (if offset.None? then "" else OFFSET + Dec(offset.value))
  }

  function LimitText(limit: Option<nat>, offset: Option<nat>): string {
    if limit.None? then "" else LIMIT + ("$" + NumberText(limit.value, offset))
  }

  function RenderEnding(e: Ending): string { ORDER_BY + (e.order + LimitText(e.limit, e.offset)) }

  /** There is no offset without a limit, and the order has no placeholder. */
  predicate EndingOk(e: Ending) { '$' !in e.order && (e.offset.Some? ==> e.limit.Some?) }

  lemma DollarSpanOf(word: string, rest: string)
    requires '$' !in word
    ensures DollarSpan(word + ("$" + rest)) == |word| && DollarSpan(word) == |word|
  {
    var s := word + ("$" + rest);
    assert forall i | 0 <= i < |word| :: s[i] == word[i];
    assert s[|word|] == '$';
  }

  lemma ParseLimitOf(order: string, n: nat, offset: Option<nat>)
    ensures ParseLimit(order, NumberText(n, offset)) == Some(Ending(order, Some(n), offset))
  {
    var rest := if offset.None? then "" else OFFSET + Dec(offset.value);
    DigitSpanOf(Dec(n), rest);
    Skip(Dec(n), rest);
    ValueOfDec(n);
    if offset.None? {
      assert Dec(n) + rest == Dec(n);
    } else {
      var m := offset.value;
      Skip(OFFSET, Dec(m));
      DigitSpanOf(Dec(m), "");
      assert Dec(m) + "" == Dec(m);
      ValueOfDec(m);
    }
  }

  lemma SplitAtLimit(order: string, d: string)
    requires '$' !in order
    ensures var t := order + (LIMIT + ("$" + d)); var k := |order| + |LIMIT|;
            && DollarSpan(t) == k && k < |t| && t[k - |LIMIT|..k] == LIMIT
            && t[..k - |LIMIT|] == order && t[k + 1..] == d
  {
    var head := order + LIMIT;
    assert order + (LIMIT + ("$" + d)) == head + ("$" + d);
    DollarSpanOf(head, d);
  }

  lemma ParseEndingOf(e: Ending)
    requires EndingOk(e)
    ensures ParseEnding(RenderEnding(e)) == Some(e)
  {
    Skip(ORDER_BY, e.order + LimitText(e.limit, e.offset));
    if e.limit.None? {
      assert e.order + "" == e.order;
      DollarSpanOf(e.order, "");
    } else {
      SplitAtLimit(e.order, NumberText(e.limit.value, e.offset));
      ParseLimitOf(e.order, e.limit.value, e.offset);
    }
  }

  function EndText(end: Option<Ending>): string { if end.None? then "" else RenderEnding(end.value) }

  lemma EndTextEnds(end: Option<Ending>)
    ensures Ends(EndText(end)) && (end.Some? ==> EndText(end) != "")
  {
    if end.Some? { Differs(AND, EndText(end), 1); }
  }

  lemma WhereText(body: string, more: string, rest: string)
    ensures (WHERE + (body + more)) + rest == WHERE + (body + more + rest)
    ensures AND + (body + more + rest) == (AND + body) + more + rest
  {
  }

  /** Reading an assembled statement gives back exactly its clauses, its order and its placeholder numbers. */
  lemma ReadBack(block: string, cs: seq<Clause>, end: Option<Ending>)
    requires IsBlock(block) && cs != [] && forall c | c in cs :: Readable(block, c)
    requires end.Some? ==> EndingOk(end.value)
    ensures Read(block, RenderWhere(cs) + EndText(end)) == Some(Statement(cs, end))
  {
    var rest := EndText(end);
    var text := Body(cs[0]) + RenderAll(cs[1..]) + rest;
    WhereText(Body(cs[0]), RenderAll(cs[1..]), rest);
    Skip(WHERE, text);
    EndTextEnds(end);
    ParseAllOf(block, cs, rest);
    if end.Some? { ParseEndingOf(end.value); }
  }

  lemma {:induction false} RenderAllAppend(cs: seq<Clause>, c: Clause)
    ensures RenderAll(cs + [c]) == RenderAll(cs) + Render(c)
  {
    if cs == [] {
      assert ([] + [c])[1..] == [];
    } else {
      assert (cs + [c])[1..] == cs[1..] + [c];
      RenderAllAppend(cs[1..], c);
    }
  }

  // ---------------------------------------------------------------------------
  // Orders
  // ---------------------------------------------------------------------------

  /** One column to sort by. */
  datatype Term = Term(col: string, asc: bool)

  const ASC: string := " ASC"
  const DESC: string := " DESC"
  const COMMA: string := ", "

  function ReadOrder(text: string): Option<seq<Term>>
    decreases |text|, 1
  {
    var k := WordSpan(text);
    var rest := text[k..];
    if k == 0 then None
    else if ASC <= rest then ReadMore(Term(text[..k], true), rest[|ASC|..])
    else if DESC <= rest then ReadMore(Term(text[..k], false), rest[|DESC|..])
    else ReadMore(Term(text[..k], true), rest)
  }

  function ReadMore(first: Term, rest: string): Option<seq<Term>>
    decreases |rest|, 2
  {
    if rest == "" then Some([first])
    else if COMMA <= rest then
      match ReadOrder(rest[|COMMA|..])
      case None => None
      case Some(more) => Some([first] + more)
    else None
  }

  function RenderTerm(t: Term): string { t.col + (if t.asc then ASC else DESC) }

  function RenderOrder(ts: seq<Term>): string
    requires ts != []
  {
    if |ts| == 1 then RenderTerm(ts[0]) else RenderTerm(ts[0]) + (COMMA + RenderOrder(ts[1..]))
  }

  lemma ReadTermOf(t: Term, rest: string)
    requires IsColumn(t.col)
    ensures ReadOrder(RenderTerm(t) + rest) == ReadMore(t, rest)
  {
    var end := (if t.asc then ASC else DESC) + rest;
    assert RenderTerm(t) + rest == t.col + end;
    WordSpanOf(t.col, end);
    Skip(t.col, end);
    Skip(if t.asc then ASC else DESC, rest);
    if !t.asc { Differs(ASC, end, 1); }
  }

  /** Reading an order gives back its columns and directions. */
  lemma {:induction false} ReadOrderOf(ts: seq<Term>)
    requires ts != [] && forall t | t in ts :: IsColumn(t.col)
    ensures ReadOrder(RenderOrder(ts)) == Some(ts)
  {
    if |ts| == 1 {
      ReadTermOf(ts[0], "");
      assert RenderTerm(ts[0]) + "" == RenderTerm(ts[0]) && ts == [ts[0]];
    } else {
      ReadTermOf(ts[0], COMMA + RenderOrder(ts[1..]));
      Skip(COMMA, RenderOrder(ts[1..]));
      ReadOrderOf(ts[1..]);
      assert ts == [ts[0]] + ts[1..];
    }
  }

  /** A column alone sorts upwards. */
  lemma ReadColumnOf(col: string)
    requires IsColumn(col)
    ensures ReadOrder(col) == Some([Term(col, true)])
  {
    WordSpanAll(col);
    assert col[..|col|] == col && col[|col|..] == "";
    assert ReadMore(Term(col, true), "") == Some([Term(col, true)]);
  }

  lemma WordSpanAll(word: string)
    requires forall i | 0 <= i < |word| :: IsWordChar(word[i])
    ensures WordSpan(word) == |word|
  {
  }

  // ---------------------------------------------------------------------------
  // Meaning
  // ---------------------------------------------------------------------------

  function TextAt(params: seq<Param>, n: nat): Option<string> {
    if 1 <= n <= |params| && params[n - 1].Text? then Some(params[n - 1].text) else None
  }

  /** A clause is true of a row; NULL equals nothing, and a placeholder must be bound with the right type. */
  predicate Eval(c: Clause, params: seq<Param>, row: Row) {
    match c
    case IsNull(col) => row.cell(col).None?
    case Equals(col, n) => TextAt(params, n).Some? && row.cell(col) == TextAt(params, n)
    case AnyOf(col, n) =>
      1 <= n <= |params| && params[n - 1].Texts? && row.cell(col).Some? && row.cell(col).value in params[n - 1].texts
    case TextMatch(_) =>
      TextAt(params, 1).Some? && TextAt(params, 2).Some?
      && row.matches(TextAt(params, 1).value, TextAt(params, 2).value)
  }

  /** The rows asked for: in which order, at most how many, from where. */
  datatype Page = Page(order: seq<Term>, limit: Option<int>, offset: Option<int>)

  predicate Bound(n: Option<nat>, params: seq<Param>, v: Option<int>) {
    match (n, v)
    case (None, None) => true
    case (Some(k), Some(x)) => 1 <= k <= |params| && params[k - 1] == Number(x)
    case _ => false
  }

  predicate EndsAs(end: Option<Ending>, params: seq<Param>, page: Option<Page>) {
    match (end, page)
    case (None, None) => true
    case (Some(e), Some(p)) =>
      ReadOrder(e.order) == Some(p.order) && Bound(e.limit, params, p.limit) && Bound(e.offset, params, p.offset)
    case _ => false
  }

  /** The statement, with its parameters bound, asks for exactly the rows that pass the filter, as the page says. */
  ghost predicate Selects(
    block: string, text: string, params: seq<Param>, filter: Row -> bool, page: Option<Page>)
  {
    match Read(block, text)
    case None => false
    case Some(s) =>
      && (forall row: Row :: filter(row) <==> forall c | c in s.clauses :: Eval(c, params, row))
      && EndsAs(s.ending, params, page)
  }
}
