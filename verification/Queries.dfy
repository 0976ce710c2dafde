/** The export query and its filters (src/export/queries.rs). */
module Queries {
  import opened Text
  import opened Wrappers

  // ---------- SQL text, one token for each keyword, column, operator or placeholder ----------

  datatype Column = RunId | InitialDomain | FinalDomain | HttpStatus | ObservedAt

  datatype Operator = Equals | AtLeast

  datatype Token =
    | SelectFromUrlStatus
    | Where
    | And
    | Or
    | Open
    | Close
    | Col(column: Column)
    | Op(operator: Operator)
    | Placeholder
    | Order
    | By
    | Descending

  datatype Value = Null | Str(text: string) | Integer(number: int)

  /** The columns of `url_status` that a filter can look at; only the run id can be null. */
  datatype Row = Row(runId: Option<string>, initialDomain: string, finalDomain: string, status: int, observedAt: int)

  datatype Filters = Filters(
    runId: Option<string>,
    domain: Option<string>,
    status: Option<nat>,
    since: Option<int>)

  // ---------- The clauses ----------

  /** One condition of the conjunction: a comparison, or either of two columns equal to a value. */
  datatype Clause =
    | Compare(column: Column, operator: Operator, value: Value)
    | Either(first: Column, second: Column, value: Value)

  function ClauseText(c: Clause): seq<Token> {
    match c
    case Compare(column, operator, _) => [Col(column), Op(operator), Placeholder]
    case Either(first, second, _) =>
      [Open, Col(first), Op(Equals), Placeholder, Or, Col(second), Op(Equals), Placeholder, Close]
  }

  function ClauseBinds(c: Clause): seq<Value> {
    match c
    case Compare(_, _, value) => [value]
    case Either(_, _, value) => [value, value]
  }

  function RunIdClause(f: Filters): seq<Clause> {
    if f.runId.Some? then [Compare(RunId, Equals, Str(f.runId.value))] else []
  }

  function DomainClause(f: Filters): seq<Clause> {
    if f.domain.Some? then [Either(InitialDomain, FinalDomain, Str(f.domain.value))] else []
  }

  function StatusClause(f: Filters): seq<Clause> {
    if f.status.Some? then [Compare(HttpStatus, Equals, Integer(f.status.value))] else []
  }

  function SinceClause(f: Filters): seq<Clause> {
    if f.since.Some? then [Compare(ObservedAt, AtLeast, Integer(f.since.value))] else []
  }

  /** The conditions that the present filters ask for. */
  function Clauses(f: Filters): seq<Clause> {
    RunIdClause(f) + DomainClause(f) + StatusClause(f) + SinceClause(f)
  }

  /** Each clause behind the keyword that joins it to what is there already. */
  function WhereText(clauses: seq<Clause>): seq<Token> {
    if clauses == [] then []
    else
      var last := |clauses| - 1;
      WhereText(clauses[..last]) + [if last == 0 then Where else And] + ClauseText(clauses[last])
  }

  function WhereBinds(clauses: seq<Clause>): seq<Value> {
    if clauses == [] then []
    else WhereBinds(clauses[..|clauses| - 1]) + ClauseBinds(clauses[|clauses| - 1])
  }

  function OrderText(): seq<Token> {
    [Order, By, Col(ObservedAt), Descending]
  }

  function ExportText(f: Filters): seq<Token> {
    [SelectFromUrlStatus] + WhereText(Clauses(f)) + OrderText()
  }

  // ---------- The text that is built ----------

  const ORDER := " ORDER BY us.observed_at_ms DESC"

  function ColumnText(column: Column): string {
    match column
    case RunId => "us.run_id"
    case InitialDomain => "us.initial_domain"
    case FinalDomain => "us.final_domain"
    case HttpStatus => "us.http_status"
    case ObservedAt => "us.observed_at_ms"
  }

  function OperatorText(operator: Operator): string {
    match operator
    case Equals => "="
    case AtLeast => ">="
  }

  /** Column and operator, as they are pushed in front of a bound value. */
  function Left(column: Column, operator: Operator): string {
    ColumnText(column) + " " + OperatorText(operator) + " "
  }

  function ClauseString(c: Clause): string {
    match c
    case Compare(column, operator, _) => Left(column, operator) + "?"
    case Either(first, second, _) =>
      "(" + Left(first, Equals) + "?" + " OR " + Left(second, Equals) + "?" + ")"
  }

  function Keyword(hasWhere: bool): string {
    if hasWhere then " AND " else " WHERE "
  }

  function WhereString(clauses: seq<Clause>): string {
    if clauses == [] then ""
    else
      var last := |clauses| - 1;
      WhereString(clauses[..last]) + Keyword(last > 0) + ClauseString(clauses[last])
  }

  /** The whole text behind any column list and table. */
  function ExportString(select: string, f: Filters): string {
    select + WhereString(Clauses(f)) + ORDER
  }

  class QueryBuilder {
    var text: string
    var binds: seq<Value>

    constructor (text: string)
      ensures this.text == text && binds == []
    {
      this.text := text;
      binds := [];
    }

    method Push(sql: string)
      modifies this
      ensures text == old(text) + sql && binds == old(binds)
    {
      text := text + sql;
    }

    method PushBind(value: Value)
      modifies this
      ensures text == old(text) + "?" && binds == old(binds) + [value]
    {
      text := text + "?";
      binds := binds + [value];
    }
  }

  lemma {:induction false} WherePush(clauses: seq<Clause>, c: Clause)
    ensures WhereString(clauses + [c]) == WhereString(clauses) + Keyword(clauses != []) + ClauseString(c)
    ensures WhereBinds(clauses + [c]) == WhereBinds(clauses) + ClauseBinds(c)
  {
    assert (clauses + [c])[..|clauses|] == clauses;
  }

  /** The builder holds the clauses `done` behind what it held before. */
  ghost predicate HoldsClauses(qb: QueryBuilder, text: string, binds: seq<Value>, done: seq<Clause>)
    reads qb
  {
    qb.text == text + WhereString(done) && qb.binds == binds + WhereBinds(done)
  }

  method PushComparison(qb: QueryBuilder, hasWhere: bool, column: Column, operator: Operator, value: Value,
                        ghost text: string, ghost binds: seq<Value>, ghost done: seq<Clause>)
    requires HoldsClauses(qb, text, binds, done) && hasWhere == (done != [])
    modifies qb
    ensures HoldsClauses(qb, text, binds, done + [Compare(column, operator, value)])
  {
    qb.Push(Keyword(hasWhere));
    qb.Push(Left(column, operator));
    qb.PushBind(value);
    var c := Compare(column, operator, value);
    PushesAddTwo(text, WhereString(done), Keyword(hasWhere), Left(column, operator), "?");
    Regroup(binds, WhereBinds(done), [value]);
    WherePush(done, c);
  }

  lemma {:induction false} Regroup<T>(a: seq<T>, b: seq<T>, c: seq<T>)
    ensures a + b + c == a + (b + c)
  {
  }

  lemma {:induction false} PushesAddTwo<T>(a: seq<T>, b: seq<T>, key: seq<T>, left: seq<T>, p: seq<T>)
    ensures a + b + key + left + p == a + (b + key + (left + p))
  {
  }

  method PushEither(qb: QueryBuilder, hasWhere: bool, first: Column, second: Column, value: Value,
                    ghost text: string, ghost binds: seq<Value>, ghost done: seq<Clause>)
    requires HoldsClauses(qb, text, binds, done) && hasWhere == (done != [])
    modifies qb
    ensures HoldsClauses(qb, text, binds, done + [Either(first, second, value)])
  {
    qb.Push(Keyword(hasWhere));
    qb.Push("(" + Left(first, Equals));
    qb.PushBind(value);
    qb.Push(" OR " + Left(second, Equals));
    qb.PushBind(value);
    qb.Push(")");
    var c := Either(first, second, value);
    assert ClauseBinds(c) == [value] + [value];
    PushesAdd(text, WhereString(done), Keyword(hasWhere), "(" + Left(first, Equals), "?",
              " OR " + Left(second, Equals), ")");
    EitherString(first, second, value);
    BindsAdd(binds, WhereBinds(done), [value]);
    WherePush(done, c);
  }

  lemma {:induction false} EitherString(first: Column, second: Column, value: Value)
    ensures ClauseString(Either(first, second, value))
            == "(" + Left(first, Equals) + "?" + (" OR " + Left(second, Equals)) + "?" + ")"
  {
    Regroup("(" + Left(first, Equals) + "?", " OR ", Left(second, Equals));
  }

  lemma {:induction false} PushesAdd<T>(a: seq<T>, b: seq<T>, key: seq<T>, left: seq<T>, p: seq<T>, right: seq<T>,
                                        end: seq<T>)
    ensures a + b + key + left + p + right + p + end == a + (b + key + (left + p + right + p + end))
  {
  }

  lemma {:induction false} BindsAdd<T>(a: seq<T>, b: seq<T>, v: seq<T>)
    ensures a + b + v + v == a + (b + (v + v))
  {
  }

  method PushRunId(qb: QueryBuilder, f: Filters, hasWhere: bool,
                 ghost text: string, ghost binds: seq<Value>, ghost done: seq<Clause>)
    returns (now: bool)
    requires HoldsClauses(qb, text, binds, done) && hasWhere == (done != [])
    modifies qb
    ensures HoldsClauses(qb, text, binds, done + RunIdClause(f)) && now == (done + RunIdClause(f) != [])
  {
    now := hasWhere;
    if f.runId.Some? {
      PushComparison(qb, hasWhere, RunId, Equals, Str(f.runId.value), text, binds, done);
      now := true;
    } else {
      assert done + [] == done;
    }
  }

  method PushDomain(qb: QueryBuilder, f: Filters, hasWhere: bool,
                 ghost text: string, ghost binds: seq<Value>, ghost done: seq<Clause>)
    returns (now: bool)
    requires HoldsClauses(qb, text, binds, done) && hasWhere == (done != [])
    modifies qb
    ensures HoldsClauses(qb, text, binds, done + DomainClause(f)) && now == (done + DomainClause(f) != [])
  {
    now := hasWhere;
    if f.domain.Some? {
      PushEither(qb, hasWhere, InitialDomain, FinalDomain, Str(f.domain.value), text, binds, done);
      now := true;
    } else {
      assert done + [] == done;
    }
  }

  method PushStatus(qb: QueryBuilder, f: Filters, hasWhere: bool,
                 ghost text: string, ghost binds: seq<Value>, ghost done: seq<Clause>)
    returns (now: bool)
    requires HoldsClauses(qb, text, binds, done) && hasWhere == (done != [])
    modifies qb
    ensures HoldsClauses(qb, text, binds, done + StatusClause(f)) && now == (done + StatusClause(f) != [])
  {
    now := hasWhere;
    if f.status.Some? {
      PushComparison(qb, hasWhere, HttpStatus, Equals, Integer(f.status.value), text, binds, done);
      now := true;
    } else {
      assert done + [] == done;
    }
  }

  method PushSince(qb: QueryBuilder, f: Filters, hasWhere: bool,
                 ghost text: string, ghost binds: seq<Value>, ghost done: seq<Clause>)
    returns (now: bool)
    requires HoldsClauses(qb, text, binds, done) && hasWhere == (done != [])
    modifies qb
    ensures HoldsClauses(qb, text, binds, done + SinceClause(f)) && now == (done + SinceClause(f) != [])
  {
    now := hasWhere;
    if f.since.Some? {
      PushComparison(qb, hasWhere, ObservedAt, AtLeast, Integer(f.since.value), text, binds, done);
      now := true;
    } else {
      assert done + [] == done;
    }
  }

  method BuildWhereClause(qb: QueryBuilder, f: Filters)
    modifies qb
    ensures qb.text == old(qb.text) + WhereString(Clauses(f))
    ensures qb.binds == old(qb.binds) + WhereBinds(Clauses(f))
  {
    ghost var text, binds := qb.text, qb.binds;
    assert text + [] == text && binds + [] == binds;
    var hasWhere := PushRunId(qb, f, false, text, binds, []);
    assert [] + RunIdClause(f) == RunIdClause(f);
    hasWhere := PushDomain(qb, f, hasWhere, text, binds, RunIdClause(f));
    hasWhere := PushStatus(qb, f, hasWhere, text, binds, RunIdClause(f) + DomainClause(f));
    hasWhere := PushSince(qb, f, hasWhere, text, binds, RunIdClause(f) + DomainClause(f) + StatusClause(f));
  }

  method BuildExportQuery(select: string, f: Filters) returns (qb: QueryBuilder)
    ensures fresh(qb)
    ensures qb.text == ExportString(select, f) && qb.binds == WhereBinds(Clauses(f))
  {
    qb := new QueryBuilder(select);
    BuildWhereClause(qb, f);
    qb.Push(ORDER);
  }

  // ---------- Reading the text as tokens ----------

  /** The token that a word without parentheses stands for. */
  function WordToken(w: string): Option<Token> {
    if w == "?" then Some(Placeholder)
    else if w == "=" then Some(Op(Equals))
    else if w == ">=" then Some(Op(AtLeast))
    else if w == "OR" then Some(Or)
    else if w == "BY" then Some(By)
    else if w == "AND" then Some(And)
    else if w == "DESC" then Some(Descending)
    else if w == "WHERE" then Some(Where)
    else if w == "ORDER" then Some(Order)
    else if w == "us.run_id" then Some(Col(RunId))
    else if w == "us.initial_domain" then Some(Col(InitialDomain))
    else if w == "us.final_domain" then Some(Col(FinalDomain))
    else if w == "us.http_status" then Some(Col(HttpStatus))
    else if w == "us.observed_at_ms" then Some(Col(ObservedAt))
    else None
  }

  /** The tokens of a word, which may have a parenthesis at either end. */
  function WordTokens(w: string): Option<seq<Token>> {
    if w != "" && w[0] == '(' then
      match WordToken(w[1..])
      case Some(t) => Some([Open, t])
      case None => None
    else if w != "" && w[|w| - 1] == ')' then
      match WordToken(w[..|w| - 1])
      case Some(t) => Some([t, Close])
      case None => None
    else
      match WordToken(w)
      case Some(t) => Some([t])
      case None => None
  }

  function Tokens(words: seq<string>): Option<seq<Token>> {
    if words == [] then Some([])
    else
      match (WordTokens(words[0]), Tokens(words[1..]))
      case (Some(first), Some(rest)) => Some(first + rest)
      case _ => None
  }

  /** The tokens of a query that starts with a given column list and table, words being set off by single spaces. */
  function Lex(select: string, text: string): Option<seq<Token>> {
    if !(select <= text) then None
    else
      var words := Split(text[|select|..], ' ');
      if words[0] != "" then None
      else
        match Tokens(words[1..])
        case Some(tokens) => Some([SelectFromUrlStatus] + tokens)
        case None => None
  }

  /** The text of some words, each behind a space. */
  function Spaced(words: seq<string>): string {
    if words == [] then "" else " " + words[0] + Spaced(words[1..])
  }

  lemma {:induction false} SpacedConcat(a: seq<string>, b: seq<string>)
    ensures Spaced(a + b) == Spaced(a) + Spaced(b)
  {
    if a == [] {
      assert a + b == b;
    } else {
      SpacedConcat(a[1..], b);
      assert (a + b)[1..] == a[1..] + b;
      Regroup(" " + a[0], Spaced(a[1..]), Spaced(b));
    }
  }

  lemma {:induction false} SplitOfWords(first: string, rest: seq<string>)
    requires ' ' !in first && forall w :: w in rest ==> ' ' !in w
    ensures Split(first + Spaced(rest), ' ') == [first] + rest
    decreases |rest|
  {
    if rest == [] {
      assert first + Spaced(rest) == first && [first] + rest == [first];
      assert Split(first, ' ') == [first];
    } else {
      SplitOfWords(rest[0], rest[1..]);
      SplitCons(first, ' ', rest[0] + Spaced(rest[1..]));
      SpaceBetween(first, rest[0], Spaced(rest[1..]));
      assert rest == [rest[0]] + rest[1..];
    }
  }

  lemma {:induction false} SpaceBetween(first: string, second: string, tail: string)
    ensures first + (" " + second + tail) == first + [' '] + (second + tail)
  {
  }

  lemma {:induction false} FirstOfConcat<T>(a: seq<T>, b: seq<T>)
    requires a != []
    ensures a + b == [a[0]] + (a[1..] + b)
  {
  }

  lemma {:induction false} TokensConcat(a: seq<string>, b: seq<string>, x: seq<Token>, y: seq<Token>)
    requires Tokens(a) == Some(x) && Tokens(b) == Some(y)
    ensures Tokens(a + b) == Some(x + y)
  {
    if a == [] {
      assert a + b == b && x + y == y;
    } else {
      var first, rest := WordTokens(a[0]).value, Tokens(a[1..]).value;
      TokensConcat(a[1..], b, rest, y);
      FirstOfConcat(a, b);
      FirstToken(a[0], a[1..] + b, first, rest + y);
      Regroup(first, rest, y);
    }
  }

  function KeywordToken(hasWhere: bool): Token {
    if hasWhere then And else Where
  }

  function KeywordWord(hasWhere: bool): string {
    if hasWhere then "AND" else "WHERE"
  }

  /** A comparison with a bound value; `mark` is its placeholder, which a parenthesis may follow. */
  function ComparisonWords(left: string, operator: Operator, mark: string): seq<string> {
    [left] + ([OperatorText(operator)] + [mark])
  }

  function ClauseWords(c: Clause): seq<string> {
    match c
    case Compare(column, operator, _) => ComparisonWords(ColumnText(column), operator, "?")
    case Either(first, second, _) =>
      ComparisonWords("(" + ColumnText(first), Equals, "?")
      + (["OR"] + ComparisonWords(ColumnText(second), Equals, "?)"))
  }

  function WhereWords(clauses: seq<Clause>): seq<string> {
    if clauses == [] then []
    else
      var last := |clauses| - 1;
      WhereWords(clauses[..last]) + ([KeywordWord(last > 0)] + ClauseWords(clauses[last]))
  }

  function OrderWords(): seq<string> {
    ["ORDER"] + (["BY"] + ([ColumnText(ObservedAt)] + ["DESC"]))
  }

  predicate IsWord(w: string) {
    ' ' !in w
  }

  predicate AreWords(words: seq<string>) {
    forall w :: w in words ==> IsWord(w)
  }

  lemma {:induction false} ColumnWord(column: Column)
    ensures var w := ColumnText(column);
            && w != "" && w[0] == 'u' && w[|w| - 1] != ')' && IsWord(w)
            && WordToken(w) == Some(Col(column))
  {
    match column
    case RunId => case InitialDomain => case FinalDomain => case HttpStatus => case ObservedAt =>
  }

  lemma {:induction false} OperatorWord(operator: Operator)
    ensures WordTokens(OperatorText(operator)) == Some([Op(operator)]) && IsWord(OperatorText(operator))
  {
  }

  lemma {:induction false} KeywordIsWord(hasWhere: bool)
    ensures WordTokens(KeywordWord(hasWhere)) == Some([KeywordToken(hasWhere)]) && IsWord(KeywordWord(hasWhere))
    ensures Keyword(hasWhere) == " " + KeywordWord(hasWhere) + " "
  {
  }

  lemma {:induction false} MarkWords()
    ensures WordTokens("?") == Some([Placeholder]) && IsWord("?")
    ensures WordTokens("?)") == Some([Placeholder, Close]) && IsWord("?)")
    ensures WordTokens("=") == Some([Op(Equals)]) && IsWord("=")
    ensures WordTokens("OR") == Some([Or]) && IsWord("OR")
  {
    assert "?)"[..1] == "?";
  }

  lemma {:induction false} OpenColumnWord(column: Column)
    ensures WordTokens("(" + ColumnText(column)) == Some([Open, Col(column)]) && IsWord("(" + ColumnText(column))
    ensures WordTokens(ColumnText(column)) == Some([Col(column)])
  {
    ColumnWord(column);
    assert ("(" + ColumnText(column))[1..] == ColumnText(column);
  }

  lemma {:induction false} FirstToken(w: string, words: seq<string>, x: seq<Token>, y: seq<Token>)
    requires WordTokens(w) == Some(x) && Tokens(words) == Some(y)
    ensures Tokens([w] + words) == Some(x + y)
  {
    assert ([w] + words)[1..] == words;
  }

  lemma {:induction false} OneToken(w: string, x: seq<Token>)
    requires WordTokens(w) == Some(x)
    ensures Tokens([w]) == Some(x)
  {
    FirstToken(w, [], x, []);
    assert [w] + [] == [w] && x + [] == x;
  }

  lemma {:induction false} ComparisonLexes(left: string, operator: Operator, mark: string, x: seq<Token>,
                                           m: seq<Token>)
    requires WordTokens(left) == Some(x) && WordTokens(mark) == Some(m)
    ensures Tokens(ComparisonWords(left, operator, mark)) == Some(x + ([Op(operator)] + m))
  {
    OperatorWord(operator);
    OneToken(mark, m);
    FirstToken(OperatorText(operator), [mark], [Op(operator)], m);
    FirstToken(left, [OperatorText(operator)] + [mark], x, [Op(operator)] + m);
  }

  lemma {:induction false} EitherLexes(first: Column, second: Column)
    ensures Tokens(ComparisonWords("(" + ColumnText(first), Equals, "?")
                   + (["OR"] + ComparisonWords(ColumnText(second), Equals, "?)")))
            == Some([Open, Col(first)] + ([Op(Equals)] + [Placeholder])
                    + ([Or] + ([Col(second)] + ([Op(Equals)] + [Placeholder, Close]))))
  {
    MarkWords();
    OpenColumnWord(first);
    OpenColumnWord(second);
    var left := ComparisonWords("(" + ColumnText(first), Equals, "?");
    var right := ComparisonWords(ColumnText(second), Equals, "?)");
    var x, y := [Open, Col(first)] + ([Op(Equals)] + [Placeholder]),
                [Col(second)] + ([Op(Equals)] + [Placeholder, Close]);
    ComparisonLexes("(" + ColumnText(first), Equals, "?", [Open, Col(first)], [Placeholder]);
    ComparisonLexes(ColumnText(second), Equals, "?)", [Col(second)], [Placeholder, Close]);
    FirstToken("OR", right, [Or], y);
    TokensConcat(left, ["OR"] + right, x, [Or] + y);
  }

  lemma {:induction false} ClauseLexes(c: Clause)
    ensures Tokens(ClauseWords(c)) == Some(ClauseText(c))
  {
    match c
    case Compare(column, operator, _) =>
      MarkWords();
      OpenColumnWord(column);
      ComparisonLexes(ColumnText(column), operator, "?", [Col(column)], [Placeholder]);
      assert ClauseText(c) == [Col(column)] + ([Op(operator)] + [Placeholder]);
    case Either(first, second, _) =>
      EitherLexes(first, second);
      assert ClauseText(c) == [Open, Col(first)] + ([Op(Equals)] + [Placeholder])
                              + ([Or] + ([Col(second)] + ([Op(Equals)] + [Placeholder, Close])));
  }

  lemma {:induction false} ComparisonIsWords(left: string, operator: Operator, mark: string)
    requires IsWord(left) && IsWord(mark)
    ensures AreWords(ComparisonWords(left, operator, mark))
  {
    OperatorWord(operator);
    forall w | w in ComparisonWords(left, operator, mark)
      ensures IsWord(w)
    {
      assert w == left || w == OperatorText(operator) || w == mark;
    }
  }

  lemma {:induction false} ClauseIsWords(c: Clause)
    ensures AreWords(ClauseWords(c))
  {
    MarkWords();
    match c
    case Compare(column, operator, _) =>
      ColumnWord(column);
      ComparisonIsWords(ColumnText(column), operator, "?");
    case Either(first, second, _) =>
      OpenColumnWord(first);
      ColumnWord(second);
      ComparisonIsWords("(" + ColumnText(first), Equals, "?");
      ComparisonIsWords(ColumnText(second), Equals, "?)");
  }

  lemma {:induction false} WhereLexes(clauses: seq<Clause>)
    ensures Tokens(WhereWords(clauses)) == Some(WhereText(clauses)) && AreWords(WhereWords(clauses))
  {
    if clauses != [] {
      var last := |clauses| - 1;
      var word, words := KeywordWord(last > 0), ClauseWords(clauses[last]);
      WhereLexes(clauses[..last]);
      KeywordIsWord(last > 0);
      ClauseLexes(clauses[last]);
      ClauseIsWords(clauses[last]);
      FirstToken(word, words, [KeywordToken(last > 0)], ClauseText(clauses[last]));
      TokensConcat(WhereWords(clauses[..last]), [word] + words, WhereText(clauses[..last]),
                   [KeywordToken(last > 0)] + ClauseText(clauses[last]));
      Regroup(WhereText(clauses[..last]), [KeywordToken(last > 0)], ClauseText(clauses[last]));
    }
  }

  lemma {:induction false} SpacedCons(w: string, words: seq<string>)
    ensures Spaced([w] + words) == " " + w + Spaced(words)
  {
    assert ([w] + words)[1..] == words;
  }

  lemma {:induction false} SpacedOne(w: string)
    ensures Spaced([w]) == " " + w
  {
    assert Spaced([w]) == " " + w + Spaced([]);
  }

  lemma {:induction false} ComparisonIsSpaced(left: string, operator: Operator, mark: string)
    ensures Spaced(ComparisonWords(left, operator, mark)) == " " + (left + " " + OperatorText(operator) + " " + mark)
  {
    var o := OperatorText(operator);
    SpacedOne(mark);
    SpacedCons(o, [mark]);
    SpacedCons(left, [o] + [mark]);
    Flatten(" ", left, o, mark);
  }

  lemma {:induction false} Flatten(s: string, left: string, o: string, mark: string)
    ensures s + left + (s + o + (s + mark)) == s + (left + s + o + s + mark)
  {
  }

  lemma {:induction false} FlattenEither(open: string, f: string, s: string, e: string, m: string, or: string,
                                         g: string, close: string)
    ensures open + (f + s + e + s) + m + or + (g + s + e + s) + m + close
            == open + f + s + e + s + m + or + (g + s + e + s + (m + close))
  {
  }

  lemma {:induction false} FlattenKey(s: string, key: string, a: string, or: string, b: string)
    ensures s + key + (s + a + (s + or + (s + b))) == s + key + s + (a + (s + or + s) + b)
  {
  }

  /** Each clause is its words behind spaces. */
  lemma {:induction false} ClauseIsSpaced(c: Clause, hasWhere: bool)
    ensures Keyword(hasWhere) + ClauseString(c) == Spaced([KeywordWord(hasWhere)] + ClauseWords(c))
  {
    var key := KeywordWord(hasWhere);
    KeywordIsWord(hasWhere);
    SpacedCons(key, ClauseWords(c));
    match c
    case Compare(column, operator, _) =>
      ComparisonIsSpaced(ColumnText(column), operator, "?");
      Regroup(" " + key, " ", ClauseString(c));
    case Either(first, second, value) =>
      EitherIsSpaced(ColumnText(first), ColumnText(second));
      var a := "(" + ColumnText(first) + " " + "=" + " " + "?";
      var b := ColumnText(second) + " " + "=" + " " + "?)";
      FlattenEither("(", ColumnText(first), " ", "=", "?", " OR ", ColumnText(second), ")");
      FlattenKey(" ", key, a, "OR", b);
      assert " " + "OR" + " " == " OR " && "?" + ")" == "?)";
  }

  lemma {:induction false} EitherIsSpaced(first: string, second: string)
    ensures Spaced(ComparisonWords("(" + first, Equals, "?") + (["OR"] + ComparisonWords(second, Equals, "?)")))
            == " " + ("(" + first + " " + "=" + " " + "?")
               + (" " + "OR" + (" " + (second + " " + "=" + " " + "?)")))
  {
    var left, right := ComparisonWords("(" + first, Equals, "?"), ComparisonWords(second, Equals, "?)");
    SpacedConcat(left, ["OR"] + right);
    SpacedCons("OR", right);
    ComparisonIsSpaced("(" + first, Equals, "?");
    ComparisonIsSpaced(second, Equals, "?)");
  }

  lemma {:induction false} WhereIsSpaced(clauses: seq<Clause>)
    ensures WhereString(clauses) == Spaced(WhereWords(clauses))
  {
    if clauses != [] {
      var last := |clauses| - 1;
      WhereIsSpaced(clauses[..last]);
      ClauseIsSpaced(clauses[last], last > 0);
      SpacedConcat(WhereWords(clauses[..last]), [KeywordWord(last > 0)] + ClauseWords(clauses[last]));
      Regroup(WhereString(clauses[..last]), Keyword(last > 0), ClauseString(clauses[last]));
    }
  }

  lemma {:induction false} OrderWordTokens()
    ensures WordTokens("ORDER") == Some([Order]) && WordTokens("BY") == Some([By])
    ensures WordTokens("DESC") == Some([Descending])
    ensures IsWord("ORDER") && IsWord("BY") && IsWord("DESC")
  {
  }

  lemma {:induction false} OrderLexes()
    ensures Tokens(OrderWords()) == Some(OrderText()) && AreWords(OrderWords())
  {
    OrderWordTokens();
    ColumnWord(ObservedAt);
    OpenColumnWord(ObservedAt);
    var column := ColumnText(ObservedAt);
    OneToken("DESC", [Descending]);
    FirstToken(column, ["DESC"], [Col(ObservedAt)], [Descending]);
    FirstToken("BY", [column] + ["DESC"], [By], [Col(ObservedAt)] + [Descending]);
    FirstToken("ORDER", ["BY"] + ([column] + ["DESC"]), [Order], [By] + ([Col(ObservedAt)] + [Descending]));
    assert OrderText() == [Order] + ([By] + ([Col(ObservedAt)] + [Descending]));
  }

  lemma {:induction false} OrderIsSpaced()
    ensures Spaced(OrderWords()) == ORDER
  {
    var column := ColumnText(ObservedAt);
    SpacedOne("DESC");
    SpacedCons(column, ["DESC"]);
    SpacedCons("BY", [column] + ["DESC"]);
    SpacedCons("ORDER", ["BY"] + ([column] + ["DESC"]));
    OrderInParts();
  }

  lemma {:induction false} OrderInParts()
    ensures ORDER == " " + "ORDER" + (" " + "BY" + (" " + ColumnText(ObservedAt) + (" " + "DESC")))
  {
  }

  lemma {:induction false} LexOfSpaced(select: string, words: seq<string>, tokens: seq<Token>)
    requires Tokens(words) == Some(tokens) && AreWords(words)
    ensures Lex(select, select + Spaced(words)) == Some([SelectFromUrlStatus] + tokens)
  {
    var text := select + Spaced(words);
    assert text[|select|..] == "" + Spaced(words);
    SplitOfWords("", words);
    assert ([""] + words)[1..] == words;
  }

  /** The text that is built reads as the tokens of the clauses, whatever the column list. */
  lemma {:induction false} ExportStringLexes(select: string, f: Filters)
    ensures Lex(select, ExportString(select, f)) == Some(ExportText(f))
  {
    var clauses := Clauses(f);
    WhereLexes(clauses);
    WhereIsSpaced(clauses);
    OrderLexes();
    OrderIsSpaced();
    SpacedConcat(WhereWords(clauses), OrderWords());
    TokensConcat(WhereWords(clauses), OrderWords(), WhereText(clauses), OrderText());
    Regroup(select, WhereString(clauses), ORDER);
    LexOfSpaced(select, WhereWords(clauses) + OrderWords(), WhereText(clauses) + OrderText());
    Regroup([SelectFromUrlStatus], WhereText(clauses), OrderText());
  }

  // ---------- What SQL text means: a parser and evaluator ----------

  /** SQL's three truth values. */
  datatype Truth = True | False | Unknown

  function Conj(a: Truth, b: Truth): Truth {
    if a == False || b == False then False else if a == True && b == True then True else Unknown
  }

  function Disj(a: Truth, b: Truth): Truth {
    if a == True || b == True then True else if a == False && b == False then False else Unknown
  }

  function Lookup(row: Row, column: Column): Value {
    match column
    case RunId => if row.runId.Some? then Str(row.runId.value) else Null
    case InitialDomain => Str(row.initialDomain)
    case FinalDomain => Str(row.finalDomain)
    case HttpStatus => Integer(row.status)
    case ObservedAt => Integer(row.observedAt)
  }

  /** A comparison with null is unknown; only integers are ordered here. */
  function Test(left: Value, operator: Operator, right: Value): Truth {
    if left.Null? || right.Null? then Unknown
    else
      match operator
      case Equals => if left == right then True else False
      case AtLeast =>
        if left.Str? || right.Str? then Unknown
        else if left.number >= right.number then True else False
  }

  /** A truth value with the tokens and bound values that are left over. */
  datatype Parsed = Parsed(truth: Truth, tokens: seq<Token>, binds: seq<Value>)

  /** primary ::= column operator placeholder | ( disjunction ); each placeholder takes the next bound value. */
  function Primary(tokens: seq<Token>, binds: seq<Value>, row: Row): (p: Option<Parsed>)
    ensures p.Some? ==> |p.value.tokens| < |tokens|
    decreases |tokens|, 0
  {
    if tokens != [] && tokens[0] == Open then
      match Disjunction(tokens[1..], binds, row)
      case None => None
      case Some(p) =>
        if p.tokens != [] && p.tokens[0] == Close then Some(Parsed(p.truth, p.tokens[1..], p.binds)) else None
    else if |tokens| >= 3 && tokens[0].Col? && tokens[1].Op? && tokens[2] == Placeholder && binds != [] then
      Some(Parsed(Test(Lookup(row, tokens[0].column), tokens[1].operator, binds[0]), tokens[3..], binds[1..]))
    else None
  }

  /** conjunction ::= primary { AND primary } */
  function Conjunction(tokens: seq<Token>, binds: seq<Value>, row: Row): (p: Option<Parsed>)
    ensures p.Some? ==> |p.value.tokens| < |tokens|
    decreases |tokens|, 1
  {
    match Primary(tokens, binds, row)
    case None => None
    case Some(p) => MoreAnds(p, row)
  }

  function MoreAnds(p: Parsed, row: Row): (r: Option<Parsed>)
    ensures r.Some? ==> |r.value.tokens| <= |p.tokens|
    decreases |p.tokens|, 0
  {
    if p.tokens == [] || p.tokens[0] != And then Some(p)
    else
      match Primary(p.tokens[1..], p.binds, row)
      case None => None
      case Some(q) => MoreAnds(q.(truth := Conj(p.truth, q.truth)), row)
  }

  /** disjunction ::= conjunction { OR conjunction } */
  function Disjunction(tokens: seq<Token>, binds: seq<Value>, row: Row): (p: Option<Parsed>)
    ensures p.Some? ==> |p.value.tokens| < |tokens|
    decreases |tokens|, 2
  {
    match Conjunction(tokens, binds, row)
    case None => None
    case Some(p) => MoreOrs(p, row)
  }

  function MoreOrs(p: Parsed, row: Row): (r: Option<Parsed>)
    ensures r.Some? ==> |r.value.tokens| <= |p.tokens|
    decreases |p.tokens|, 0
  {
    if p.tokens == [] || p.tokens[0] != Or then Some(p)
    else
      match Conjunction(p.tokens[1..], p.binds, row)
      case None => None
      case Some(q) => MoreOrs(q.(truth := Disj(p.truth, q.truth)), row)
  }

  /** Whether a query selects a row; none when the text is not a query or its values do not match its placeholders. */
  function Selects(text: seq<Token>, binds: seq<Value>, row: Row): Option<bool> {
    if text == [SelectFromUrlStatus] + OrderText() && binds == [] then Some(true)
    else if |text| >= 2 && text[0] == SelectFromUrlStatus && text[1] == Where then
      match Disjunction(text[2..], binds, row)
      case None => None
      case Some(p) => if p.tokens == OrderText() && p.binds == [] then Some(p.truth == True) else None
    else None
  }

  // ---------- The text means the conjunction of the filters ----------

  function Holds(c: Clause, row: Row): Truth {
    match c
    case Compare(column, operator, value) => Test(Lookup(row, column), operator, value)
    case Either(first, second, value) =>
      Disj(Test(Lookup(row, first), Equals, value), Test(Lookup(row, second), Equals, value))
  }

  function AllHold(clauses: seq<Clause>, row: Row): Truth {
    if clauses == [] then True
    else Conj(AllHold(clauses[..|clauses| - 1], row), Holds(clauses[|clauses| - 1], row))
  }

  lemma {:induction false} ComparisonParses(column: Column, operator: Operator, value: Value, rest: seq<Token>,
                                            more: seq<Value>, row: Row)
    ensures Primary([Col(column), Op(operator), Placeholder] + rest, [value] + more, row)
            == Some(Parsed(Test(Lookup(row, column), operator, value), rest, more))
  {
    var tokens := [Col(column), Op(operator), Placeholder] + rest;
    assert tokens[3..] == rest && ([value] + more)[1..] == more;
  }

  lemma {:induction false} ComparisonEnds(column: Column, value: Value, rest: seq<Token>, more: seq<Value>, row: Row)
    requires rest != [] && rest[0] != And
    ensures Conjunction([Col(column), Op(Equals), Placeholder] + rest, [value] + more, row)
            == Some(Parsed(Test(Lookup(row, column), Equals, value), rest, more))
  {
    ComparisonParses(column, Equals, value, rest, more, row);
  }

  /** Two comparisons with OR between them, up to a closing parenthesis. */
  lemma {:induction false} OrParses(first: Column, second: Column, value: Value, rest: seq<Token>, more: seq<Value>,
                                    row: Row)
    requires rest != [] && rest[0] == Close
    ensures Disjunction([Col(first), Op(Equals), Placeholder]
                        + ([Or] + ([Col(second), Op(Equals), Placeholder] + rest)),
                        [value] + ([value] + more), row)
            == Some(Parsed(Holds(Either(first, second, value), row), rest, more))
  {
    var right := [Col(second), Op(Equals), Placeholder] + rest;
    ComparisonEnds(first, value, [Or] + right, [value] + more, row);
    ComparisonEnds(second, value, rest, more, row);
    assert ([Or] + right)[1..] == right;
    var whole := Parsed(Holds(Either(first, second, value), row), rest, more);
    assert MoreOrs(whole, row) == Some(whole);
    var left := Parsed(Test(Lookup(row, first), Equals, value), [Or] + right, [value] + more);
    assert MoreOrs(left, row) == Some(whole);
  }

  lemma {:induction false} EitherParses(first: Column, second: Column, value: Value, rest: seq<Token>,
                                        more: seq<Value>, row: Row)
    ensures var c := Either(first, second, value);
            Primary(ClauseText(c) + rest, ClauseBinds(c) + more, row) == Some(Parsed(Holds(c, row), rest, more))
  {
    var c := Either(first, second, value);
    var inner := [Col(first), Op(Equals), Placeholder]
                 + ([Or] + ([Col(second), Op(Equals), Placeholder] + ([Close] + rest)));
    OrParses(first, second, value, [Close] + rest, more, row);
    assert (ClauseText(c) + rest)[1..] == inner;
    assert ([Close] + rest)[1..] == rest;
    assert ClauseBinds(c) + more == [value] + ([value] + more);
  }

  lemma {:induction false} ClauseParses(c: Clause, rest: seq<Token>, more: seq<Value>, row: Row)
    ensures Primary(ClauseText(c) + rest, ClauseBinds(c) + more, row) == Some(Parsed(Holds(c, row), rest, more))
  {
    match c
    case Compare(column, operator, value) => ComparisonParses(column, operator, value, rest, more, row);
    case Either(first, second, value) => EitherParses(first, second, value, rest, more, row);
  }

  lemma {:induction false} NextAndParses(truth: Truth, c: Clause, rest: seq<Token>, more: seq<Value>, row: Row)
    ensures MoreAnds(Parsed(truth, [And] + (ClauseText(c) + rest), ClauseBinds(c) + more), row)
            == MoreAnds(Parsed(Conj(truth, Holds(c, row)), rest, more), row)
  {
    ClauseParses(c, rest, more, row);
    assert ([And] + (ClauseText(c) + rest))[1..] == ClauseText(c) + rest;
  }

  lemma {:induction false} RegroupTail<T>(a: seq<T>, key: seq<T>, b: seq<T>, rest: seq<T>)
    requires a != []
    ensures (a + key + b)[1..] + rest == a[1..] + (key + (b + rest))
  {
  }

  /** Parsing a clause list and then going on with what follows it. */
  lemma {:induction false} ClausesLead(clauses: seq<Clause>, rest: seq<Token>, more: seq<Value>, row: Row)
    requires clauses != []
    ensures WhereText(clauses) != [] && WhereText(clauses)[0] == Where
    ensures Conjunction(WhereText(clauses)[1..] + rest, WhereBinds(clauses) + more, row)
            == MoreAnds(Parsed(AllHold(clauses, row), rest, more), row)
  {
    var last := |clauses| - 1;
    var earlier, c := clauses[..last], clauses[last];
    var text, binds := ClauseText(c), ClauseBinds(c);
    if last == 0 {
      ClauseParses(c, rest, more, row);
      assert WhereText(clauses)[1..] == text;
      assert WhereBinds(clauses) == binds;
    } else {
      ClausesLead(earlier, [And] + (text + rest), binds + more, row);
      RegroupTail(WhereText(earlier), [And], text, rest);
      Regroup(WhereBinds(earlier), binds, more);
      NextAndParses(AllHold(earlier, row), c, rest, more, row);
    }
  }

  /** Every present filter is satisfied; a missing run id satisfies no run filter. */
  predicate Accepts(f: Filters, row: Row) {
    && (f.runId.Some? ==> row.runId == f.runId)
    && (f.domain.Some? ==> row.initialDomain == f.domain.value || row.finalDomain == f.domain.value)
    && (f.status.Some? ==> row.status == f.status.value)
    && (f.since.Some? ==> row.observedAt >= f.since.value)
  }

  lemma {:induction false} AllHoldEach(clauses: seq<Clause>, row: Row)
    ensures AllHold(clauses, row) == True <==> forall c :: c in clauses ==> Holds(c, row) == True
  {
    if clauses != [] {
      var last := |clauses| - 1;
      AllHoldEach(clauses[..last], row);
      assert clauses == clauses[..last] + [clauses[last]];
    }
  }

  lemma {:induction false} AllHoldConcat(a: seq<Clause>, b: seq<Clause>, row: Row)
    ensures AllHold(a + b, row) == True <==> AllHold(a, row) == True && AllHold(b, row) == True
  {
    AllHoldEach(a + b, row);
    AllHoldEach(a, row);
    AllHoldEach(b, row);
    assert forall c :: c in a + b <==> c in a || c in b;
  }

  lemma {:induction false} AllHoldOne(c: Clause, row: Row)
    ensures AllHold([c], row) == True <==> Holds(c, row) == True
    ensures AllHold([], row) == True
  {
    AllHoldEach([c], row);
  }

  lemma {:induction false} RunIdMeans(f: Filters, row: Row)
    ensures AllHold(RunIdClause(f), row) == True <==> (f.runId.Some? ==> row.runId == f.runId)
  {
    if f.runId.Some? {
      AllHoldOne(Compare(RunId, Equals, Str(f.runId.value)), row);
    }
  }

  lemma {:induction false} DomainMeans(f: Filters, row: Row)
    ensures AllHold(DomainClause(f), row) == True
            <==> (f.domain.Some? ==> row.initialDomain == f.domain.value || row.finalDomain == f.domain.value)
  {
    if f.domain.Some? {
      AllHoldOne(Either(InitialDomain, FinalDomain, Str(f.domain.value)), row);
    }
  }

  lemma {:induction false} StatusMeans(f: Filters, row: Row)
    ensures AllHold(StatusClause(f), row) == True <==> (f.status.Some? ==> row.status == f.status.value)
  {
    if f.status.Some? {
      AllHoldOne(Compare(HttpStatus, Equals, Integer(f.status.value)), row);
    }
  }

  lemma {:induction false} SinceMeans(f: Filters, row: Row)
    ensures AllHold(SinceClause(f), row) == True <==> (f.since.Some? ==> row.observedAt >= f.since.value)
  {
    if f.since.Some? {
      AllHoldOne(Compare(ObservedAt, AtLeast, Integer(f.since.value)), row);
    }
  }

  lemma {:induction false} ClausesMeanFilters(f: Filters, row: Row)
    ensures AllHold(Clauses(f), row) == True <==> Accepts(f, row)
  {
    RunIdMeans(f, row);
    DomainMeans(f, row);
    StatusMeans(f, row);
    SinceMeans(f, row);
    AllHoldConcat(RunIdClause(f) + DomainClause(f) + StatusClause(f), SinceClause(f), row);
    AllHoldConcat(RunIdClause(f) + DomainClause(f), StatusClause(f), row);
    AllHoldConcat(RunIdClause(f), DomainClause(f), row);
  }

  lemma {:induction false} QuerySelects(where: seq<Token>, binds: seq<Value>, truth: Truth, row: Row)
    requires where != [] && where[0] == Where
    requires Disjunction(where[1..] + OrderText(), binds, row) == Some(Parsed(truth, OrderText(), []))
    ensures Selects([SelectFromUrlStatus] + where + OrderText(), binds, row) == Some(truth == True)
  {
    var text := [SelectFromUrlStatus] + where + OrderText();
    assert text[2..] == where[1..] + OrderText();
    assert text[1] == Where;
  }

  lemma {:induction false} ClausesSelect(clauses: seq<Clause>, row: Row)
    ensures Selects([SelectFromUrlStatus] + WhereText(clauses) + OrderText(), WhereBinds(clauses), row)
            == Some(AllHold(clauses, row) == True)
  {
    if clauses == [] {
      assert [SelectFromUrlStatus] + [] + OrderText() == [SelectFromUrlStatus] + OrderText();
    } else {
      var end := OrderText();
      ClausesLead(clauses, end, [], row);
      assert WhereBinds(clauses) + [] == WhereBinds(clauses);
      var p := Parsed(AllHold(clauses, row), end, []);
      assert MoreAnds(p, row) == Some(p) && MoreOrs(p, row) == Some(p);
      QuerySelects(WhereText(clauses), WhereBinds(clauses), p.truth, row);
    }
  }

  function Count(token: Token, tokens: seq<Token>): nat {
    if tokens == [] then 0 else (if tokens[0] == token then 1 else 0) + Count(token, tokens[1..])
  }

  lemma {:induction false} CountConcat(token: Token, a: seq<Token>, b: seq<Token>)
    ensures Count(token, a + b) == Count(token, a) + Count(token, b)
  {
    if a == [] {
      assert a + b == b;
    } else {
      assert (a + b)[1..] == a[1..] + b;
      CountConcat(token, a[1..], b);
    }
  }

  lemma {:induction false} CountCons(token: Token, first: Token, rest: seq<Token>)
    ensures Count(token, [first] + rest) == (if first == token then 1 else 0) + Count(token, rest)
  {
    assert ([first] + rest)[1..] == rest;
  }

  lemma {:induction false} CountsOfComparison(column: Column, operator: Operator, token: Token)
    requires token == Placeholder || token == Where
    ensures Count(token, [Col(column), Op(operator), Placeholder]) == if token == Placeholder then 1 else 0
  {
    CountCons(token, Placeholder, []);
    CountCons(token, Op(operator), [Placeholder] + []);
    CountCons(token, Col(column), [Op(operator)] + ([Placeholder] + []));
    assert [Col(column), Op(operator), Placeholder] == [Col(column)] + ([Op(operator)] + ([Placeholder] + []));
  }

  lemma {:induction false} CountsOfClause(c: Clause, token: Token)
    requires token == Placeholder || token == Where
    ensures Count(token, ClauseText(c)) == if token == Placeholder then |ClauseBinds(c)| else 0
  {
    match c
    case Compare(column, operator, _) =>
      CountsOfComparison(column, operator, token);
    case Either(first, second, _) =>
      var left, right := [Col(first), Op(Equals), Placeholder], [Col(second), Op(Equals), Placeholder];
      CountsOfComparison(first, Equals, token);
      CountsOfComparison(second, Equals, token);
      CountCons(token, Close, []);
      CountConcat(token, right, [Close] + []);
      CountCons(token, Or, right + ([Close] + []));
      CountConcat(token, left, [Or] + (right + ([Close] + [])));
      CountCons(token, Open, left + ([Or] + (right + ([Close] + []))));
      assert ClauseText(c) == [Open] + (left + ([Or] + (right + ([Close] + []))));
  }

  lemma {:induction false} CountsOfWhere(clauses: seq<Clause>, token: Token)
    requires token == Placeholder || token == Where
    ensures Count(token, WhereText(clauses))
            == if token == Placeholder then |WhereBinds(clauses)| else if clauses == [] then 0 else 1
  {
    if clauses != [] {
      var last := |clauses| - 1;
      var earlier, key, text := WhereText(clauses[..last]), if last == 0 then Where else And, ClauseText(clauses[last]);
      CountsOfWhere(clauses[..last], token);
      CountsOfClause(clauses[last], token);
      CountConcat(token, earlier + [key], text);
      CountConcat(token, earlier, [key]);
      CountCons(token, key, []);
      assert [key] + [] == [key];
    }
  }

  lemma {:induction false} CountsOfOrder(token: Token)
    requires token == Placeholder || token == Where
    ensures Count(token, OrderText()) == 0
  {
    CountCons(token, Descending, []);
    CountCons(token, Col(ObservedAt), [Descending] + []);
    CountCons(token, By, [Col(ObservedAt)] + ([Descending] + []));
    CountCons(token, Order, [By] + ([Col(ObservedAt)] + ([Descending] + [])));
    assert OrderText() == [Order] + ([By] + ([Col(ObservedAt)] + ([Descending] + [])));
  }

  /** There is one WHERE if a filter is present and else none, and a placeholder for each bound value. */
  lemma {:induction false} ExportQueryCounts(f: Filters)
    ensures Count(Where, ExportText(f)) == if Clauses(f) == [] then 0 else 1
    ensures Count(Placeholder, ExportText(f)) == |WhereBinds(Clauses(f))|
  {
    QueryCount(Clauses(f), Where);
    QueryCount(Clauses(f), Placeholder);
  }

  lemma {:induction false} QueryCount(clauses: seq<Clause>, token: Token)
    requires token == Placeholder || token == Where
    ensures Count(token, [SelectFromUrlStatus] + WhereText(clauses) + OrderText()) == Count(token, WhereText(clauses))
    ensures Count(token, WhereText(clauses))
            == if token == Placeholder then |WhereBinds(clauses)| else if clauses == [] then 0 else 1
  {
    CountsOfWhere(clauses, token);
    CountsOfOrder(token);
    CountConcat(token, [SelectFromUrlStatus] + WhereText(clauses), OrderText());
    CountCons(token, SelectFromUrlStatus, WhereText(clauses));
  }

  /** What the built text selects, read as tokens and evaluated. */
  function SelectsText(select: string, text: string, binds: seq<Value>, row: Row): Option<bool> {
    match Lex(select, text)
    case Some(tokens) => Selects(tokens, binds, row)
    case None => None
  }

  /**
   The text that is built is a query, its placeholders take exactly the bound values, and it
   selects exactly the rows that satisfy every present filter.
   */
  lemma {:induction false} ExportQuerySelects(select: string, f: Filters, row: Row)
    ensures SelectsText(select, ExportString(select, f), WhereBinds(Clauses(f)), row) == Some(Accepts(f, row))
  {
    ExportStringLexes(select, f);
    ClausesMeanFilters(f, row);
    ClausesSelect(Clauses(f), row);
  }
}
