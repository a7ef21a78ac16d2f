/**
 * The SQL-building part of the jobly `Job` model: the filter block of
 * `Job.findAll`, which adds one predicate per accepted filter and numbers
 * its placeholders by the length of the values list, and the placeholder
 * arithmetic of `Job.update`. The database calls themselves are not modelled.
 */
module Jobs {
  import opened Wrappers
  import opened Text
  import opened SqlHelpers

  /** The `queryStringFilters` object of `findAll`; an absent field is `None`. */
  datatype Filters = Filters(minSalary: Option<int>, hasEquity: bool, title: Option<string>)

  /** A query text with the values bound to its placeholders, as handed to `db.query`. */
  datatype Query = Query(text: string, values: seq<Value>)

  /** The SELECT that `findAll` starts from, whitespace included. */
  const FindAllSelect: string :=
    "SELECT j.id, \n"
    + "                j.title,\n"
    + "                j.salary,\n"
    + "                j.equity,\n"
    + "                j.company_handle AS \"companyHandle\",\n"
    + "                c.name AS \"companyName\"\n"
    + "        FROM jobs as j\n"
    + "        LEFT JOIN companies AS c ON c.handle = j.company_handle"

  const OrderByTitle: string := " ORDER BY title"

  const NegativeSalaryMessage: string := "Min salary cannot be less than zero"

  /** One filter that passed its truthiness test. */
  datatype Criterion = MinSalary(amount: int) | HasEquity | TitleLike(title: string)

  /** The position of a kind of filter in the order `findAll` tries them. */
  function Rank(c: Criterion): nat {
    match c
    case MinSalary(_) => 0
    case HasEquity => 1
    case TitleLike(_) => 2
  }

  /**
   * The filters that contribute a predicate, in the order salary, equity, title.
   * A salary of 0 and an empty title are falsy in JavaScript and so contribute nothing.
   */
  function Accepted(f: Filters): (cs: seq<Criterion>)
    ensures |cs| <= 3
    ensures cs == [] <==> !(f.minSalary.Some? && f.minSalary.value != 0) && !f.hasEquity && !(f.title.Some? && f.title.value != "")
  {
    AcceptTitle(f, AcceptEquity(f, AcceptSalary(f, [])))
  }

  /** The salary test: a non-zero minimum is applied. */
  function AcceptSalary(f: Filters, cs: seq<Criterion>): (r: seq<Criterion>)
    ensures cs <= r && |r| <= |cs| + 1
  {
    if f.minSalary.Some? && f.minSalary.value != 0 then cs + [MinSalary(f.minSalary.value)] else cs
  }

  /** The equity test: a truthy `hasEquity` is applied. */
  function AcceptEquity(f: Filters, cs: seq<Criterion>): (r: seq<Criterion>)
    ensures cs <= r && |r| <= |cs| + 1
  {
    if f.hasEquity then cs + [HasEquity] else cs
  }

  /** The title test: a non-empty title is applied. */
  function AcceptTitle(f: Filters, cs: seq<Criterion>): (r: seq<Criterion>)
    ensures cs <= r && |r| <= |cs| + 1
  {
    if f.title.Some? && f.title.value != "" then cs + [TitleLike(f.title.value)] else cs
  }

  /** The accepted filters come in the fixed order salary, equity, title. */
  lemma AcceptedInOrder(f: Filters)
    ensures forall i, j :: 0 <= i < j < |Accepted(f)| ==> Rank(Accepted(f)[i]) < Rank(Accepted(f)[j])
  {
    RanksOfAccepted(f);
    RanksIncrease(f);
  }

  /** The ranks `AcceptedRanks` lists are strictly increasing. */
  lemma RanksIncrease(f: Filters)
    ensures forall i, j :: 0 <= i < j < |AcceptedRanks(f)| ==> AcceptedRanks(f)[i] < AcceptedRanks(f)[j]
  {
  }

  /** A minimum salary is applied exactly when it is given and non-zero. */
  lemma AcceptedSalary(f: Filters)
    ensures forall n :: MinSalary(n) in Accepted(f) <==> f.minSalary == Some(n) && n != 0
  {
  }

  /** The equity filter is applied exactly when `hasEquity` is true. */
  lemma AcceptedEquity(f: Filters)
    ensures HasEquity in Accepted(f) <==> f.hasEquity
  {
  }

  /** A title filter is applied exactly when it is given and non-empty. */
  lemma AcceptedTitle(f: Filters)
    ensures forall t :: TitleLike(t) in Accepted(f) <==> f.title == Some(t) && t != ""
  {
  }

  /** What a filter pushes onto `filterValues`: nothing for the constant equity test. */
  function Pushed(c: Criterion): (vs: seq<Value>)
    ensures |vs| <= 1
    ensures vs == [] <==> c == HasEquity
  {
    match c
    case MinSalary(n) => [Num(n)]
    case HasEquity => []
    case TitleLike(t) => [Str("%" + t + "%")]
  }

  /** `filterValues` after the filters `cs` have been applied in turn. */
  function Bindings(cs: seq<Criterion>): (vs: seq<Value>)
    ensures |vs| <= |cs|
    decreases |cs|
  {
    if cs == [] then [] else Bindings(cs[..|cs| - 1]) + Pushed(cs[|cs| - 1])
  }

  /**
   * The predicate a filter adds, numbered by `filterValues.length` after its push:
   * a filter with a value ends in the placeholder `slot`, the equity test in none.
   */
  function PredicateText(c: Criterion, slot: nat): (t: string)
    ensures c != HasEquity ==> PlaceholderNumber(t) == Some(slot)
    ensures c == HasEquity ==> PlaceholderNumber(t) == None
  {
    match c
    case MinSalary(_) => PlaceholderRoundTrip("salary >= ", slot); "salary >= " + Placeholder(slot)
    case HasEquity => EquityTextUnnumbered(); "equity > 0"
    case TitleLike(_) => PlaceholderRoundTrip("title ILIKE ", slot); "title ILIKE " + Placeholder(slot)
  }

  /** `filterStatements` after the filters `cs` have been applied in turn. */
  function Predicates(cs: seq<Criterion>): (ps: seq<string>)
    ensures |ps| == |cs|
    decreases |cs|
  {
    if cs == [] then [] else Predicates(cs[..|cs| - 1]) + [PredicateText(cs[|cs| - 1], |Bindings(cs)|)]
  }

  /** `" WHERE " + filterStatements.join(" AND ")`, or nothing when there are no predicates. */
  function WhereClause(ps: seq<string>): (w: string)
    ensures w == "" <==> ps == []
  {
    if |ps| > 0 then " WHERE " + Join(ps, " AND ") else ""
  }

  /**
   * The query and values `findAll` hands to the database. A negative minimum salary
   * is refused before any filter is looked at.
   */
  function ListingQuery(f: Filters): (r: Result<Query, Error>)
    ensures r.Failure? <==> f.minSalary.Some? && f.minSalary.value < 0
    ensures r.Failure? ==> r.error == BadRequest(NegativeSalaryMessage)
    ensures r.Success? ==> r.value.values == Bindings(Accepted(f))
  {
    if f.minSalary.Some? && f.minSalary.value < 0 then Failure(BadRequest(NegativeSalaryMessage))
    else
      var cs := Accepted(f);
      Success(Query(FindAllSelect + WhereClause(Predicates(cs)) + OrderByTitle, Bindings(cs)))
  }

  /**
   * Applying one more filter pushes its value, then its predicate numbered by
   * the new length of the values: the bookkeeping `findAll` does per filter.
   */
  lemma Applied(cs: seq<Criterion>, c: Criterion, statements: seq<string>, values: seq<Value>)
    requires values == Bindings(cs) + Pushed(c)
    requires statements == Predicates(cs) + [PredicateText(c, |values|)]
    ensures values == Bindings(cs + [c]) && statements == Predicates(cs + [c])
  {
    assert (cs + [c])[..|cs|] == cs;
  }

  /**
   * One accepted filter: `filterValues.push(...)` of its value, if it has one,
   * then `filterStatements.push(...)` of its predicate, numbered by the new
   * length of `filterValues`.
   */
  method ApplyFilter(c: Criterion, statements: seq<string>, values: seq<Value>, ghost cs: seq<Criterion>)
    returns (newStatements: seq<string>, newValues: seq<Value>)
    requires values == Bindings(cs) && statements == Predicates(cs)
    ensures newValues == Bindings(cs + [c]) && newStatements == Predicates(cs + [c])
  {
    newValues := values + Pushed(c);
    newStatements := statements + [PredicateText(c, |newValues|)];
    Applied(cs, c, newStatements, newValues);
  }

  /** The filter block of `Job.findAll`, pushing statements and values one filter at a time. */
  method FindAll(f: Filters) returns (r: Result<Query, Error>)
    ensures r == ListingQuery(f)
  {
    var query := FindAllSelect;
    var filterStatements: seq<string> := [];
    var filterValues: seq<Value> := [];

    if f.minSalary.Some? && f.minSalary.value < 0 {
      return Failure(BadRequest(NegativeSalaryMessage));
    }

    if f.minSalary.Some? && f.minSalary.value != 0 {
      filterStatements, filterValues := ApplyFilter(MinSalary(f.minSalary.value), filterStatements, filterValues, []);
    }
    if f.hasEquity {
      filterStatements, filterValues := ApplyFilter(HasEquity, filterStatements, filterValues, AcceptSalary(f, []));
    }
    if f.title.Some? && f.title.value != "" {
      filterStatements, filterValues := ApplyFilter(TitleLike(f.title.value), filterStatements, filterValues, AcceptEquity(f, AcceptSalary(f, [])));
    }

    if |filterStatements| > 0 {
      query := query + (" WHERE " + Join(filterStatements, " AND "));
    } else {
      assert query + "" == query;
    }
    assert query == FindAllSelect + WhereClause(filterStatements);
    query := query + OrderByTitle;
    ListingQueryOf(f, Accepted(f), filterStatements, filterValues);
    r := Success(Query(query, filterValues));
  }

  /** The predicate at position `i` is numbered by the length of the values once filter `i` has pushed. */
  lemma {:induction false} PredicateAt(cs: seq<Criterion>, i: nat)
    requires i < |cs|
    ensures Predicates(cs)[i] == PredicateText(cs[i], |Bindings(cs[..i + 1])|)
    decreases |cs|
  {
    if i < |cs| - 1 {
      var init := cs[..|cs| - 1];
      assert init[..i + 1] == cs[..i + 1];
      PredicateAt(init, i);
    } else {
      assert cs[..i + 1] == cs;
    }
  }

  /** The values pushed by the first `k` filters are the first values of the whole list. */
  lemma {:induction false} BindingsPrefix(cs: seq<Criterion>, k: nat)
    requires k <= |cs|
    ensures |Bindings(cs[..k])| <= |Bindings(cs)|
    ensures Bindings(cs)[..|Bindings(cs[..k])|] == Bindings(cs[..k])
    decreases |cs|
  {
    if k < |cs| {
      var init := cs[..|cs| - 1];
      assert init[..k] == cs[..k];
      BindingsPrefix(init, k);
    } else {
      assert cs[..k] == cs;
    }
  }

  /**
   * A filter that carries a value gets the placeholder one past the values
   * pushed before it, and that placeholder is bound to exactly its value.
   */
  lemma SlotBindsValue(cs: seq<Criterion>, i: nat)
    requires i < |cs| && cs[i] != HasEquity
    ensures |Bindings(cs[..i + 1])| == |Bindings(cs[..i])| + 1 <= |Bindings(cs)|
    ensures Bindings(cs)[|Bindings(cs[..i + 1])| - 1] == Pushed(cs[i])[0]
    ensures PlaceholderNumber(Predicates(cs)[i]) == Some(|Bindings(cs[..i + 1])|)
  {
    var pre := cs[..i + 1];
    assert pre[..|pre| - 1] == cs[..i];
    BindingsPrefix(cs, i + 1);
    PredicateAt(cs, i);
    var slot := |Bindings(pre)|;
    assert Bindings(cs)[slot - 1] == Bindings(cs)[..slot][slot - 1];
    match cs[i]
    case MinSalary(_) => PlaceholderRoundTrip("salary >= ", slot);
    case TitleLike(_) => PlaceholderRoundTrip("title ILIKE ", slot);
  }

  /** `equity > 0` ends in a digit, but not in a placeholder. */
  lemma EquityTextUnnumbered()
    ensures PlaceholderNumber("equity > 0") == None
  {
    var text := "equity > 0";
    assert text[..|text| - 1] == "equity > ";
    assert DigitSuffixLength("equity > ") == 0;
    assert DigitSuffixLength(text) == 1;
  }

  /** The equity predicate has no placeholder and does not move the numbering of later filters. */
  lemma EquityUnnumbered(cs: seq<Criterion>, i: nat)
    requires i < |cs| && cs[i] == HasEquity
    ensures Predicates(cs)[i] == "equity > 0"
    ensures PlaceholderNumber(Predicates(cs)[i]) == None
    ensures Bindings(cs[..i + 1]) == Bindings(cs[..i])
  {
    var pre := cs[..i + 1];
    assert pre[..|pre| - 1] == cs[..i];
    PredicateAt(cs, i);
    EquityTextUnnumbered();
  }

  /** Every placeholder 1..|values| is used by some predicate: the numbering has no gaps. */
  lemma {:induction false} SlotsCover(cs: seq<Criterion>, k: nat)
    requires 1 <= k <= |Bindings(cs)|
    ensures exists i :: 0 <= i < |cs| && cs[i] != HasEquity && |Bindings(cs[..i + 1])| == k
    decreases |cs|
  {
    var init := cs[..|cs| - 1];
    if k <= |Bindings(init)| {
      SlotsCover(init, k);
      var i :| 0 <= i < |init| && init[i] != HasEquity && |Bindings(init[..i + 1])| == k;
      PrefixOfInit(cs, i + 1);
    } else {
      assert cs[..|cs|] == cs;
    }
  }

  /** A prefix of all but the last filter is a prefix of all of them. */
  lemma PrefixOfInit(cs: seq<Criterion>, n: nat)
    requires n < |cs|
    ensures cs[..|cs| - 1][..n] == cs[..n]
  {
  }

  /** Filters of the same kinds in the same order give the same predicates, whatever their values. */
  lemma {:induction false} PredicatesIgnoreValues(cs1: seq<Criterion>, cs2: seq<Criterion>)
    requires |cs1| == |cs2| && forall i :: 0 <= i < |cs1| ==> Rank(cs1[i]) == Rank(cs2[i])
    ensures |Bindings(cs1)| == |Bindings(cs2)|
    ensures Predicates(cs1) == Predicates(cs2)
    decreases |cs1|
  {
    if cs1 != [] {
      var n := |cs1| - 1;
      assert forall i :: 0 <= i < n ==> cs1[..n][i] == cs1[i] && cs2[..n][i] == cs2[i];
      PredicatesIgnoreValues(cs1[..n], cs2[..n]);
      SameRankSameText(cs1[n], cs2[n], |Bindings(cs1)|);
    }
  }

  /** Two filters of the same kind push as many values and add the same predicate text. */
  lemma SameRankSameText(c1: Criterion, c2: Criterion, slot: nat)
    requires Rank(c1) == Rank(c2)
    ensures |Pushed(c1)| == |Pushed(c2)| && PredicateText(c1, slot) == PredicateText(c2, slot)
  {
  }

  /** Which filters pass their truthiness test, as the ranks of the accepted filters. */
  function AcceptedRanks(f: Filters): seq<nat> {
    (if f.minSalary.Some? && f.minSalary.value != 0 then [0] else [])
    + (if f.hasEquity then [1] else [])
    + (if f.title.Some? && f.title.value != "" then [2] else [])
  }

  /** The accepted filters have exactly the ranks `AcceptedRanks` lists. */
  lemma RanksOfAccepted(f: Filters)
    ensures |Accepted(f)| == |AcceptedRanks(f)|
    ensures forall i :: 0 <= i < |Accepted(f)| ==> Rank(Accepted(f)[i]) == AcceptedRanks(f)[i]
  {
  }

  /**
   * The query text depends only on which filters are accepted, never on the
   * salary figure or the title text: those travel as bound values.
   */
  lemma QueryTextIgnoresValues(f1: Filters, f2: Filters)
    requires ListingQuery(f1).Success? && ListingQuery(f2).Success?
    requires AcceptedRanks(f1) == AcceptedRanks(f2)
    ensures ListingQuery(f1).value.text == ListingQuery(f2).value.text
  {
    RanksOfAccepted(f1);
    RanksOfAccepted(f2);
    PredicatesIgnoreValues(Accepted(f1), Accepted(f2));
  }

  /** Every accepted query starts with the SELECT and ends with ` ORDER BY title`. */
  lemma QueryShape(f: Filters)
    requires ListingQuery(f).Success?
    ensures ListingQuery(f).value.text[..|FindAllSelect|] == FindAllSelect
    ensures var text := ListingQuery(f).value.text;
      |text| >= |OrderByTitle| && text[|text| - |OrderByTitle|..] == OrderByTitle
  {
    Pieces(FindAllSelect, WhereClause(Predicates(Accepted(f))), OrderByTitle);
  }

  /** With no accepted filter there is no WHERE and nothing to bind. */
  lemma NoFilters(f: Filters)
    requires ListingQuery(f).Success? && Accepted(f) == []
    ensures ListingQuery(f) == Success(Query(FindAllSelect + OrderByTitle, []))
  {
    assert FindAllSelect + "" == FindAllSelect;
  }

  /** A minimum salary of 0 is falsy: it gives the same query as no minimum at all. */
  lemma ZeroSalaryIsAbsent(f: Filters)
    ensures ListingQuery(f.(minSalary := Some(0))) == ListingQuery(f.(minSalary := None))
  {
    assert Accepted(f.(minSalary := Some(0))) == Accepted(f.(minSalary := None));
  }

  /** With the accepted filters known, the query is the SELECT, their WHERE clause and the ordering. */
  lemma ListingQueryOf(f: Filters, cs: seq<Criterion>, ps: seq<string>, vs: seq<Value>)
    requires !(f.minSalary.Some? && f.minSalary.value < 0)
    requires Accepted(f) == cs && Predicates(cs) == ps && Bindings(cs) == vs
    ensures ListingQuery(f) == Success(Query(FindAllSelect + WhereClause(ps) + OrderByTitle, vs))
  {
  }

  /** Two predicates make a WHERE clause with one `AND`. */
  lemma WhereTwo(a: string, b: string)
    ensures WhereClause([a, b]) == " WHERE " + a + " AND " + b
  {
    JoinTwo(a, b, " AND ");
  }

  /** Two filters applied in turn, the first binding `$1` when it pushes a value. */
  lemma TwoApplied(c1: Criterion, c2: Criterion)
    ensures Bindings([c1, c2]) == Pushed(c1) + Pushed(c2)
    ensures Predicates([c1, c2]) == [PredicateText(c1, |Pushed(c1)|), PredicateText(c2, |Pushed(c1) + Pushed(c2)|)]
  {
    assert [c1][..0] == [];
    assert Bindings([c1]) == Pushed(c1) by { assert [] + Pushed(c1) == Pushed(c1); }
    assert Predicates([c1]) == [PredicateText(c1, |Pushed(c1)|)];
    assert [c1, c2][..1] == [c1];
  }

  lemma SalaryAndEquityPredicates(n: int)
    ensures Predicates([MinSalary(n), HasEquity]) == ["salary >= $1", "equity > 0"]
    ensures Bindings([MinSalary(n), HasEquity]) == [Num(n)]
  {
    TwoApplied(MinSalary(n), HasEquity);
    assert Placeholder(1) == "$1" by { assert NatToString(1) == "1"; }
    assert PredicateText(MinSalary(n), 1) == "salary >= $1";
  }

  lemma SalaryAndEquityWhere()
    ensures WhereClause(["salary >= $1", "equity > 0"]) == " WHERE salary >= $1 AND equity > 0"
  {
    WhereTwo("salary >= $1", "equity > 0");
    assert " WHERE " + "salary >= $1" + " AND " + "equity > 0" == " WHERE salary >= $1 AND equity > 0";
  }

  /** `{ minSalary: n, hasEquity: true }` for a positive n: the equity predicate takes no placeholder. */
  lemma SalaryAndEquityExample(n: int)
    requires n > 0
    ensures ListingQuery(Filters(Some(n), true, None))
         == Success(Query(FindAllSelect + " WHERE salary >= $1 AND equity > 0" + OrderByTitle, [Num(n)]))
  {
    assert Accepted(Filters(Some(n), true, None)) == [MinSalary(n), HasEquity];
    SalaryAndEquityPredicates(n);
    SalaryAndEquityWhere();
    ListingQueryOf(Filters(Some(n), true, None), [MinSalary(n), HasEquity], ["salary >= $1", "equity > 0"], [Num(n)]);
  }

  lemma EquityAndTitlePredicates(t: string)
    ensures Predicates([HasEquity, TitleLike(t)]) == ["equity > 0", "title ILIKE $1"]
    ensures Bindings([HasEquity, TitleLike(t)]) == [Str("%" + t + "%")]
  {
    TwoApplied(HasEquity, TitleLike(t));
    assert Placeholder(1) == "$1" by { assert NatToString(1) == "1"; }
    assert PredicateText(TitleLike(t), 1) == "title ILIKE $1";
  }

  lemma EquityAndTitleWhere()
    ensures WhereClause(["equity > 0", "title ILIKE $1"]) == " WHERE equity > 0 AND title ILIKE $1"
  {
    WhereTwo("equity > 0", "title ILIKE $1");
    assert " WHERE " + "equity > 0" + " AND " + "title ILIKE $1" == " WHERE equity > 0 AND title ILIKE $1";
  }

  /** `{ hasEquity: true, title: t }` for a non-empty t: the title takes $1, with no gap left by the salary. */
  lemma EquityAndTitleExample(t: string)
    requires t != ""
    ensures ListingQuery(Filters(None, true, Some(t)))
         == Success(Query(FindAllSelect + " WHERE equity > 0 AND title ILIKE $1" + OrderByTitle, [Str("%" + t + "%")]))
  {
    assert Accepted(Filters(None, true, Some(t))) == [HasEquity, TitleLike(t)];
    EquityAndTitlePredicates(t);
    EquityAndTitleWhere();
    ListingQueryOf(Filters(None, true, Some(t)), [HasEquity, TitleLike(t)], ["equity > 0", "title ILIKE $1"], [Str("%" + t + "%")]);
  }

  /** The SQL text of `Job.update` around its SET clause and its id placeholder. */
  function UpdateHead(setCols: string): string {
    "UPDATE jobs \n                      SET " + setCols + " \n                      WHERE id = "
  }

  const UpdateReturning: string :=
    " \n                      RETURNING id,\n"
    + "                                title, \n"
    + "                                salary, \n"
    + "                                equity, \n"
    + "                                company_handle AS \"companyHandle\""

  /**
   * `Job.update(id, data)` up to its database call: the SET clause from
   * `sqlForPartialUpdate(data, {})`, the id placeholder one past its values,
   * and the values followed by the id. An empty `data` is refused.
   */
  function UpdateQuery(id: Value, data: Payload): (r: Result<Query, Error>)
    ensures r.Failure? <==> data == []
    ensures r.Failure? ==> r.error == BadRequest("No data")
    ensures r.Success? ==> r.value.values == Values(data) + [id]
  {
    var clause :- SqlForPartialUpdate(data, map[]);
    var idVarIdx := Placeholder(|clause.values| + 1);
    Success(Query(UpdateHead(clause.setCols) + idVarIdx + UpdateReturning, clause.values + [id]))
  }

  /** The id placeholder is `$(n + 1)` for `n` fields, and parameter `n + 1` is the id. */
  lemma UpdateBindsId(id: Value, data: Payload)
    requires data != []
    ensures UpdateQuery(id, data).Success?
    ensures UpdateQuery(id, data).value.text
         == UpdateHead(SqlForPartialUpdate(data, map[]).value.setCols) + Placeholder(|data| + 1) + UpdateReturning
    ensures PlaceholderNumber(UpdateHead(SqlForPartialUpdate(data, map[]).value.setCols) + Placeholder(|data| + 1))
         == Some(|data| + 1)
    ensures UpdateQuery(id, data).value.values[|data|] == id
  {
    var clause := SqlForPartialUpdate(data, map[]).value;
    assert |clause.values| == |data|;
    assert UpdateQuery(id, data)
        == Success(Query(UpdateHead(clause.setCols) + Placeholder(|data| + 1) + UpdateReturning, clause.values + [id]));
    PlaceholderRoundTrip(UpdateHead(clause.setCols), |data| + 1);
  }

  /**
   * `update` passes an empty column table, so each assignment names its own key
   * and uses the placeholders `$1`..`$n`, all below the id's.
   */
  lemma UpdateColumnsAreKeys(data: Payload, i: nat)
    requires i < |data|
    ensures Assignments(Keys(data), map[])[i] == "\"" + data[i].0 + "\"=" + Placeholder(i + 1)
    ensures PlaceholderNumber(Assignments(Keys(data), map[])[i]) == Some(i + 1) && i + 1 < |data| + 1
  {
    AssignmentsNumbered(data, map[], i);
  }
}
