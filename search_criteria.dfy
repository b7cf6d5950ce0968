/**
  The search-criteria builders of `items_search_item`, `viewLogs` and
  `users_get_user`. Each turns the request's `query`, `filter` and `active`
  parameters into a MongoDB filter shaped as an AND of terms, where a term is
  either an OR-list of clauses or a single `active` equality. The three
  builders differ only in their field lists, so one builder is parameterized
  by a `SearchFields` value and the three field lists are constants.
*/
module SearchCriteria {
  import opened Wrappers
  import opened RegexEscape

  /**
    A request query parameter as Express parses it: absent, a string, or a
    nested value (`?query[]=a` or `?query[k]=a` give an array or an object).
  */
  datatype Param = Missing | Given(text: string) | Nested

  /** JavaScript truthiness of a parameter: the empty string is falsy, arrays and objects are truthy. */
  predicate Truthy(p: Param) {
    p.Nested? || (p.Given? && p.text != "")
  }

  /**
    One clause of a filter document: `{_id: id}`, `{field: {$regex: pattern,
    $options: 'i'}}` (always case-insensitive) or `{active: b}`.
  */
  datatype Clause = IdEq(id: string) | Regex(field: string, pattern: string) | ActiveEq(active: bool)

  /** A top-level AND term: `{$or: [...]}` or a single clause. */
  datatype Term = AnyOf(clauses: seq<Clause>) | Is(clause: Clause)

  /** `{}` matches every document; otherwise `{$and: terms}`. */
  datatype Criteria = MatchAll | And(terms: seq<Term>)

  /** `escapeRegex` called on an array or object throws a TypeError; the handler answers 500. */
  datatype SearchError = NotAString

  /** The field lists of one search handler. */
  datatype SearchFields = SearchFields(queryFields: seq<string>, filterFields: seq<string>, readsActive: bool)

  const ItemFields: seq<string> := ["controlNumber", "name", "category", "location", "description", "loggedBy"]

  /** `items_search_item`: six fields for both query and filter, and `active`. */
  const ItemSearch := SearchFields(ItemFields, ItemFields, true)

  /** `viewLogs`: query on name and reference, filter on action, no `active` parameter. */
  const LogSearch := SearchFields(["name", "reference"], ["action"], false)

  const UserQueryFields: seq<string> := ["controlNumber", "firstName", "lastName", "middleName", "employeeId", "division", "username"]

  /** `users_get_user`: seven query fields; the filter adds `role`. */
  const UserSearch := SearchFields(UserQueryFields, UserQueryFields + ["role"], true)

  /** One case-insensitive regex clause per field, in field order. */
  function RegexClauses(fields: seq<string>, pattern: string): seq<Clause> {
    seq(|fields|, i requires 0 <= i < |fields| => Regex(fields[i], pattern))
  }

  /**
    The OR-list for a query: an exact `_id` clause when the raw (unescaped)
    query is a valid ObjectId, then the regex clauses on the escaped query.
  */
  function QueryClauses(fields: SearchFields, q: string, isValidId: string -> bool): seq<Clause> {
    (if isValidId(q) then [IdEq(q)] else []) + RegexClauses(fields.queryFields, Escape(q))
  }

  /**
    The query OR-list starts with the `_id` clause exactly when the raw query
    is a valid id, and then holds one regex clause on the escaped query per
    query field, in field order.
  */
  lemma QueryClausesShape(fields: SearchFields, q: string, isValidId: string -> bool)
    ensures var cs := QueryClauses(fields, q, isValidId);
      var k := if isValidId(q) then 1 else 0;
      && |cs| == |fields.queryFields| + k
      && ((|cs| > 0 && cs[0] == IdEq(q)) <==> isValidId(q))
      && forall i :: 0 <= i < |fields.queryFields| ==> cs[k + i] == Regex(fields.queryFields[i], Escape(q))
  {
    var cs := QueryClauses(fields, q, isValidId);
    var rs := RegexClauses(fields.queryFields, Escape(q));
    var k := if isValidId(q) then 1 else 0;
    assert |rs| == |fields.queryFields|;
    forall i | 0 <= i < |fields.queryFields|
      ensures cs[k + i] == Regex(fields.queryFields[i], Escape(q))
    {
      assert cs[k + i] == rs[i];
    }
    if !isValidId(q) && |cs| > 0 {
      assert cs[0] == rs[0] && rs[0].Regex?;
    }
  }

  /** Number of top-level terms the present parameters contribute. */
  function TermCount(fields: SearchFields, query: Param, filter: Param, active: Param): nat {
    (if Truthy(query) then 1 else 0) + (if Truthy(filter) then 1 else 0) +
    (if fields.readsActive && Truthy(active) then 1 else 0)
  }

  /** The terms the present parameters contribute, in the order query, filter, active. */
  function Terms(fields: SearchFields, query: Param, filter: Param, active: Param,
                 isValidId: string -> bool): seq<Term>
    requires !query.Nested? && !filter.Nested?
  {
    (if Truthy(query) then [AnyOf(QueryClauses(fields, query.text, isValidId))] else []) +
    (if Truthy(filter) then [AnyOf(RegexClauses(fields.filterFields, Escape(filter.text)))] else []) +
    (if fields.readsActive && Truthy(active) then [Is(ActiveEq(active == Given("true")))] else [])
  }

  /** Where each present parameter's term sits among the terms. */
  lemma TermsShape(fields: SearchFields, query: Param, filter: Param, active: Param,
                   isValidId: string -> bool)
    requires !query.Nested? && !filter.Nested?
    ensures var ts := Terms(fields, query, filter, active, isValidId);
      && |ts| == TermCount(fields, query, filter, active)
      && (Truthy(query) ==> ts[0] == AnyOf(QueryClauses(fields, query.text, isValidId)))
      && (Truthy(filter) ==>
           ts[if Truthy(query) then 1 else 0] == AnyOf(RegexClauses(fields.filterFields, Escape(filter.text))))
      && (fields.readsActive && Truthy(active) ==> ts[|ts| - 1] == Is(ActiveEq(active == Given("true"))))
  {
    var qt := if Truthy(query) then [AnyOf(QueryClauses(fields, query.text, isValidId))] else [];
    var ft := if Truthy(filter) then [AnyOf(RegexClauses(fields.filterFields, Escape(filter.text)))] else [];
    var at := if fields.readsActive && Truthy(active) then [Is(ActiveEq(active == Given("true")))] else [];
    var ts := qt + ft + at;
    assert ts == Terms(fields, query, filter, active, isValidId);
    assert |ts| == |qt| + |ft| + |at|;
    if Truthy(query) {
      assert ts[0] == qt[0];
    }
    if Truthy(filter) {
      assert ts[|qt|] == ft[0];
    }
    if fields.readsActive && Truthy(active) {
      assert ts[|ts| - 1] == at[0];
    }
  }

  /** The criteria a search handler sends to `find`, or the error it hits first. */
  function CriteriaOf(fields: SearchFields, query: Param, filter: Param, active: Param,
                      isValidId: string -> bool): (r: Result<Criteria, SearchError>)
    ensures r.Failure? <==> query.Nested? || filter.Nested?
    ensures r.Success? ==> (r.value.MatchAll? <==> TermCount(fields, query, filter, active) == 0)
    ensures r.Success? && r.value.And? ==> |r.value.terms| == TermCount(fields, query, filter, active)
    ensures r.Success? && Truthy(query) ==>
      r.value.And? && r.value.terms[0] == AnyOf(QueryClauses(fields, query.text, isValidId))
    ensures r.Success? && Truthy(filter) ==>
      var k := if Truthy(query) then 1 else 0;
      r.value.And? && |r.value.terms| > k &&
      r.value.terms[k] == AnyOf(RegexClauses(fields.filterFields, Escape(filter.text)))
    ensures r.Success? && fields.readsActive && Truthy(active) ==>
      r.value.And? && r.value.terms[|r.value.terms| - 1] == Is(ActiveEq(active == Given("true")))
  {
    if query.Nested? || filter.Nested? then Failure(NotAString)
    else
      var terms := Terms(fields, query, filter, active, isValidId);
      TermsShape(fields, query, filter, active, isValidId);
      Success(if terms == [] then MatchAll else And(terms))
  }

  lemma CriteriaOfTerms(fields: SearchFields, query: Param, filter: Param, active: Param,
                        isValidId: string -> bool)
    requires !query.Nested? && !filter.Nested?
    ensures var ts := Terms(fields, query, filter, active, isValidId);
      CriteriaOf(fields, query, filter, active, isValidId) == Success(if ts == [] then MatchAll else And(ts))
  {
  }

  /**
    The handler's own construction: `queryConditions` grows by one push per
    present parameter, and `searchCriteria` is replaced by `{$and: ...}` only
    when something was pushed.
  */
  method BuildCriteria(fields: SearchFields, query: Param, filter: Param, active: Param,
                       isValidId: string -> bool) returns (r: Result<Criteria, SearchError>)
    ensures r == CriteriaOf(fields, query, filter, active, isValidId)
  {
    if query.Nested? || filter.Nested? {
      // `escapeRegex` is reached with a non-string and throws.
      return Failure(NotAString);
    }
    ghost var qt := if Truthy(query) then [AnyOf(QueryClauses(fields, query.text, isValidId))] else [];
    ghost var ft := if Truthy(filter) then [AnyOf(RegexClauses(fields.filterFields, Escape(filter.text)))] else [];
    ghost var at := if fields.readsActive && Truthy(active) then [Is(ActiveEq(active == Given("true")))] else [];
    CriteriaOfTerms(fields, query, filter, active, isValidId);
    var searchCriteria := MatchAll;
    var queryConditions: seq<Term> := [];
    if Truthy(query) {
      var escapedQuery := Escape(query.text);
      var orConditions: seq<Clause> := [];
      ghost var idClause: seq<Clause> := [];
      if isValidId(query.text) {
        orConditions := orConditions + [IdEq(query.text)];
        idClause := [IdEq(query.text)];
      }
      assert orConditions == idClause;
      orConditions := orConditions + RegexClauses(fields.queryFields, escapedQuery);
      queryConditions := queryConditions + [AnyOf(orConditions)];
    }
    assert queryConditions == qt;
    if Truthy(filter) {
      var escapedFilter := Escape(filter.text);
      queryConditions := queryConditions + [AnyOf(RegexClauses(fields.filterFields, escapedFilter))];
    }
    assert queryConditions == qt + ft;
    if fields.readsActive && Truthy(active) {
      var isActive := active == Given("true");
      queryConditions := queryConditions + [Is(ActiveEq(isActive))];
    }
    assert queryConditions == qt + ft + at == Terms(fields, query, filter, active, isValidId);
    if |queryConditions| > 0 {
      searchCriteria := And(queryConditions);
    }
    r := Success(searchCriteria);
  }

  /** Every regex clause built from `Escape(text)` carries a literal pattern for `text`. */
  lemma RegexClausesLiteral(fields: seq<string>, text: string)
    ensures forall cl :: cl in RegexClauses(fields, Escape(text)) ==>
      cl.Regex? && IsLiteral(cl.pattern) && Unescape(cl.pattern) == text
  {
    EscapeIsLiteral(text);
    UnescapeEscape(text);
  }

  /** The same for the query's OR-list, whose only other clause is the `_id` one. */
  lemma QueryClausesLiteral(fields: SearchFields, q: string, isValidId: string -> bool)
    ensures forall cl :: cl in QueryClauses(fields, q, isValidId) && cl.Regex? ==>
      IsLiteral(cl.pattern) && Unescape(cl.pattern) == q
  {
    var rs := RegexClauses(fields.queryFields, Escape(q));
    RegexClausesLiteral(fields.queryFields, q);
    assert forall cl :: cl in QueryClauses(fields, q, isValidId) && cl.Regex? ==> cl in rs;
  }

  /**
    No user input reaches a `$regex` unescaped: every pattern in the criteria
    is a literal pattern whose unescaping is the raw query or filter text.
  */
  lemma PatternsAreLiteral(fields: SearchFields, query: Param, filter: Param,
                           active: Param, isValidId: string -> bool)
    requires CriteriaOf(fields, query, filter, active, isValidId).Success?
    ensures var c := CriteriaOf(fields, query, filter, active, isValidId).value;
      c.And? ==> forall t, cl :: t in c.terms && t.AnyOf? && cl in t.clauses && cl.Regex? ==>
        IsLiteral(cl.pattern) &&
        ((query.Given? && Unescape(cl.pattern) == query.text) ||
         (filter.Given? && Unescape(cl.pattern) == filter.text))
  {
    var c := CriteriaOf(fields, query, filter, active, isValidId).value;
    if c.And? {
      var qt := if Truthy(query) then [AnyOf(QueryClauses(fields, query.text, isValidId))] else [];
      var ft := if Truthy(filter) then [AnyOf(RegexClauses(fields.filterFields, Escape(filter.text)))] else [];
      var at := if fields.readsActive && Truthy(active) then [Is(ActiveEq(active == Given("true")))] else [];
      assert c.terms == qt + ft + at;
      if Truthy(query) {
        QueryClausesLiteral(fields, query.text, isValidId);
      }
      if Truthy(filter) {
        RegexClausesLiteral(fields.filterFields, filter.text);
      }
      forall t, cl | t in c.terms && t.AnyOf? && cl in t.clauses && cl.Regex?
        ensures IsLiteral(cl.pattern) &&
          ((query.Given? && Unescape(cl.pattern) == query.text) ||
           (filter.Given? && Unescape(cl.pattern) == filter.text))
      {
        assert t in qt || t in ft;
      }
    }
  }

  /**
    The log search has no `active` term: every term is an OR-list, and the
    filter's list is the single `action` clause.
  */
  lemma LogSearchShape(query: Param, filter: Param, active: Param, isValidId: string -> bool)
    requires CriteriaOf(LogSearch, query, filter, active, isValidId).Success?
    ensures var c := CriteriaOf(LogSearch, query, filter, active, isValidId).value;
      && (c.And? ==> forall t :: t in c.terms ==> t.AnyOf?)
      && (Truthy(filter) ==> c.terms[|c.terms| - 1] == AnyOf([Regex("action", Escape(filter.text))]))
  {
    if Truthy(filter) {
      assert RegexClauses(["action"], Escape(filter.text)) == [Regex("action", Escape(filter.text))];
    }
  }

  /** The user filter searches every query field and also `role`, which the query does not. */
  lemma UserFilterExtendsQuery()
    ensures (set f | f in UserSearch.queryFields) < (set f | f in UserSearch.filterFields)
    ensures "role" in UserSearch.filterFields && "role" !in UserSearch.queryFields
  {
    var q := set f | f in UserSearch.queryFields;
    var fl := set f | f in UserSearch.filterFields;
    assert forall f :: f in UserSearch.queryFields ==> f in UserSearch.filterFields;
    assert UserSearch.filterFields[7] == "role";
    assert "role" in fl && "role" !in q;
  }

  /** A filter OR-list never holds an `_id` clause. */
  lemma FilterHasNoIdClause(fields: SearchFields, f: string)
    ensures forall cl :: cl in RegexClauses(fields.filterFields, Escape(f)) ==> cl.Regex?
  {
  }
}
