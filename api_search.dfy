/** The `/search_client` endpoint of the API service: password check, an
    exact `cpf` lookup, and a case-insensitive `name` lookup only when the
    exact one found nothing. */
module ApiSearch {
  import opened Text
  import opened Records
  import opened AccessGate
  import opened RecordStore

  /** Request body. */
  datatype ClientSearch = ClientSearch(searchTerm: string, password: string)

  /** One element of the response list. */
  datatype ClientResponse = ClientResponse(
    cpf: string,
    name: string,
    contractDetails: ContractDetails,
    status: string,
    createdAt: string,
    updatedAt: string)

  /** 401, 500 with the exception text, or 200 with the list. */
  datatype SearchOutcome = Unauthorized | ServerError(detail: string) | Found(clients: seq<ClientResponse>)

  /** The outcome together with the store queries issued, in order. */
  datatype SearchRun = SearchRun(outcome: SearchOutcome, queries: seq<Filter>)

  function ToResponse(c: StoredClient): ClientResponse {
    ClientResponse(c.cpf, c.name, c.contractDetails, c.status, c.createdAt, c.updatedAt)
  }

  /** The list comprehension over `response.data`: one response per row,
      same fields, same order. */
  function ToResponses(rows: seq<StoredClient>): (r: seq<ClientResponse>)
    ensures |r| == |rows|
    ensures forall k :: 0 <= k < |rows| ==>
      r[k].cpf == rows[k].cpf && r[k].name == rows[k].name &&
      r[k].contractDetails == rows[k].contractDetails && r[k].status == rows[k].status &&
      r[k].createdAt == rows[k].createdAt && r[k].updatedAt == rows[k].updatedAt
  {
    seq(|rows|, k requires 0 <= k < |rows| => ToResponse(rows[k]))
  }

  /** The rows behind a response list are determined by it. */
  lemma ToResponsesInjective(a: seq<StoredClient>, b: seq<StoredClient>)
    requires ToResponses(a) == ToResponses(b)
    ensures a == b
  {
    assert |a| == |b|;
    forall k | 0 <= k < |a| ensures a[k] == b[k] {
      assert ToResponses(a)[k] == ToResponses(b)[k];
    }
  }

  /** The name lookup of the second tier, or the 500 it raises. */
  function NameTier(term: string, store: Store): (run: SearchRun)
    ensures run.queries == [CpfEquals(term), NameILike(term)]
    ensures run.outcome.ServerError? <==> NameILike(term) in store.failures
    ensures run.outcome.ServerError? ==> run.outcome.detail == store.failures[NameILike(term)]
    ensures run.outcome.Found? ==>
      forall k :: 0 <= k < |run.outcome.clients| ==> ContainsIgnoringCase(run.outcome.clients[k].name, term)
  {
    match Execute(store, NameILike(term))
    case QueryError(message) => SearchRun(ServerError(message), [CpfEquals(term), NameILike(term)])
    case Rows(data) =>
      if data == [] then SearchRun(Found([]), [CpfEquals(term), NameILike(term)])
      else
        assert forall k :: 0 <= k < |data| ==> data[k] in data;
        SearchRun(Found(ToResponses(data)), [CpfEquals(term), NameILike(term)])
  }

  /** `search_client`. `secret` is `DEMO_PASSWORD`, absent when unset. */
  function SearchClient(request: ClientSearch, secret: Option<string>, store: Store): (run: SearchRun)
    // the password is checked before anything else, and a refusal queries nothing
    ensures !AdmitsAsWritten(Some(request.password), secret) <==> run.outcome == Unauthorized
    ensures run.outcome == Unauthorized ==> run.queries == []
    // otherwise the exact lookup comes first
    ensures run.outcome != Unauthorized ==> 1 <= |run.queries| <= 2 && run.queries[0] == CpfEquals(request.searchTerm)
    // the name lookup is issued exactly when the exact one returned no rows
    ensures |run.queries| == 2 <==>
      run.outcome != Unauthorized && Execute(store, CpfEquals(request.searchTerm)) == Rows([])
    ensures |run.queries| == 2 ==> run.queries[1] == NameILike(request.searchTerm)
    // a store exception becomes a 500 carrying its text: the answer is a 500
    // exactly when the last query issued raises, and the detail is that query's text
    ensures run.outcome.ServerError? ==> run.outcome.detail in store.failures.Values
    ensures run.outcome != Unauthorized ==>
      (run.outcome.ServerError? <==> run.queries[|run.queries| - 1] in store.failures)
    ensures run.outcome.ServerError? ==> run.outcome.detail == store.failures[run.queries[|run.queries| - 1]]
    // a list is never the union of both tiers: it is all exact hits or all name hits
    ensures run.outcome.Found? ==>
      (forall k :: 0 <= k < |run.outcome.clients| ==> run.outcome.clients[k].cpf == request.searchTerm) ||
      (forall k :: 0 <= k < |run.outcome.clients| ==>
         ContainsIgnoringCase(run.outcome.clients[k].name, request.searchTerm))
  {
    if !AdmitsAsWritten(Some(request.password), secret) then
      SearchRun(Unauthorized, [])
    else
      match Execute(store, CpfEquals(request.searchTerm))
      case QueryError(message) => SearchRun(ServerError(message), [CpfEquals(request.searchTerm)])
      case Rows(data) =>
        if data == [] then NameTier(request.searchTerm, store)
        else
          assert forall k :: 0 <= k < |data| ==> data[k] in data;
          SearchRun(Found(ToResponses(data)), [CpfEquals(request.searchTerm)])
  }

  predicate HasExactMatch(store: Store, term: string) {
    exists k :: 0 <= k < |store.rows| && store.rows[k].cpf == term
  }

  /** When some row's `cpf` equals the term, the answer is exactly those
      rows in table order, whatever the names hold, and the name lookup is
      never issued. */
  lemma ExactMatchWins(request: ClientSearch, secret: Option<string>, store: Store)
    requires AdmitsAsWritten(Some(request.password), secret)
    requires CpfEquals(request.searchTerm) !in store.failures
    requires HasExactMatch(store, request.searchTerm)
    ensures SearchClient(request, secret, store) ==
      SearchRun(Found(ToResponses(Select(store.rows, CpfEquals(request.searchTerm)))), [CpfEquals(request.searchTerm)])
  {
    var k :| 0 <= k < |store.rows| && store.rows[k].cpf == request.searchTerm;
    SelectMembers(store.rows, CpfEquals(request.searchTerm));
    assert store.rows[k] in Select(store.rows, CpfEquals(request.searchTerm));
  }

  /** Without an exact hit the answer is the rows whose name contains the
      term ignoring case, in table order (the empty list when there are
      none). */
  lemma FallsBackToName(request: ClientSearch, secret: Option<string>, store: Store)
    requires AdmitsAsWritten(Some(request.password), secret)
    requires CpfEquals(request.searchTerm) !in store.failures
    requires NameILike(request.searchTerm) !in store.failures
    requires !HasExactMatch(store, request.searchTerm)
    ensures SearchClient(request, secret, store) ==
      SearchRun(Found(ToResponses(Select(store.rows, NameILike(request.searchTerm)))),
                [CpfEquals(request.searchTerm), NameILike(request.searchTerm)])
  {
    SelectEmpty(store.rows, CpfEquals(request.searchTerm));
    var byName := Select(store.rows, NameILike(request.searchTerm));
    if byName == [] {
      assert ToResponses(byName) == [];
    }
  }

  /** An empty term with no row whose `cpf` is empty lists the whole
      table. */
  lemma EmptyTermListsEveryRow(password: string, secret: Option<string>, store: Store)
    requires AdmitsAsWritten(Some(password), secret)
    requires CpfEquals("") !in store.failures && NameILike("") !in store.failures
    requires !HasExactMatch(store, "")
    ensures SearchClient(ClientSearch("", password), secret, store).outcome == Found(ToResponses(store.rows))
  {
    FallsBackToName(ClientSearch("", password), secret, store);
    forall k | 0 <= k < |store.rows| ensures Matches(store.rows[k], NameILike("")) {
      EmptyTermMatchesEverything(store.rows[k].name);
    }
    SelectEveryRow(store.rows, NameILike(""));
  }
}
