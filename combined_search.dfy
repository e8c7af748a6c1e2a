/** `search_client` of the single-process Streamlit app: the same two-tier
    lookup as the API, but a store exception is shown on the page and the
    search answers with an empty list instead of failing. */
module CombinedSearch {
  import opened Records
  import opened RecordStore
  import ApiSearch

  /** The `KeyError` reading an unconfigured `demo_password` raises, which
      escapes the search; a refusal (401); or the rows the page displays. */
  datatype CombinedOutcome = SecretMissing | Unauthorized | Listed(data: seq<StoredClient>)

  /** The outcome, the store queries issued in order, and the error message
      shown on the page, if any. */
  datatype CombinedRun = CombinedRun(outcome: CombinedOutcome, queries: seq<Filter>, shownError: Option<string>)

  const BannerPrefix: string := "Error searching client: "

  /** The message `st.error` shows: a fixed prefix, then the exception
      text unchanged. */
  function ErrorBanner(message: string): (banner: string)
    ensures |banner| == |BannerPrefix| + |message|
    ensures banner[..|BannerPrefix|] == BannerPrefix && banner[|BannerPrefix|..] == message
  {
    BannerPrefix + message
  }

  /** `search_client(search_term, password)`; `secret` is the app's
      `demo_password` secret, absent when it is not configured. */
  function SearchClient(term: string, password: string, secret: Option<string>, store: Store): (run: CombinedRun)
    // an unconfigured secret raises before the `try`, so nothing is queried or shown
    ensures secret.None? <==> run.outcome.SecretMissing?
    ensures run.outcome.SecretMissing? ==> run.queries == [] && run.shownError == None
    // a wrong password is refused before any query
    ensures secret.Some? && password != secret.value <==> run.outcome.Unauthorized?
    ensures run.outcome.Unauthorized? ==> run.queries == [] && run.shownError == None
    // otherwise the exact lookup is always issued first
    ensures run.outcome.Listed? ==> 1 <= |run.queries| <= 2 && run.queries[0] == CpfEquals(term)
    // and the name lookup only after the exact one returned no rows
    ensures |run.queries| == 2 <==> run.outcome.Listed? && Execute(store, CpfEquals(term)) == Rows([])
    ensures |run.queries| == 2 ==> run.queries[1] == NameILike(term)
    // an exception never escapes: it is shown and the answer is empty
    ensures run.shownError.Some? ==> run.outcome == Listed([])
    ensures run.shownError.Some? <==>
      run.outcome.Listed? && exists f :: f in run.queries && f in store.failures
  {
    if secret.None? then
      CombinedRun(SecretMissing, [], None)
    else if password != secret.value then
      CombinedRun(Unauthorized, [], None)
    else
      match Execute(store, CpfEquals(term))
      case QueryError(message) => CombinedRun(Listed([]), [CpfEquals(term)], Some(ErrorBanner(message)))
      case Rows(data) =>
        if data != [] then
          CombinedRun(Listed(data), [CpfEquals(term)], None)
        else
          var queries := [CpfEquals(term), NameILike(term)];
          match Execute(store, NameILike(term))
          case QueryError(message) => CombinedRun(Listed([]), queries, Some(ErrorBanner(message)))
          case Rows(named) => CombinedRun(Listed(if named != [] then named else []), queries, None)
  }

  /** The two copies of the search agree except on a store exception: the
      same queries, the same rows where the API answers with a list, a
      refusal where it refuses, and an empty list plus a shown message
      where it answers 500. */
  lemma AgreesWithApi(term: string, password: string, secret: string, store: Store)
    ensures
      var api := ApiSearch.SearchClient(ApiSearch.ClientSearch(term, password), Some(secret), store);
      var app := SearchClient(term, password, Some(secret), store);
      && app.queries == api.queries
      && (api.outcome.Unauthorized? <==> app.outcome.Unauthorized?)
      && (api.outcome.Found? ==>
            app.outcome.Listed? && ApiSearch.ToResponses(app.outcome.data) == api.outcome.clients && app.shownError == None)
      && (api.outcome.ServerError? ==>
            app.outcome == Listed([]) && app.shownError == Some(ErrorBanner(api.outcome.detail)))
  {
    var app := SearchClient(term, password, Some(secret), store);
    if app.outcome == Listed([]) {
      assert ApiSearch.ToResponses([]) == [];
    }
  }
}
