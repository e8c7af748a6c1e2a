/** The shared-secret check at the head of every endpoint. The secret comes
    from the `DEMO_PASSWORD` environment variable and is absent when that
    variable is unset; the import endpoint's password is a query parameter
    that is absent when the caller leaves it out. */
module AccessGate {
  import opened Records

  /** The check as the endpoints write it: the request is refused when the
      given password differs from `DEMO_PASSWORD`, comparing the optional
      values, so two absent values count as equal. */
  predicate AdmitsAsWritten(given: Option<string>, secret: Option<string>) {
    given == secret
  }

  /** The check with an unset secret refusing everything. */
  predicate Admits(given: Option<string>, secret: Option<string>) {
    secret.Some? && given == secret
  }

  /** With `DEMO_PASSWORD` unset, the as-written check lets through an
      import request that carries no password at all. */
  lemma MissingPasswordPassesUnsetSecret()
    ensures AdmitsAsWritten(None, None)
    ensures !Admits(None, None)
  {
  }

  /** The corrected check admits exactly a present password equal to a
      configured secret. */
  lemma AdmitsOnlyTheConfiguredSecret(given: Option<string>, secret: Option<string>)
    ensures Admits(given, secret) <==> given.Some? && secret.Some? && given.value == secret.value
  {
  }

  /** For a password that is present (the search body always carries one)
      both checks agree, so only the import endpoint is affected. */
  lemma ChecksAgreeOnPresentPassword(password: string, secret: Option<string>)
    ensures Admits(Some(password), secret) == AdmitsAsWritten(Some(password), secret)
  {
  }
}
