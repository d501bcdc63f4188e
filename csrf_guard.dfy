/**
  The request guard of the CSRF middleware (src/CsrfMiddleware.php): a
  per-request decision on the HTTP method and the submitted form token,
  and the middleware object that owns the session's token list.

  A request is abstracted as its method string and its parsed body (absent
  or a string-keyed map); handing the request to the next handler is the
  outcome `Forwarded`, and the two exceptions are the other two outcomes.
 */
module CsrfGuard {
  import opened Wrappers
  import opened TokenStore

  /** What `process` does with one request. */
  datatype Outcome =
    | Forwarded      // passed on to the next handler (exactly once)
    | MissingToken   // NoCsrfException: no value under the form key
    | InvalidToken   // InvalidCsrfException: the value is not a stored token

  /** The outcome of one request together with the session it leaves behind. */
  datatype Transition = Transition(outcome: Outcome, session: Session)

  /** The methods that must carry a token; the comparison is case-sensitive. */
  const MutatingMethods: seq<string> := ["PUT", "POST", "DELETE"]

  predicate IsMutating(requestMethod: string)
    ensures IsMutating(requestMethod) <==>
              requestMethod == "PUT" || requestMethod == "POST" || requestMethod == "DELETE"
  {
    requestMethod in MutatingMethods
  }

  /** `getParsedBody() ?: []`: an absent (or empty) body reads as the empty map. */
  function Body(params: Option<map<string, string>>): (body: map<string, string>)
    ensures params.None? ==> body == map[]
    ensures params.Some? ==> body == params.value
  {
    match params
    case None => map[]
    case Some(m) => m
  }

  /**
    The guard's decision: presence of the form field is checked before
    membership in the stored list, and only mutating methods are checked.
   */
  function Guard(requestMethod: string, body: map<string, string>, tokens: seq<string>, formKey: string): (r: Outcome)
    ensures r == Forwarded <==>
              !IsMutating(requestMethod) || (formKey in body && body[formKey] in tokens)
    ensures r == MissingToken <==> IsMutating(requestMethod) && formKey !in body
    ensures r == InvalidToken <==>
              IsMutating(requestMethod) && formKey in body && body[formKey] !in tokens
  {
    if !IsMutating(requestMethod) then Forwarded
    else if formKey !in body then MissingToken
    else if body[formKey] !in tokens then InvalidToken
    else Forwarded
  }

  /**
    The guard as the source writes it: line 64 throws InvalidCsrfException
    for a missing field, so "missing" cannot be told apart from "invalid".
    (The `$this->formkey` slip of line 63 is read as `formKey` here too.)
   */
  function GuardAsWritten(requestMethod: string, body: map<string, string>, tokens: seq<string>, formKey: string): (r: Outcome)
    ensures r != MissingToken
    ensures r == Forwarded <==>
              !IsMutating(requestMethod) || (formKey in body && body[formKey] in tokens)
  {
    if !IsMutating(requestMethod) then Forwarded
    else if formKey !in body then InvalidToken
    else if body[formKey] !in tokens then InvalidToken
    else Forwarded
  }

  /** The written guard differs from the intended one exactly on the missing-token case. */
  lemma AsWrittenMergesMissingIntoInvalid(requestMethod: string, body: map<string, string>, tokens: seq<string>, formKey: string)
    ensures GuardAsWritten(requestMethod, body, tokens, formKey) ==
            if Guard(requestMethod, body, tokens, formKey) == MissingToken then InvalidToken
            else Guard(requestMethod, body, tokens, formKey)
  {
  }

  /** A POST without a body: the test expects NoCsrfException, the written code throws InvalidCsrfException. */
  lemma AsWrittenPostWithoutBody(tokens: seq<string>, formKey: string)
    ensures GuardAsWritten("POST", Body(None), tokens, formKey) == InvalidToken
    ensures Guard("POST", Body(None), tokens, formKey) == MissingToken
  {
  }

  /**
    One request against the session, as `process` runs it: the guard
    decides, and a forwarded mutating request first consumes its token
    (every copy of it), before the next handler is reached.
   */
  function Handle(session: Session, sessionKey: string, formKey: string,
                  requestMethod: string, params: Option<map<string, string>>): (t: Transition)
    ensures t.outcome == Guard(requestMethod, Body(params), Stored(session, sessionKey), formKey)
    // passthrough and every rejection leave the session as it was
    ensures !IsMutating(requestMethod) || t.outcome != Forwarded ==> t.session == session
    // a consumed token is gone, the other tokens keep their order
    ensures IsMutating(requestMethod) && t.outcome == Forwarded ==>
              var token := Body(params)[formKey];
              t.session == session[sessionKey := RemoveAll(Stored(session, sessionKey), token)] &&
              token !in Stored(t.session, sessionKey)
    // no other session entry changes, and no entry appears or disappears
    ensures t.session.Keys == session.Keys
    ensures forall k | k in session && k != sessionKey :: t.session[k] == session[k]
  {
    var tokens := Stored(session, sessionKey);
    var r := Guard(requestMethod, Body(params), tokens, formKey);
    if IsMutating(requestMethod) && r == Forwarded then
      Transition(r, session[sessionKey := RemoveAll(tokens, Body(params)[formKey])])
    else
      Transition(r, session)
  }

  /** A method outside PUT/POST/DELETE is always forwarded and changes nothing. */
  lemma PassthroughNeverRejects(session: Session, sessionKey: string, formKey: string,
                                requestMethod: string, params: Option<map<string, string>>)
    requires !IsMutating(requestMethod)
    ensures Handle(session, sessionKey, formKey, requestMethod, params) == Transition(Forwarded, session)
  {
  }

  /** The method names are matched exactly: a lower-case "post" is not checked. */
  lemma LowerCasePostPassesThrough(session: Session, sessionKey: string, formKey: string,
                                   params: Option<map<string, string>>)
    ensures Handle(session, sessionKey, formKey, "post", params).outcome == Forwarded
  {
  }

  /** An absent body and an empty body are handled alike. */
  lemma AbsentBodyIsEmpty(session: Session, sessionKey: string, formKey: string, requestMethod: string)
    ensures Handle(session, sessionKey, formKey, requestMethod, None) ==
            Handle(session, sessionKey, formKey, requestMethod, Some(map[]))
  {
  }

  /**
    Single use: once a token has let a mutating request through, the same
    request submitted again is rejected as invalid, and the session is then
    left as the first request left it.
   */
  lemma SingleUse(session: Session, sessionKey: string, formKey: string,
                  requestMethod: string, params: Option<map<string, string>>)
    requires IsMutating(requestMethod)
    requires Handle(session, sessionKey, formKey, requestMethod, params).outcome == Forwarded
    ensures var first := Handle(session, sessionKey, formKey, requestMethod, params);
            Handle(first.session, sessionKey, formKey, requestMethod, params) ==
            Transition(InvalidToken, first.session)
  {
  }

  /**
    Round trip: a token just issued is accepted by the next mutating request
    that carries it, provided it survived eviction (the limit is positive or
    the list was not empty); the request then leaves the issued list without it.
   */
  lemma IssuedTokenAccepted(session: Session, sessionKey: string, formKey: string,
                            limit: int, newToken: string, requestMethod: string)
    requires IsMutating(requestMethod)
    requires 0 < limit || Stored(session, sessionKey) != []
    ensures var issued := session[sessionKey := Issue(Stored(session, sessionKey), newToken, limit)];
            var t := Handle(issued, sessionKey, formKey, requestMethod, Some(map[formKey := newToken]));
            t.outcome == Forwarded &&
            Stored(t.session, sessionKey) == RemoveAll(Stored(issued, sessionKey), newToken)
  {
  }

  /**
    The CSRF middleware. It owns the session mapping (the source shares it
    by PHP reference with the application); the limit and the two keys are
    fixed at construction.
   */
  class CsrfMiddleware {
    var session: Session
    const limit: int
    const sessionKey: string
    const formKey: string

    /**
      The defaults of the source: 50 tokens, session key "csrf.token",
      form key "_csrf". The limit is not checked, as in the source.
     */
    constructor (session: Session, limit: int := 50, sessionKey: string := "csrf.token",
                 formKey: string := "_csrf")
      ensures this.session == session
      ensures this.limit == limit
      ensures GetSessionKey() == sessionKey && GetFormKey() == formKey
    {
      this.session := session;
      this.limit := limit;
      this.sessionKey := sessionKey;
      this.formKey := formKey;
    }

    /** The key under which the token list is stored. */
    function GetSessionKey(): (k: string)
      ensures k == sessionKey
    {
      sessionKey
    }

    /** The form field a mutating request must carry its token in. */
    function GetFormKey(): (k: string)
      ensures k == formKey
    {
      formKey
    }

    /** The stored list is within the limit. */
    predicate Bounded()
      reads this
    {
      |Stored(session, sessionKey)| <= limit
    }

    /**
      Issues `newToken` (the source draws it from `random_bytes(16)` and
      hex-encodes it) and returns it. The source returns `$tokens`, the
      list, from a function declared to return a string; the token is meant.
     */
    method GenerateToken(newToken: string) returns (t: string)
      requires IsToken(newToken)
      modifies this
      ensures t == newToken
      ensures session == old(session)[sessionKey := Issue(old(Stored(session, sessionKey)), newToken, limit)]
      // the token is the newest entry unless the limit evicts it at once
      ensures 0 < limit || old(Stored(session, sessionKey)) != [] ==>
                var tokens := Stored(session, sessionKey);
                tokens != [] && tokens[|tokens| - 1] == t
      ensures old(Bounded()) ==> Bounded()
    {
      t := newToken;
      var tokens := Stored(session, sessionKey);
      tokens := tokens + [t];
      session := session[sessionKey := LimitTokens(tokens, limit)];
    }

    /** Filters every copy of `token` out of the stored list. */
    method RemoveToken(token: string)
      modifies this
      ensures session == old(session)[sessionKey := RemoveAll(old(Stored(session, sessionKey)), token)]
      ensures token !in Stored(session, sessionKey)
    {
      session := session[sessionKey := RemoveAll(Stored(session, sessionKey), token)];
    }

    /**
      Guards one request. The token is consumed before the request is
      forwarded, so it cannot be used again whatever the next handler does.
     */
    method Process(requestMethod: string, params: Option<map<string, string>>) returns (r: Outcome)
      modifies this
      ensures Transition(r, session) == Handle(old(session), sessionKey, formKey, requestMethod, params)
      ensures r == Forwarded <==>
                !IsMutating(requestMethod) ||
                (formKey in Body(params) && Body(params)[formKey] in old(Stored(session, sessionKey)))
      ensures r != Forwarded ==> session == old(session)
      ensures old(Bounded()) ==> Bounded()
    {
      if IsMutating(requestMethod) {
        var body := Body(params);
        // line 63 reads `$this->formkey`, an undefined property; `formKey` is meant
        if formKey !in body {
          // line 64 throws InvalidCsrfException; its doc comment and the tests expect NoCsrfException
          return MissingToken;
        }
        if body[formKey] !in Stored(session, sessionKey) {
          return InvalidToken;
        }
        RemoveToken(body[formKey]);
        return Forwarded;
      }
      return Forwarded;
    }
  }
}
