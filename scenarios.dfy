/**
  The behaviour the PHPUnit suite (tests/CsrfMiddlewareTest.php) describes,
  stated of the model: each method builds a middleware over an empty
  session with the default configuration and drives it with requests. A
  request's outcome stands for the mocked next handler: `Forwarded` is one
  call to it, a rejection is none.
 */
module Scenarios {
  import opened Wrappers
  import opened TokenStore
  import opened CsrfGuard

  /** A GET request passes without a token, and the session stays empty. */
  method GetPasses() returns (r: Outcome, session: Session)
    ensures r == Forwarded && session == map[]
  {
    var m := new CsrfMiddleware(map[]);
    r := m.Process("GET", None);
    session := m.session;
  }

  /** A POST without a body is rejected for its missing token and not forwarded. */
  method PostWithoutTokenRejected() returns (r: Outcome)
    ensures r == MissingToken
  {
    var m := new CsrfMiddleware(map[]);
    r := m.Process("POST", None);
  }

  /** A POST carrying a freshly issued token is forwarded, and the token is used up. */
  method PostWithValidTokenForwarded(newToken: string) returns (r: Outcome, remaining: seq<string>)
    requires IsToken(newToken)
    ensures r == Forwarded && remaining == []
  {
    var m := new CsrfMiddleware(map[]);
    var token := m.GenerateToken(newToken);
    r := m.Process("POST", Some(map[m.GetFormKey() := token]));
    remaining := Stored(m.session, m.GetSessionKey());
  }

  /** A POST carrying a string that was never issued is rejected as invalid. */
  method PostWithInvalidTokenRejected(newToken: string) returns (r: Outcome, remaining: seq<string>)
    requires IsToken(newToken)
    ensures r == InvalidToken && remaining == [newToken]
  {
    var m := new CsrfMiddleware(map[]);
    var token := m.GenerateToken(newToken);
    r := m.Process("POST", Some(map[m.GetFormKey() := "echec"]));
    remaining := Stored(m.session, m.GetSessionKey());
  }

  /** The same token twice: forwarded the first time, rejected as invalid the second. */
  method DoubleSubmission(newToken: string) returns (first: Outcome, second: Outcome)
    requires IsToken(newToken)
    ensures first == Forwarded && second == InvalidToken
  {
    var m := new CsrfMiddleware(map[]);
    var token := m.GenerateToken(newToken);
    first := m.Process("POST", Some(map[m.GetFormKey() := token]));
    second := m.Process("POST", Some(map[m.GetFormKey() := token]));
  }

  /**
    One hundred issuances under the default limit of 50 leave exactly 50
    tokens, the newest ones in issuance order, the last issued at index 49.
   */
  method HundredIssuances(newTokens: seq<string>) returns (stored: seq<string>, last: string)
    requires |newTokens| == 100
    requires forall i :: 0 <= i < |newTokens| ==> IsToken(newTokens[i])
    ensures |stored| == 50 && stored == newTokens[50..]
    ensures last == newTokens[99] && stored[49] == last
  {
    var m := new CsrfMiddleware(map[]);
    last := "";
    var i := 0;
    while i < 100
      invariant 0 <= i <= 100
      invariant Stored(m.session, m.GetSessionKey()) == newTokens[(if i <= 50 then 0 else i - 50)..i]
      invariant i > 0 ==> last == newTokens[i - 1]
    {
      ghost var before := Stored(m.session, m.GetSessionKey());
      last := m.GenerateToken(newTokens[i]);
      if i < 50 {
        assert newTokens[0..i + 1] == before + [newTokens[i]];
      } else {
        assert newTokens[i + 1 - 50..i + 1] == before[1..] + [newTokens[i]];
      }
      i := i + 1;
    }
    stored := Stored(m.session, m.GetSessionKey());
  }
}
