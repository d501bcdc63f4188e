/**
  The token store of the CSRF middleware: the ordered list of issued tokens
  (oldest first) that lives under one key of the session mapping, and the
  pure list operations the middleware applies to it.
 */
module TokenStore {

  /** The session as the middleware sees it: string keys, each holding a token list. */
  type Session = map<string, seq<string>>

  /** A token as `bin2hex(random_bytes(16))` renders it: 32 lower-case hex digits. */
  predicate IsToken(s: string)
    ensures IsToken(s) ==> |s| == 32
    ensures IsToken(s) ==> forall i | 0 <= i < |s| :: '0' <= s[i] <= '9' || 'a' <= s[i] <= 'f'
  {
    |s| == 32 && forall i :: 0 <= i < |s| ==> s[i] in "0123456789abcdef"
  }

  /** The token list under `key`; an absent key reads as the empty list (`?? []`). */
  function Stored(session: Session, key: string): (tokens: seq<string>)
    ensures key !in session ==> tokens == []
    ensures tokens != [] ==> key in session && session[key] == tokens
  {
    if key in session then session[key] else []
  }

  /**
    Eviction: when the list holds more than `limit` tokens, the oldest one
    (the front) is dropped, once. The source reads `count($token)`, an
    undefined variable; the argument `$tokens` is what is meant. Shifting an
    empty list (possible only when `limit` is negative) leaves it empty.
   */
  function LimitTokens(tokens: seq<string>, limit: int): (r: seq<string>)
    ensures |tokens| <= limit ==> r == tokens
    // over the limit exactly one token goes, and it is the oldest
    ensures |tokens| > limit && tokens != [] ==> r == tokens[1..]
    ensures tokens == [] ==> r == []
    ensures |r| <= |tokens| <= |r| + 1
    ensures 0 <= limit && |tokens| <= limit + 1 ==> |r| <= limit
  {
    if |tokens| > limit && tokens != [] then tokens[1..] else tokens
  }

  /**
    Every occurrence of `token` filtered out of the list, compared with `!==`
    (exact string equality); the other tokens keep their order.
   */
  function RemoveAll(tokens: seq<string>, token: string): (r: seq<string>)
    ensures token !in r
    ensures forall x :: x in r <==> x in tokens && x != token
    ensures multiset(r) == multiset(tokens)[token := 0]
    ensures |r| <= |tokens|
    ensures token !in tokens ==> r == tokens
  {
    if tokens == [] then []
    else
      assert tokens == [tokens[0]] + tokens[1..];
      if tokens[0] == token then RemoveAll(tokens[1..], token)
      else [tokens[0]] + RemoveAll(tokens[1..], token)
  }

  /**
    The list after one issuance: `newToken` appended as the newest token, then
    eviction applied.
   */
  function Issue(tokens: seq<string>, newToken: string, limit: int): (r: seq<string>)
    ensures |tokens| < limit ==> r == tokens + [newToken]
    // at or over the limit the oldest token makes room for the new one
    ensures |tokens| >= limit && tokens != [] ==> r == tokens[1..] + [newToken]
    ensures |tokens| >= limit ==> |r| == |tokens|
    ensures |tokens| <= limit ==> |r| <= limit
    // the new token survives unless the list was empty and limit <= 0
    ensures r != [] <==> 0 < limit || tokens != []
    ensures r != [] ==> r[|r| - 1] == newToken
  {
    LimitTokens(tokens + [newToken], limit)
  }

  /**
    The list after issuing every token of `newTokens`, first to last, as
    repeated calls of `generateToken` leave it.
   */
  function IssueMany(tokens: seq<string>, newTokens: seq<string>, limit: int): (r: seq<string>)
    // bounded retention: a list within the limit stays within it
    ensures |tokens| <= limit ==> |r| <= limit
    decreases |newTokens|
  {
    if newTokens == [] then tokens
    else IssueMany(Issue(tokens, newTokens[0], limit), newTokens[1..], limit)
  }

  function Min(a: int, b: int): int {
    if a <= b then a else b
  }

  /** The newest `limit` entries of `all` (all of them when there are fewer). */
  function Newest(all: seq<string>, limit: int): seq<string>
    requires 0 <= limit
  {
    all[|all| - Min(|all|, limit)..]
  }

  /** `a` is `b` with some elements left out, the rest in their order. */
  ghost predicate IsSubsequence(a: seq<string>, b: seq<string>)
    decreases |b|
  {
    a == [] ||
    (b != [] && ((a[0] == b[0] && IsSubsequence(a[1..], b[1..])) || IsSubsequence(a, b[1..])))
  }

  /** Removal keeps the relative order of the tokens that remain. */
  lemma {:induction false} RemoveAllKeepsOrder(tokens: seq<string>, token: string)
    ensures IsSubsequence(RemoveAll(tokens, token), tokens)
  {
    if tokens != [] {
      RemoveAllKeepsOrder(tokens[1..], token);
      if tokens[0] != token {
        assert RemoveAll(tokens, token)[1..] == RemoveAll(tokens[1..], token);
      } else {
        var r := RemoveAll(tokens, token);
        assert r == RemoveAll(tokens[1..], token);
        if r != [] {
          assert IsSubsequence(r, tokens[1..]);
        }
      }
    }
  }

  /** Removal distributes over concatenation: older and newer parts are filtered separately. */
  lemma {:induction false} RemoveAllConcat(a: seq<string>, b: seq<string>, token: string)
    ensures RemoveAll(a + b, token) == RemoveAll(a, token) + RemoveAll(b, token)
  {
    if a != [] {
      assert (a + b)[1..] == a[1..] + b;
      RemoveAllConcat(a[1..], b, token);
    } else {
      assert a + b == b;
    }
  }

  /** Removing a token twice removes nothing more. */
  lemma RemoveAllIdempotent(tokens: seq<string>, token: string)
    ensures RemoveAll(RemoveAll(tokens, token), token) == RemoveAll(tokens, token)
  {
  }

  /**
    Bounded retention with FIFO eviction: starting from a list within the
    limit, any run of issuances leaves exactly the newest min(n, limit)
    tokens of everything issued, in issuance order.
   */
  lemma {:induction false} NewestSurvive(tokens: seq<string>, newTokens: seq<string>, limit: int)
    requires |tokens| <= limit
    ensures IssueMany(tokens, newTokens, limit) == Newest(tokens + newTokens, limit)
    decreases |newTokens|
  {
    var all := tokens + newTokens;
    if newTokens == [] {
      assert all == tokens;
    } else {
      var next := Issue(tokens, newTokens[0], limit);
      var rest := newTokens[1..];
      assert newTokens == [newTokens[0]] + rest;
      assert IssueMany(tokens, newTokens, limit) == IssueMany(next, rest, limit);
      NewestSurvive(next, rest, limit);
      if |tokens| < limit {
        assert next + rest == all;
        assert IssueMany(next, rest, limit) == Newest(all, limit);
      } else {
        assert next == (tokens + [newTokens[0]])[1..];
        assert next + rest == all[1..];
      }
    }
  }

  /**
    From an empty list, issuing at least `limit` tokens leaves exactly
    `limit` of them: the newest, the last one issued at index `limit - 1`.
   */
  lemma {:induction false} FullAfterLimitIssuances(newTokens: seq<string>, limit: int)
    requires 0 < limit <= |newTokens|
    ensures IssueMany([], newTokens, limit) == newTokens[|newTokens| - limit..]
    ensures |IssueMany([], newTokens, limit)| == limit
    ensures IssueMany([], newTokens, limit)[limit - 1] == newTokens[|newTokens| - 1]
  {
    var empty: seq<string> := [];
    NewestSurvive(empty, newTokens, limit);
    assert empty + newTokens == newTokens;
    var r := IssueMany(empty, newTokens, limit);
    assert Min(|newTokens|, limit) == limit;
    assert r == newTokens[|newTokens| - limit..];
    assert r[limit - 1] == newTokens[|newTokens| - limit + (limit - 1)];
  }
}
