# CSRF middleware: a Dafny model

This project models the CSRF token guard of the PSR-15 middleware
`NEX\Csrf\CsrfMiddleware`. The middleware keeps an ordered list of issued
tokens, oldest first, under one key of the session. It does three things
with that list:

- It issues tokens. Each new token is appended, and the oldest token is
  evicted when the list grows past `limit`.
- It guards requests. A `PUT`, `POST` or `DELETE` request must carry a
  stored token in its form field. Any other method passes through unchecked.
- It consumes tokens. An accepted token is removed from the list before the
  request reaches the next handler, so each token works once.

The model has four modules:

- `Wrappers` (`wrappers.dfy`): `Option`, for a request body that may be absent.
- `TokenStore` (`token_store.dfy`): the token list as a value.
  - `Stored` reads the list; an absent key reads as the empty list.
  - `LimitTokens` is the eviction step, `RemoveAll` the removal step and
    `Issue` one issuance.
  - `IssueMany` is a run of issuances.
  - `IsToken` is the shape of a generated token.
  - The lemmas cover order preservation, FIFO eviction and bounded retention.
- `CsrfGuard` (`csrf_guard.dfy`): the request guard.
  - The outcome type: `Forwarded`, `MissingToken` and `InvalidToken`.
  - The pure decision `Guard` and the transition `Handle` from one session
    to the next.
  - The class `CsrfMiddleware`. Its `session` field is what its methods
    update. `limit`, `sessionKey` and `formKey` are constants, as in the
    source, which never reassigns them.
  - The class methods `GenerateToken`, `RemoveToken` and `Process` are
    imperative. Each is proved to produce exactly the new session that
    `Issue`, `RemoveAll` or `Handle` specifies.
- `Scenarios` (`scenarios.dfy`): the PHPUnit suite's scenarios as methods
  over a fresh middleware, one method per test.

## Reading of the source

`src/CsrfMiddleware.php` contains slips that stop it from running as written.
The model follows the evident intent, and a comment at each affected
definition records the deviation:

- Line 63 reads `$this->formkey`, a property that does not exist. The model
  reads it as `formKey`.
- Line 85 returns `$tokens`, the list, from a function declared to return a
  `string`. The model returns the new token.
- Line 134 counts `$token`, a variable that does not exist. The model counts
  the argument `$tokens`.
- Line 137 lacks its `;`. This is a parse error and has no semantic reading.
- Line 64 throws `InvalidCsrfException` when the form field is missing. The
  `@throws` annotation (line 57) and the test at
  tests/CsrfMiddlewareTest.php:86 expect `NoCsrfException`. The model keeps
  the two outcomes distinct (`MissingToken`, `InvalidToken`). The code as
  written is recorded under "## Findings".

Other points where the model follows the code rather than the general
description of the component:

- The mutating methods are the fixed list `PUT`, `POST`, `DELETE`, matched
  case-sensitively. A lower-case `post` passes through unchecked
  (`LowerCasePostPassesThrough`).
- The constructor does not validate `limit`, and the model does not either
  (`limit: int`). A limit of zero or less evicts on every issuance, so from
  an empty list the new token is dropped at once. `Issue` and `GenerateToken`
  say exactly when the new token survives.
- Eviction removes at most one token per issuance. A list that is already
  over the limit stays at its length and does not shrink to the limit.

## Model

| member | source | states |
|---|---|---|
| TokenStore.IsToken | src/CsrfMiddleware.php:81 | a token is exactly 32 characters, each a digit or a lower-case letter a-f, the shape `bin2hex` gives 16 bytes |
| TokenStore.Stored | src/CsrfMiddleware.php:82 | an absent session key reads as the empty list (`?? []`, also at lines 66 and 105); a non-empty result is the list stored under the key |
| TokenStore.LimitTokens | src/CsrfMiddleware.php:132-138 | a list within the limit is returned unchanged; a list over it loses exactly its oldest (first) token; the length drops by at most one; a list at most one over a non-negative limit ends within it |
| TokenStore.RemoveAll | src/CsrfMiddleware.php:102-110 | no copy of the token remains; every other token remains with its multiplicity (multiset minus all copies); a token not in the list leaves it unchanged; the list does not grow |
| TokenStore.RemoveAllKeepsOrder | src/CsrfMiddleware.php:104-109 | the filtered list is a subsequence of the original: the remaining tokens keep their relative order |
| TokenStore.RemoveAllConcat | src/CsrfMiddleware.php:104-109 | filtering a concatenation filters each part separately, so older tokens stay ahead of newer ones |
| TokenStore.RemoveAllIdempotent | src/CsrfMiddleware.php:102-110 | removing a token a second time changes nothing |
| TokenStore.Issue | src/CsrfMiddleware.php:82-84 | below the limit the new token is appended; at or over it the oldest token makes room and the length stays the same; a list within the limit stays within it; the new token is the last entry exactly when the limit is positive or the list was not empty |
| TokenStore.NewestSurvive | src/CsrfMiddleware.php:79-86 | from a list within the limit, any run of issuances leaves exactly the newest min(n, limit) of all tokens, in issuance order (FIFO eviction) |
| TokenStore.IssueMany | tests/CsrfMiddlewareTest.php:131-133 | a run of issuances, first to last, as repeated `generateToken` calls leave the list; bounded retention: a list within the limit stays within it however many tokens are issued |
| TokenStore.FullAfterLimitIssuances | tests/CsrfMiddlewareTest.php:127-136 | from an empty list, at least `limit` issuances leave exactly `limit` tokens, the newest ones, with the last issued at index limit - 1 |
| CsrfGuard.IsMutating | src/CsrfMiddleware.php:61 | a method is checked exactly when it is one of "PUT", "POST" or "DELETE", compared as exact strings |
| CsrfGuard.Body | src/CsrfMiddleware.php:62 | an absent parsed body reads as the empty map (`?: []`); a present body is used as it is |
| CsrfGuard.Guard | src/CsrfMiddleware.php:61-68 | a request is forwarded iff its method is not mutating or its form value is a stored token; missing token iff mutating with no form field; invalid token iff mutating with a form value that is not stored |
| CsrfGuard.GuardAsWritten | src/CsrfMiddleware.php:61-68 | the code as written, with line 63 read as `formKey`, never yields a missing-token outcome, and it forwards in exactly the same cases as the intended guard (as written line 63 tests the key of the undefined property `$this->formkey`, null, which PHP reads as the key `""`) |
| CsrfGuard.AsWrittenMergesMissingIntoInvalid | src/CsrfMiddleware.php:63-64 | the written guard agrees with the intended one on every input, except that it turns a missing token into an invalid one |
| CsrfGuard.AsWrittenPostWithoutBody | tests/CsrfMiddlewareTest.php:81-88 | a POST without a body is rejected as invalid by the written code, where the test expects the missing-token exception |
| CsrfGuard.Handle | src/CsrfMiddleware.php:59-73 | the outcome is the guard's decision; passthrough and every rejection leave the session unchanged; a forwarded mutating request removes every copy of its token from the stored list (afterwards the token is absent); no other session key changes and no key appears or disappears |
| CsrfGuard.PassthroughNeverRejects | src/CsrfMiddleware.php:72 | a method outside PUT/POST/DELETE is forwarded and leaves the session as it was, whatever its body |
| CsrfGuard.LowerCasePostPassesThrough | src/CsrfMiddleware.php:61 | method matching is exact: "post" is forwarded without a token check |
| CsrfGuard.AbsentBodyIsEmpty | src/CsrfMiddleware.php:62 | a request without a parsed body is handled exactly like one with an empty body |
| CsrfGuard.SingleUse | src/CsrfMiddleware.php:66-69 | after a mutating request has been forwarded on its token, the same request again is rejected as invalid and leaves the session as the first one left it |
| CsrfGuard.IssuedTokenAccepted | tests/CsrfMiddlewareTest.php:93-100 | a token just issued (and not evicted at once) lets the next mutating request through, and that request removes it from the freshly issued list |
| CsrfGuard.CsrfMiddleware.constructor | src/CsrfMiddleware.php:38-50 | the middleware holds the given session, limit, session key and form key, defaulting to 50, "csrf.token" and "_csrf" |
| CsrfGuard.CsrfMiddleware.GetSessionKey | src/CsrfMiddleware.php:115-118 | returns the session key fixed at construction |
| CsrfGuard.CsrfMiddleware.GetFormKey | src/CsrfMiddleware.php:123-126 | returns the form key fixed at construction |
| CsrfGuard.CsrfMiddleware.GenerateToken | src/CsrfMiddleware.php:79-86 | returns the new token; only the session's token-list entry changes, and it becomes the issued list; the token is its last entry unless evicted at once; a list within the limit stays within it |
| CsrfGuard.CsrfMiddleware.RemoveToken | src/CsrfMiddleware.php:102-110 | the token-list entry becomes the old list with every copy of the token filtered out; nothing else in the session changes |
| CsrfGuard.CsrfMiddleware.Process | src/CsrfMiddleware.php:59-73 | the outcome and new session are those of `Handle`; forwarded iff not mutating or the token is stored; a rejection changes nothing; a list within the limit stays within it |
| Scenarios.GetPasses | tests/CsrfMiddlewareTest.php:70-76 | a GET request is forwarded and the session stays empty |
| Scenarios.PostWithoutTokenRejected | tests/CsrfMiddlewareTest.php:81-88 | a POST without a body is rejected for a missing token, so it is not forwarded |
| Scenarios.PostWithValidTokenForwarded | tests/CsrfMiddlewareTest.php:93-100 | a POST with the token just issued is forwarded, and the stored list is empty afterwards |
| Scenarios.PostWithInvalidTokenRejected | tests/CsrfMiddlewareTest.php:105-113 | a POST with "echec" is rejected as invalid, and the issued token stays stored |
| Scenarios.DoubleSubmission | tests/CsrfMiddlewareTest.php:115-125 | the same token submitted twice is forwarded once and rejected as invalid the second time |
| Scenarios.HundredIssuances | tests/CsrfMiddlewareTest.php:127-136 | 100 issuances under the default limit leave exactly 50 tokens, the newest 50 in issuance order, with the last issued at index 49 |

## Left out

- Token generation (`bin2hex(random_bytes(16))`, src/CsrfMiddleware.php:81) reads the operating system's entropy source. `GenerateToken` takes the new token as a parameter instead and requires only that it is 32 lower-case hex digits (`IsToken`). Randomness and uniqueness are not modelled.
- The PSR-7 request and response objects and the PSR-15 delegate are foreign interfaces. A request is its method string and an optional map of body parameters. A call to the delegate is the outcome `Forwarded`, and the response it returns is not modelled.
- The session check in `testSession` (src/CsrfMiddleware.php:92-97) rejects values that are neither arrays nor `ArrayAccess`. Dafny's types make such a value impossible, so the check has no counterpart. The two construction tests (tests/CsrfMiddlewareTest.php:50-65) have none either.
- The session can hold values of any type. Here it maps strings to token lists, because the middleware only ever reads and writes its own entry.
- PHP array keys are not modelled. `array_filter` keeps the original keys, leaving gaps, and `array_shift` renumbers them. The list is a `seq<string>` whose order is the PHP array's insertion order. After a removal, a token's position in the model's list can therefore differ from its PHP key.
- The membership test at line 66 uses loose `in_array`, while `removeToken` compares with strict `!==` (line 107). The model uses exact string equality for both. Under PHP's loose rules two different numeric-looking strings can still compare equal, for example `"0e1"` and `"0e2"`. Such a token would be accepted but not removed, and the model does not capture that case.
- Form values that are not strings are not modelled. Body parameters here are strings only. The source does not declare `strict_types`, so a scalar passed to `removeToken`'s `string` parameter is converted rather than rejected with a `TypeError`. A value reaches that parameter only after passing the loose `in_array` at line 66. For example `{"_csrf": true}` passes whenever the stored list is non-empty, because `true` equals every non-empty string under loose comparison. It is then converted to `"1"`, line 107 removes nothing, and the request is forwarded without consuming a token. An integer equal to an all-digit token behaves the same way. So for non-string form values the source's own checks do not fail closed and do not enforce single use, and the model's `Guard`, `Handle` and `SingleUse` do not describe those requests. A body that `getParsedBody` returns as an object is not modelled either.
- The next handler (`$delegate->process`, line 70) runs after `removeToken`, on the same shared session. Its writes to the session and the exceptions it throws are outside `Handle` and `Process`. The session those members describe, including "passthrough leaves the session unchanged", is the session at the hand-off to the next handler.
- The session is shared with the application by PHP reference. In the model it is a field of the middleware that the application reads back. Aliasing and concurrent requests on one session are not modelled.

## Findings

| source | as written | input that shows it | evidently intended | confidence | as-written member | corrected member |
|---|---|---|---|---|---|---|
| src/CsrfMiddleware.php:63-64 | a mutating request whose body lacks the form field throws InvalidCsrfException, the same exception as a wrong token | a POST with no body; tests/CsrfMiddlewareTest.php:81-88 expects NoCsrfException | throw NoCsrfException, as the @throws annotation at line 57 and the test say, so "missing" and "invalid" stay distinct | high in reading; not executed | CsrfGuard.GuardAsWritten (with CsrfGuard.AsWrittenPostWithoutBody) | CsrfGuard.Guard |
