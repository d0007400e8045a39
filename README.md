# froq-csrf token guard in Dafny

A model of `froq\csrf\Csrf`, the CSRF guard of the froq framework. An object
holds one optional secret token. `setToken` stores a token, `getToken` returns
it, `validateToken` compares a candidate with it (and throws `CsrfException`
when no usable token is held), and the static `validateTokens` compares two
candidates.

- `csrf.dfy`, module `FroqCsrf`: the class `Csrf` with its field
  `token: Option<string>`, the constructor, `SetToken`, `GetToken`,
  `ValidateToken` and the static `ValidateTokens`. PHP's `?string` is
  `Option<string>`. The thrown exception is `Err(CsrfException(message))`, with
  the source's message. PHP's conversion of a string to bool is `Truthy`: only
  `""` and `"0"` are falsy. PHP's `$x == null` is `LooselyNull`, which holds
  for null and `""` but not for `"0"`.
- `lifecycle.dfy`, module `CsrfLifecycle`: the life of one object as a
  sequence of calls. `Run` replays the calls on the stored token, with `After`
  as the effect of one call. `Apply` makes one call on a real `Csrf` object
  through its members and is proved to change the token as `After` says;
  `Replay` makes a whole sequence and is proved to leave `Run` of it. The
  lemmas about `Run` prove that the last `setToken` decides the token. With no
  `setToken`, the constructor's argument decides it. They also prove that
  queries never change the token, and they state how the guard behaves after
  any sequence of calls.
- `Validate(stored, c)` is the body of `validateToken` on a given stored token;
  `Csrf.ValidateToken(c)` is `Validate(token, c)`, so the lemmas stated with
  `Validate` are about `validateToken`.

Facts about the code that the model keeps:
- `new Csrf()` uses the default argument `null` (src/Csrf.php:48); in the model it is `new Csrf(None)`.
- Comparison is plain `===` (src/Csrf.php:84, 95).
- `setToken` returns void (src/Csrf.php:58).
- `validateToken` throws whenever the stored token is loosely null, that is null
  or `""`, so `setToken("")` puts the object back in the throwing state.
- After `setToken(s)`, `validateToken(s)` throws for `""` and is false for `"0"`
  (`SetThenValidate`).

## Model

| member | source | states |
|---|---|---|
| FroqCsrf.Initial | src/Csrf.php:48-51 | the constructor keeps its argument exactly when it is truthy (non-null, not "" and not "0"), and otherwise leaves the token unset; the kept token is never "" or "0" |
| FroqCsrf.Csrf.constructor | src/Csrf.php:48-51 | a new object's token is `Initial(arg)`; with null, "" or "0", `getToken()` gives null |
| FroqCsrf.Csrf.SetToken | src/Csrf.php:58-61 | after `setToken(s)`, for any string including "" and "0", the field and `getToken()` are `s`; only the `token` field may change |
| FroqCsrf.Csrf.GetToken | src/Csrf.php:67-70 | returns the stored token, None when none was kept; reads only |
| FroqCsrf.Csrf.ValidateToken | src/Csrf.php:78-85 | reads the object and changes nothing; throws `CsrfException` with the source's message exactly when the stored token is null or ""; otherwise true exactly when the candidate is identical to a stored token other than "0"; a null, "" or "0" candidate gives false without throwing; a stored "0" never gives true |
| FroqCsrf.Csrf.ValidateTokens | src/Csrf.php:93-96 | true exactly when both are non-null, identical and truthy; for equal arguments, true exactly when the argument is truthy; false when either is falsy |
| FroqCsrf.ValidateTokensSymmetric | src/Csrf.php:95 | `validateTokens(a, b) == validateTokens(b, a)` |
| FroqCsrf.ValidateIsValidateTokens | src/Csrf.php:84 | once a usable token is stored, `validateToken(c)` returns `validateTokens(c, token)` and does not throw |
| FroqCsrf.SetThenValidate | src/Csrf.php:58-85 | after `setToken(s)`, validation throws exactly when `s` is ""; otherwise it accepts exactly the candidate `s`, and only when `s` is truthy |
| CsrfLifecycle.RunSnoc | src/Csrf.php:58-61 | replaying one more call after a sequence applies that call's effect to the token the sequence left |
| CsrfLifecycle.RunIsLastSetToken | src/Csrf.php:42-70 | after any sequence of calls, the token is the argument of the last `setToken`, or the starting token when there was none |
| CsrfLifecycle.LastSetTokenNone | src/Csrf.php:58-61 | there is no last `setToken` exactly when no call in the sequence is a `setToken` |
| CsrfLifecycle.QueriesKeepToken | src/Csrf.php:67-96 | any sequence of `getToken`, `validateToken` and `validateTokens` calls leaves the stored token unchanged |
| CsrfLifecycle.Apply | src/Csrf.php:58-96 | one call on a real object through the class's members changes the token as `After` says: `setToken(s)` stores `s`, the other calls leave it unchanged |
| CsrfLifecycle.Replay | src/Csrf.php:58-96 | a sequence of calls on a real object leaves exactly the token `Run` computes for it |
| CsrfLifecycle.GuardAfterCalls | src/Csrf.php:48-82 | after construction and any calls, `validateToken` throws exactly when the last `setToken` stored "", or, with no `setToken`, when the constructor's argument was falsy |
| CsrfLifecycle.AcceptedAfterCalls | src/Csrf.php:48-85 | after construction and any calls, `validateToken(c)` is true exactly when `c` is truthy and identical to the last `setToken` argument, or to the constructor's argument when there was none |

## Left out

- `generateToken` (src/Csrf.php:102-105): it returns `sha1(random_bytes(20))`. Randomness and the `sha1` library function are not modelled. No property of its output is claimed.
- Timing: the comparisons use plain `===`, so the model makes no claim about constant-time behaviour.
- The `CsrfException` class itself is not part of this model. It appears only as the `Err` outcome and its message.
- PHP type juggling other than string truthiness and `"" == null`. With `strict_types=1`, only strings or null reach these methods.
