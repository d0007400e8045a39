/** A model of the CSRF token guard `froq\csrf\Csrf` (src/Csrf.php).

    The guard holds one optional secret token. PHP's nullable string `?string`
    is `Option<string>`, a thrown `CsrfException` is the `Err` arm of `Result`,
    and PHP's loose truthiness and `== null` are written out as predicates. */
module FroqCsrf {

  datatype Option<+T> = None | Some(value: T)

  /** The one exception the guard throws. */
  datatype CsrfException = CsrfException(message: string)

  const NoTokenMessage: string := "Csrf object has no token, set token first before validation"

  /** The outcome of a call that may throw `CsrfException`. */
  datatype Result<+T> = Ok(value: T) | Err(error: CsrfException)

  /** PHP's boolean conversion of a string: only "" and "0" are falsy. */
  predicate Truthy(s: string) {
    s != "" && s != "0"
  }

  /** PHP's boolean conversion of a `?string`: null is falsy as well. */
  predicate IsTruthy(o: Option<string>) {
    o.Some? && Truthy(o.value)
  }

  /** PHP's loose comparison `$x == null` for a `?string`. Compared with a string,
      null is converted to "" and the two are compared as strings; "" is not a
      numeric string, so only "" itself matches (and "0" does not). */
  predicate LooselyNull(o: Option<string>) {
    match o
    case None => true
    case Some(s) => s == ""
  }

  /** The token a freshly constructed guard holds: `$token && $this->setToken($token)`
      stores the constructor's argument only when it is truthy. */
  function Initial(arg: Option<string>): (r: Option<string>)
    ensures r.Some? <==> IsTruthy(arg)
    ensures r.Some? ==> r == arg
    ensures r != Some("") && r != Some("0")
  {
    if IsTruthy(arg) then arg else None
  }

  /** What `validateToken` computes when the guard holds `stored`: throw when the
      stored token is loosely null, else check that the candidate is truthy and
      identical to the stored token. */
  function Validate(stored: Option<string>, candidate: Option<string>): Result<bool> {
    if LooselyNull(stored) then Err(CsrfException(NoTokenMessage))
    else Ok(IsTruthy(candidate) && candidate == stored)
  }

  class Csrf {
    var token: Option<string>

    /** `new Csrf($token)`: the argument is kept only when it is truthy. */
    constructor (arg: Option<string>)
      ensures token == Initial(arg)
      ensures GetToken() == (if arg == None || arg == Some("") || arg == Some("0") then None else arg)
    {
      token := if IsTruthy(arg) then arg else None;
    }

    /** `setToken`: stores any string, "" and "0" included, and nothing else changes. */
    method SetToken(t: string)
      modifies this`token
      ensures token == Some(t)
      ensures GetToken() == Some(t)
    {
      token := Some(t);
    }

    /** `getToken`: the stored token, or None when none was kept. */
    function GetToken(): (r: Option<string>)
      reads this
      ensures r == token
    {
      token
    }

    /** `validateToken`: `Validate` applied to the stored token. Being a function,
        it cannot change the stored token. */
    function ValidateToken(candidate: Option<string>): (r: Result<bool>)
      reads this
      ensures r == Validate(token, candidate)
      // throws exactly when the stored token is null or ""
      ensures r.Err? <==> token == None || token == Some("")
      ensures r.Err? ==> r.error == CsrfException(NoTokenMessage)
      // otherwise: accepted exactly when identical to a stored token other than "0"
      ensures r.Ok? ==> (r.value <==> candidate == token && token != Some("0"))
      // with a usable token stored, a null, "" or "0" candidate is refused without throwing
      ensures !LooselyNull(token) && !IsTruthy(candidate) ==> r == Ok(false)
      // a stored "0" is never matched
      ensures token == Some("0") ==> r == Ok(false)
    {
      Validate(token, candidate)
    }

    /** `validateTokens`: both truthy and identical. */
    static function ValidateTokens(a: Option<string>, b: Option<string>): (r: bool)
      ensures r <==> a.Some? && a == b && Truthy(a.value)
      ensures a == b ==> (r <==> IsTruthy(a))
      ensures !IsTruthy(a) || !IsTruthy(b) ==> !r
    {
      IsTruthy(a) && IsTruthy(b) && a == b
    }
  }

  /** `validateTokens` does not depend on the order of its arguments. */
  lemma ValidateTokensSymmetric(a: Option<string>, b: Option<string>)
    ensures Csrf.ValidateTokens(a, b) == Csrf.ValidateTokens(b, a)
  {
  }

  /** Once a usable token is stored, `validateToken(c)` is `validateTokens(c, token)`. */
  lemma ValidateIsValidateTokens(stored: Option<string>, candidate: Option<string>)
    requires !LooselyNull(stored)
    ensures Validate(stored, candidate) == Ok(Csrf.ValidateTokens(candidate, stored))
  {
  }

  /** After `setToken(s)`: "" makes validation throw, "0" is never matched, and
      every other token accepts itself and nothing else. */
  lemma SetThenValidate(s: string, candidate: Option<string>)
    ensures s == "" <==> Validate(Some(s), candidate).Err?
    ensures s != "" ==> Validate(Some(s), candidate) == Ok(Truthy(s) && candidate == Some(s))
  {
  }
}
