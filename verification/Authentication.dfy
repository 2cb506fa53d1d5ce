/** Reading a credential: `valid`, `matches` and `authenticated`. */
module Authentication {
  import opened Prelude
  import opened Text
  import opened Model

  /** `bcrypt.checkpw`: a stored text that is not a bcrypt text is an invalid salt. */
  function CheckPw(secret: string, stored: Stored): Result<bool, Error> {
    match stored
    case Hash(_, hashed) => Ok(secret == hashed)
    case Plain(_) => Err(ValueError)
  }

  /** Subtokens are compared as stored text, root tokens through bcrypt. */
  function Matches(secret: string, t: Token): Result<bool, Error> {
    if Truthy(t.parent) then Ok(secret == t.value.text) else CheckPw(secret, t.value)
  }

  /** The row whose window bounds `t`: its immediate parent when there is one, else `t` itself. */
  function Bounds(tokens: map<Id, Token>, t: Token): Token {
    if Truthy(t.parent) && t.parent.value in tokens then tokens[t.parent.value] else t
  }

  predicate Valid(tokens: map<Id, Token>, t: Token, now: int) {
    t.active && Bounds(tokens, t).nbf < now < Bounds(tokens, t).exp
  }

  /** `authenticated`; an absent token is not valid. */
  function Authenticated(tokens: map<Id, Token>, x: string, now: int): Result<bool, Error> {
    match Parse(x)
    case None => Err(ValueError)
    case Some((id, secret)) =>
      if id !in tokens || !Valid(tokens, tokens[id], now) then Ok(false) else Matches(secret, tokens[id])
  }
}
