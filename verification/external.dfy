/**
 * The collaborators whose code is not part of this model: bcrypt, jsonwebtoken,
 * the file-storage dispatcher and Stripe. Each is a function the caller
 * supplies; nothing is assumed about it beyond its type.
 */
module External {
  import opened Wrappers
  import opened QueryUtils

  datatype Env = Env(
    /** `bcrypt.hash(password, 12)`, with the salt folded in. */
    hash: string -> string,
    /** `bcrypt.compare(plain, hashed)`. */
    compare: (string, string) -> bool,
    /** `jwt.sign({ id }, AUTH_JWT_SECRET, { expiresIn })`. */
    sign: Id -> string,
    /** `FileStorage.downloadUrl(name, privateUrl)`. */
    storageDownloadUrl: (Option<string>, Option<string>) -> string,
    /**
     * `stripe.paymentIntents.create({ amount, currency, metadata: { confirmationId } })`,
     * giving the intent's `client_secret` (possibly absent) or Stripe's error.
     */
    paymentIntent: (int, string, Option<string>) -> Result<Option<string>>)

  /** bcrypt refuses a missing text with an error. */
  function Hash(env: Env, password: Option<string>): (r: Result<string>)
    ensures password.None? <==> r == Err(HashError)
    ensures password.Some? ==> r == Ok(env.hash(password.value))
  {
    if password.None? then Err(HashError) else Ok(env.hash(password.value))
  }

  /** `bcrypt.compare` refuses a missing plain text or a missing hash. */
  function Compare(env: Env, plain: Option<string>, hashed: Option<string>): (r: Result<bool>)
    ensures plain.None? || hashed.None? <==> r == Err(HashError)
    ensures plain.Some? && hashed.Some? ==> r == Ok(env.compare(plain.value, hashed.value))
  {
    if plain.None? || hashed.None? then Err(HashError) else Ok(env.compare(plain.value, hashed.value))
  }
}
