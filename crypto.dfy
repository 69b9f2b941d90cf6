/**
 * The foreign primitives the user manager calls: bcrypt's `hashSync`/`compareSync`, an MD5 hex
 * digest and `jsonwebtoken`'s `sign`, with `jsonwebtoken`'s `verify` to say what a signed token
 * carries. Their internals are not modelled; the manager receives them
 * as functions and relies only on the properties collected in `Sound`.
 */
module Crypto {
  import opened Wrappers

  /** The payload of a session token: who it is for, what they may open, and its lifetime in seconds. */
  datatype Claims = Claims(username: string, routes: seq<string>, expiresIn: nat)

  /**
   * `hash` is bcrypt's `hashSync(_, 10)`, `verify(x, h)` is `compareSync(x, h)`, `md5` is the
   * hex MD5 digest, `sign(claims, secret)` is the signed token and `decode(token, secret)` is
   * `verify(token, secret)`: the claims of a token that checks out under the secret, or nothing.
   */
  datatype Primitives = Primitives(
    hash: string -> string,
    verify: (string, string) -> bool,
    md5: string -> string,
    sign: (Claims, string) -> string,
    decode: (string, string) -> Option<Claims>)

  /**
   * What the model assumes of the primitives: a hash verifies exactly the string it was made
   * from, an MD5 hex digest is always 32 characters long, and a token decodes under the secret
   * it was signed with to the claims it was signed from.
   */
  ghost predicate Sound(p: Primitives)
  {
    && (forall x, y :: p.verify(x, p.hash(y)) <==> x == y)
    && (forall x :: |p.md5(x)| == 32)
    && (forall c, k :: p.decode(p.sign(c, k), k) == Some(c))
  }
}
