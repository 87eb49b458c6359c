/** BCryptPasswordEncoder, as the coordinator uses it: encode hashes a raw
    secret, matches checks a raw secret against a stored hash. The hashing
    itself (and its random salt) is not modelled; the encoder is a pair of
    functions of which only soundness is assumed. */
module Passwords {

  datatype PasswordEncoder = PasswordEncoder(encode: string -> string, matches: (string, string) -> bool)

  /** A hash made from a secret matches that secret. */
  ghost predicate Sound(pe: PasswordEncoder) {
    forall s: string {:trigger pe.encode(s)} :: pe.matches(s, pe.encode(s))
  }
}
