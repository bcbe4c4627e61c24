/** Password hashing as the service uses it: GenerateFromPassword at the
    default cost, and CompareHashAndPassword. The algorithm is not modelled:
    a digest is a symbolic term recording the cost, the random salt and the
    password it was made from, and the only facts the service relies on are
    the ones proved below. */
module Bcrypt {
  import opened Errors

  /** bcrypt.DefaultCost. */
  const DefaultCost: nat := 10

  /** The random salt GenerateFromPassword draws; its value is irrelevant. */
  type Salt = nat

  /** Nil is Go's nil byte slice, the hash of a zero models.User. */
  datatype Digest = Nil | Hashed(cost: nat, salt: Salt, preimage: string)

  /** bcrypt.GenerateFromPassword(password, DefaultCost). `salt` is the
      outcome of the hashing call: Some(s) is a digest made with salt s, and
      None says that hashing failed, for whatever reason the library has
      (an unreadable random source, a password it refuses). */
  function GenerateFromPassword(password: string, salt: Option<Salt>): (r: Ret<Digest>)
    ensures r.Ok() <==> salt.Some?
    ensures !r.Ok() ==> r == Ret(Nil, Some(Sentinel(Other)))
  {
    match salt
    case None => Ret(Nil, Some(Sentinel(Other)))
    case Some(s) => Ret(Hashed(DefaultCost, s, password), None)
  }

  /** bcrypt.CompareHashAndPassword(hash, password) == nil. A nil hash
      matches nothing, and a default-cost digest matches a password exactly
      when generating from that password with the digest's salt gives it. */
  predicate CompareHashAndPassword(hash: Digest, password: string): (ok: bool)
    ensures ok ==> hash != Nil
    ensures hash.Hashed? && hash.cost == DefaultCost ==>
      (ok <==> hash == GenerateFromPassword(password, Some(hash.salt)).value)
  {
    hash.Hashed? && hash.preimage == password
  }

  /** A digest made from a password matches that password, whatever salt
      was drawn. */
  lemma GeneratedHashMatches(password: string, salt: Salt)
    ensures GenerateFromPassword(password, Some(salt)).Ok()
    ensures CompareHashAndPassword(GenerateFromPassword(password, Some(salt)).value, password)
  {
  }

  /** A digest matches no password other than the one it was made from. */
  lemma GeneratedHashRejectsOthers(password: string, other: string, salt: Salt)
    requires other != password
    ensures !CompareHashAndPassword(GenerateFromPassword(password, Some(salt)).value, other)
  {
  }
}
