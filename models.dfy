/** The records the store returns: models.User and models.App. */
module Models {
  import opened Bcrypt

  /** A user as the store's User query returns it. */
  datatype User = User(id: int, email: string, passHash: Digest)

  /** A client application; its secret signs the tokens issued for it. */
  datatype App = App(id: int, name: string, secret: string)

  /** Go's zero values, returned beside an error. */
  const ZeroUser := User(0, "", Nil)
  const ZeroApp := App(0, "", "")
}
