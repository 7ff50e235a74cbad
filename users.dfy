/** Users of the app: Python objects, so two users are the same user only when
    they are the same object, whatever their names. */
module Users {

  class User {
    const name: string
    const email: string

    constructor (name: string, email: string)
      ensures this.name == name && this.email == email
    {
      this.name := name;
      this.email := email;
    }
  }

  /** [u.name for u in users] */
  function NamesOf(users: seq<User>): (ns: seq<string>)
    ensures |ns| == |users|
    ensures forall i :: 0 <= i < |users| ==> ns[i] == users[i].name
  {
    seq(|users|, i requires 0 <= i < |users| => users[i].name)
  }
}
