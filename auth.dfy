/** Django's built-in `User`, as far as the apps read it: the display name
    (`get_full_name()`, falling back to `username`) and the staff flag. An
    anonymous request user is modelled as `None` wherever a user is optional. */
module Users {
  import Text

  datatype User = User(id: nat, username: string, firstName: string, lastName: string, isStaff: bool)

  /** `User.get_full_name()`: "first last" with surrounding whitespace removed. */
  function FullName(u: User): (name: string)
    ensures u.firstName == [] && u.lastName == [] ==> name == []
    ensures u.firstName != [] && u.lastName != [] && Text.NoSpace(u.firstName) && Text.NoSpace(u.lastName)
      ==> name == u.firstName + " " + u.lastName
  {
    Text.JoinName(u.firstName, u.lastName)
  }

  /** `user.get_full_name() or user.username`. */
  function FullNameOrUsername(u: User): (name: string)
    ensures FullName(u) != [] ==> name == FullName(u)
    ensures FullName(u) == [] ==> name == u.username
    ensures name == [] ==> u.username == []
  {
    if FullName(u) != [] then FullName(u) else u.username
  }
}
