/** The user account entity. */
module DomainUser {
  import opened Wrappers

  type Time = int

  datatype UserView = UserView(
    id: string,
    email: string,
    username: string,
    passwordHash: string,
    fullName: string,
    avatarUrl: string,
    isActive: bool,
    lastLoginAt: Option<Time>,
    createdAt: Time,
    updatedAt: Time)

  /** The account NewUser builds; the fresh identifier and the current instant are parameters. */
  function NewUserView(newId: string, email: string, username: string, passwordHash: string, now: Time): (u: UserView)
    ensures u.id == newId && u.email == email && u.username == username && u.passwordHash == passwordHash
    ensures u.isActive && u.fullName == "" && u.avatarUrl == ""
    ensures u.createdAt == u.updatedAt == now && u.lastLoginAt.None?
  {
    UserView(newId, email, username, passwordHash, "", "", true, None, now, now)
  }

  /** A user as a mutable object; its fields are kept together as one record value. */
  class User {
    var data: UserView

    function View(): UserView
      reads this
    {
      data
    }

    /** NewUser */
    constructor (newId: string, email: string, username: string, passwordHash: string, now: Time)
      ensures View() == NewUserView(newId, email, username, passwordHash, now)
    {
      data := NewUserView(newId, email, username, passwordHash, now);
    }

    /** A user object holding the given field values, as a repository read returns it. */
    constructor FromView(u: UserView)
      ensures View() == u
    {
      data := u;
    }

    /** Records a login at `now`: LastLoginAt and UpdatedAt become the same instant, nothing else changes. */
    method UpdateLastLogin(now: Time)
      modifies this
      ensures View().lastLoginAt == Some(now) && View().updatedAt == now
      ensures View() == old(View()).(lastLoginAt := Some(now), updatedAt := now)
    {
      data := data.(lastLoginAt := Some(now), updatedAt := now);
    }

    /** An assignment to FullName, as Register does for a non-empty full name. */
    method SetFullName(name: string)
      modifies this
      ensures View() == old(View()).(fullName := name)
    {
      data := data.(fullName := name);
    }
  }
}
