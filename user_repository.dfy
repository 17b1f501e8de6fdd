/** The user store: a hash map from user id to user object, kept in memory
    (the file it is saved to is not part of this model). */
module UserRepository {
  import opened Wrappers
  import opened Ids
  import opened Text
  import opened Users

  /** The e-mail address or the user name of `u`. */
  function Field(u: User, byEmail: bool): string
    reads u
  {
    if byEmail then u.email else u.username
  }

  class UserFileRepository {
    var users: map<Uuid, User>

    /** A repository whose file is missing or empty. */
    constructor ()
      ensures users == map[]
    {
      users := map[];
    }

    /** The outcome of a lookup of `query` on the field `field` of the stored
        users: a null query finds nothing; otherwise the query is lower-cased
        and trimmed, and the result is a stored user whose field equals it,
        or null when no stored user's field does. */
    predicate Found(query: Option<string>, byEmail: bool, r: User?)
      reads this, users.Values
    {
      if query.None? then r == null
      else if r != null then r in users.Values && Field(r, byEmail) == Normalize(query.value)
      else forall u :: u in users.Values ==> Field(u, byEmail) != Normalize(query.value)
    }

    /** The lookup loop of `getUserByEmail` and `getUserByUsername`: the
        stored users are visited in the map's iteration order (any order)
        and the first whose field equals `clean` is returned. */
    method Lookup(clean: string, byEmail: bool) returns (r: User?)
      ensures r != null ==> r in users.Values && Field(r, byEmail) == clean
      ensures r == null ==> forall u :: u in users.Values ==> Field(u, byEmail) != clean
    {
      var remaining := users.Values;
      while remaining != {}
        invariant remaining <= users.Values
        invariant forall u :: u in users.Values - remaining ==> Field(u, byEmail) != clean
        decreases remaining
      {
        var u :| u in remaining;
        if Field(u, byEmail) == clean {
          return u;
        }
        remaining := remaining - {u};
      }
      return null;
    }

    /** `add`: refuses null and an id already present; otherwise stores the
        user under its own id. */
    method Add(user: User?) returns (ok: bool)
      modifies this
      ensures ok <==> user != null && user.id !in old(users)
      ensures users == if ok then old(users)[user.id := user] else old(users)
    {
      if user == null || user.id in users {
        return false;
      }
      users := users[user.id := user];
      return true;
    }

    /** `getUserById`: the stored user, or null (for a null id too). */
    function GetUserById(userId: Option<Uuid>): (u: User?)
      reads this
      ensures u != null <==> userId.Some? && userId.value in users
      ensures u != null ==> u == users[userId.value]
    {
      if userId.Some? && userId.value in users then users[userId.value] else null
    }

    /** `removeUser`: true exactly when something was stored under the id,
        and only that entry goes. */
    method RemoveUser(userId: Option<Uuid>) returns (ok: bool)
      modifies this
      ensures ok <==> userId.Some? && userId.value in old(users)
      ensures users == if ok then old(users) - {userId.value} else old(users)
    {
      if userId.None? || userId.value !in users {
        return false;
      }
      users := users - {userId.value};
      return true;
    }

    /** `getUserByEmail`. */
    method GetUserByEmail(email: Option<string>) returns (r: User?)
      ensures Found(email, true, r)
    {
      if email.None? {
        return null;
      }
      r := Lookup(Normalize(email.value), true);
    }

    /** `getUserByUsername`. */
    method GetUserByUsername(username: Option<string>) returns (r: User?)
      ensures Found(username, false, r)
    {
      if username.None? {
        return null;
      }
      r := Lookup(Normalize(username.value), false);
    }

    /** `updatePasswordHash`: nothing happens for a null id, a null hash or
        an unknown id; otherwise the stored user's hash is replaced. Every
        key under which that same object is stored sees the change, and no
        other user changes. */
    method UpdatePasswordHash(userId: Option<Uuid>, hash: Option<string>)
      modifies users.Values
      ensures forall u ::
                u in users.Values && (userId.None? || hash.None? || userId.value !in users || u != users[userId.value]) ==>
                u.Record() == old(u.Record())
      ensures userId.Some? && hash.Some? && userId.value in users ==>
                users[userId.value].Record() == old(users[userId.value].Record()).(passwordHash := hash)
    {
      if userId.None? || hash.None? {
        return;
      }
      var user := GetUserById(userId);
      if user == null {
        return;
      }
      user.SetPasswordHash(hash);
    }
  }
}
