/** A user account: an id derived from the e-mail address, a user name and
    e-mail address kept in normal form, and a password hash. */
module Users {
  import opened Wrappers
  import opened Ids
  import opened Text

  /** The state of a `User` at one moment. */
  datatype UserRecord = UserRecord(id: Uuid, username: string, email: string, passwordHash: Option<string>)

  class User {
    const id: Uuid
    var username: string
    var email: string
    var passwordHash: Option<string>

    /** The id comes from the e-mail address as given; the stored user name
        and e-mail address are lower-cased and trimmed; the hash is kept as
        given. */
    constructor (username: string, email: string, passwordHash: Option<string>)
      ensures id == NameUuidFromBytes(email)
      ensures Record() == UserRecord(NameUuidFromBytes(email), Normalize(username), Normalize(email), passwordHash)
    {
      id := NameUuidFromBytes(email);
      this.username := Normalize(username);
      this.email := Normalize(email);
      this.passwordHash := passwordHash;
    }

    function Record(): UserRecord
      reads this
    {
      UserRecord(id, username, email, passwordHash)
    }

    method SetUsername(username: string)
      modifies this`username
      ensures Record() == old(Record()).(username := Normalize(username))
    {
      this.username := Normalize(username);
    }

    method SetEmail(email: string)
      modifies this`email
      ensures Record() == old(Record()).(email := Normalize(email))
    {
      this.email := Normalize(email);
    }

    method SetPasswordHash(passwordHash: Option<string>)
      modifies this`passwordHash
      ensures Record() == old(Record()).(passwordHash := passwordHash)
    {
      this.passwordHash := passwordHash;
    }
  }

  /** A stored user name or e-mail address is already in normal form, so
      setting it again leaves it unchanged. */
  lemma StoredNamesAreNormal(username: string, email: string)
    ensures Normalize(Normalize(username)) == Normalize(username)
    ensures Normalize(Normalize(email)) == Normalize(email)
  {
    NormalizeIdempotent(username);
    NormalizeIdempotent(email);
  }

  /** The id depends on the raw e-mail address only: the same address gives
      the same id, while two spellings that normalise to the same stored
      address give different ids. */
  lemma IdFollowsRawEmail(e1: string, e2: string)
    ensures NameUuidFromBytes(e1) == NameUuidFromBytes(e2) <==> e1 == e2
    ensures Normalize("Ahmed@Mail.com ") == Normalize("ahmed@mail.com")
    ensures NameUuidFromBytes("Ahmed@Mail.com ") != NameUuidFromBytes("ahmed@mail.com")
  {
    var mixed, plain := "Ahmed@Mail.com", "ahmed@mail.com";
    assert ToLower(mixed) == plain;
    assert ToLower(plain) == plain;
    assert mixed + " " == "Ahmed@Mail.com ";
    NormalizeTrailingBlank(mixed);
    NormalizeUnpadded(plain);
  }
}
