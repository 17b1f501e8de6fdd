/** Sign-up, log-in and the session's current user, with the three input
    validators stated as character-class predicates equivalent to their
    regular expressions. */
module Auth {
  import opened Wrappers
  import opened Ids
  import opened Text
  import opened Users
  import opened UserRepository

  predicate IsAsciiDigit(c: char) {
    '0' <= c <= '9'
  }

  predicate IsAsciiLetter(c: char) {
    'a' <= c <= 'z' || 'A' <= c <= 'Z'
  }

  /** `\w` of java.util.regex (without UNICODE_CHARACTER_CLASS). */
  predicate IsWordChar(c: char) {
    IsAsciiLetter(c) || IsAsciiDigit(c) || c == '_'
  }

  /** `[\w-]`: a character of a domain label, and of a user name. */
  predicate IsLabelChar(c: char) {
    IsWordChar(c) || c == '-'
  }

  /** The characters `.` does not match: the line terminators of
      java.util.regex. */
  predicate IsLineTerminator(c: char) {
    c == '\n' || c == '\r' || c == '\U{0085}' || c == '\U{2028}' || c == '\U{2029}'
  }

  /** `[\w.-]+`: the part of an e-mail address before `@`. */
  predicate IsLocalPart(s: string) {
    |s| >= 1 && forall i :: 0 <= i < |s| ==> IsLabelChar(s[i]) || s[i] == '.'
  }

  /** `([\w-]+\.)+`: one or more labels, each followed by a dot. */
  predicate IsDottedLabels(s: string) {
    && |s| >= 2 && s[0] != '.' && s[|s| - 1] == '.'
    && forall i {:trigger s[i]} :: 0 <= i < |s| ==> IsLabelChar(s[i]) || (s[i] == '.' && i > 0 && s[i - 1] != '.')
  }

  /** `[\w-]{2,6}`: the last label. */
  predicate IsFinalLabel(s: string) {
    2 <= |s| <= 6 && forall i :: 0 <= i < |s| ==> IsLabelChar(s[i])
  }

  /** `d` splits at `j` into dotted labels and a final label. */
  predicate DomainSplitAt(d: string, j: int) {
    0 < j < |d| && IsDottedLabels(d[..j]) && IsFinalLabel(d[j..])
  }

  /** `([\w-]+\.)+[\w-]{2,6}`: the part of an e-mail address after `@`. */
  predicate IsDomain(d: string) {
    exists j :: 0 < j < |d| && DomainSplitAt(d, j)
  }

  /** `s` splits at an `@` at `i` into a local part and a domain. */
  predicate EmailSplitAt(s: string, i: int) {
    0 <= i < |s| && s[i] == '@' && IsLocalPart(s[..i]) && IsDomain(s[i + 1..])
  }

  /** `isEmailValid`: false for null; otherwise the whole address matches
      `^[\w.-]+@([\w-]+\.)+[\w-]{2,6}$`. */
  predicate IsEmailValid(email: Option<string>): (b: bool)
    ensures email.None? ==> !b
    ensures b ==> |email.value| >= 6 && email.value[0] != '@' && email.value[|email.value| - 1] != '.'
  {
    email.Some? && exists i :: 0 <= i < |email.value| && EmailSplitAt(email.value, i)
  }

  /** `isPasswordValid`: false for null; otherwise the whole password matches
      `^(?=.*\d).{8,}$`: at least eight characters, none a line terminator,
      one of them an ASCII digit. */
  predicate IsPasswordValid(password: Option<string>): (b: bool)
    ensures password.None? ==> !b
    ensures password.Some? && |password.value| < 8 ==> !b
    ensures password.Some? && (forall i :: 0 <= i < |password.value| ==> !IsAsciiDigit(password.value[i])) ==> !b
  {
    && password.Some?
    && |password.value| >= 8
    && (forall i :: 0 <= i < |password.value| ==> !IsLineTerminator(password.value[i]))
    && exists i :: 0 <= i < |password.value| && IsAsciiDigit(password.value[i])
  }

  /** `isUsernameValid`: false for null; otherwise the whole name matches
      `^[a-zA-Z0-9_-]{3,20}$`. */
  predicate IsUsernameValid(username: Option<string>): (b: bool)
    ensures username.None? ==> !b
    ensures b ==> 3 <= |username.value| <= 20 && ' ' !in username.value && '@' !in username.value
  {
    && username.Some?
    && 3 <= |username.value| <= 20
    && forall i :: 0 <= i < |username.value| ==> IsLabelChar(username.value[i])
  }

  /** Lower-casing keeps every character class the validators use. */
  lemma LowerKeepsClasses(c: char)
    ensures IsLabelChar(ToLowerChar(c)) <==> IsLabelChar(c)
    ensures ToLowerChar(c) == '.' <==> c == '.'
    ensures ToLowerChar(c) == '@' <==> c == '@'
  {
  }

  /** `l` is `s` with every character lower-cased. */
  predicate LowerOf(l: string, s: string) {
    |l| == |s| && forall k :: 0 <= k < |s| ==> l[k] == ToLowerChar(s[k])
  }

  lemma LowerOfSlice(l: string, s: string, i: nat, j: nat)
    requires LowerOf(l, s) && i <= j <= |s|
    ensures LowerOf(l[i..j], s[i..j])
  {
    var ls, ss := l[i..j], s[i..j];
    forall k | 0 <= k < j - i
      ensures ls[k] == ToLowerChar(ss[k])
    {
      assert ls[k] == l[i + k] && ss[k] == s[i + k];
    }
  }

  lemma LowerLocalPart(l: string, s: string)
    requires IsLocalPart(s) && LowerOf(l, s)
    ensures IsLocalPart(l)
  {
    forall k | 0 <= k < |s|
      ensures IsLabelChar(l[k]) || l[k] == '.'
    {
      LowerKeepsClasses(s[k]);
    }
  }

  lemma LowerDottedLabels(l: string, s: string)
    requires IsDottedLabels(s) && LowerOf(l, s)
    ensures IsDottedLabels(l)
  {
    LowerKeepsClasses(s[0]);
    LowerKeepsClasses(s[|s| - 1]);
    forall k | 0 <= k < |s|
      ensures IsLabelChar(l[k]) || (l[k] == '.' && k > 0 && l[k - 1] != '.')
    {
      assert IsLabelChar(s[k]) || (s[k] == '.' && k > 0 && s[k - 1] != '.');
      LowerKeepsClasses(s[k]);
      if k > 0 {
        LowerKeepsClasses(s[k - 1]);
      }
    }
  }

  lemma LowerFinalLabel(l: string, s: string)
    requires IsFinalLabel(s) && LowerOf(l, s)
    ensures IsFinalLabel(l)
  {
    forall k | 0 <= k < |s|
      ensures IsLabelChar(l[k])
    {
      LowerKeepsClasses(s[k]);
    }
  }

  /** The characters after the `@` of a valid address: word characters,
      hyphens and dots. */
  lemma DomainChars(d: string)
    requires IsDomain(d)
    ensures forall k :: 0 <= k < |d| ==> IsLabelChar(d[k]) || d[k] == '.'
  {
    var j :| 0 < j < |d| && DomainSplitAt(d, j);
    var labels, last := d[..j], d[j..];
    forall k | 0 <= k < |d|
      ensures IsLabelChar(d[k]) || d[k] == '.'
    {
      if k < j {
        assert labels[k] == d[k];
        assert IsLabelChar(labels[k]) || labels[k] == '.';
      } else {
        assert last[k - j] == d[k];
        assert IsLabelChar(last[k - j]);
      }
    }
  }

  /** The characters of a valid e-mail address: one `@`, and otherwise only
      word characters, dots and hyphens. */
  lemma ValidEmailChars(s: string) returns (at: nat)
    requires IsEmailValid(Some(s))
    ensures at < |s| && s[at] == '@'
    ensures forall k :: 0 <= k < |s| && k != at ==> IsLabelChar(s[k]) || s[k] == '.'
  {
    at :| 0 <= at < |s| && EmailSplitAt(s, at);
    var local, d := s[..at], s[at + 1..];
    DomainChars(d);
    forall k | 0 <= k < |s| && k != at
      ensures IsLabelChar(s[k]) || s[k] == '.'
    {
      if k < at {
        assert local[k] == s[k];
      } else {
        assert d[k - at - 1] == s[k];
      }
    }
  }

  /** A valid e-mail address has exactly one `@`: neither part may hold
      one. */
  lemma EmailHasOneAt(s: string)
    requires IsEmailValid(Some(s))
    ensures exists i :: 0 <= i < |s| && s[i] == '@'
    ensures forall i, j :: 0 <= i < |s| && 0 <= j < |s| && s[i] == '@' && s[j] == '@' ==> i == j
  {
    var at := ValidEmailChars(s);
  }

  /** A valid user name contains no blank, so the stored form is its plain
      lower-case form, which is valid again. */
  lemma ValidUsernameNormalForm(s: string)
    requires IsUsernameValid(Some(s))
    ensures Normalize(s) == ToLower(s)
    ensures IsUsernameValid(Some(Normalize(s)))
  {
    var l := ToLower(s);
    forall k | 0 <= k < |s|
      ensures IsLabelChar(l[k])
    {
      LowerKeepsClasses(s[k]);
    }
    NormalizeUnpadded(s);
  }

  lemma LowerDomainSplit(l: string, d: string, j: int)
    requires DomainSplitAt(d, j) && LowerOf(l, d)
    ensures DomainSplitAt(l, j)
  {
    LowerOfSlice(l, d, 0, j);
    assert l[0..j] == l[..j] && d[0..j] == d[..j];
    LowerDottedLabels(l[..j], d[..j]);
    LowerOfSlice(l, d, j, |d|);
    assert l[j..|d|] == l[j..] && d[j..|d|] == d[j..];
    LowerFinalLabel(l[j..], d[j..]);
  }

  lemma LowerEmailSplit(l: string, s: string, i: int)
    requires EmailSplitAt(s, i) && LowerOf(l, s)
    ensures EmailSplitAt(l, i)
  {
    LowerKeepsClasses(s[i]);
    LowerOfSlice(l, s, 0, i);
    assert l[0..i] == l[..i] && s[0..i] == s[..i];
    LowerLocalPart(l[..i], s[..i]);
    var domain, lowerDomain := s[i + 1..], l[i + 1..];
    LowerOfSlice(l, s, i + 1, |s|);
    assert l[i + 1..|s|] == lowerDomain && s[i + 1..|s|] == domain;
    var j :| 0 < j < |domain| && DomainSplitAt(domain, j);
    LowerDomainSplit(lowerDomain, domain, j);
    assert 0 < j < |lowerDomain| && DomainSplitAt(lowerDomain, j);
  }

  lemma LowerEmailValid(l: string, s: string)
    requires IsEmailValid(Some(s)) && LowerOf(l, s)
    ensures IsEmailValid(Some(l))
  {
    var i :| 0 <= i < |s| && EmailSplitAt(s, i);
    LowerEmailSplit(l, s, i);
    assert 0 <= i < |l| && EmailSplitAt(l, i);
  }

  /** A valid e-mail address contains no blank, so the stored form is its
      plain lower-case form, which is valid again. */
  lemma ValidEmailNormalForm(s: string)
    requires IsEmailValid(Some(s))
    ensures Normalize(s) == ToLower(s)
    ensures IsEmailValid(Some(Normalize(s)))
  {
    var at := ValidEmailChars(s);
    NormalizeUnpadded(s);
    var l := ToLower(s);
    assert LowerOf(l, s);
    LowerEmailValid(l, s);
  }

  /** Every character of a literal label is a label character. */
  lemma LiteralLabels()
    ensures IsDottedLabels("mail.")
    ensures IsFinalLabel("com")
    ensures IsLocalPart("ali")
  {
    var m, c, a := "mail.", "com", "ali";
    forall i | 0 <= i < 5
      ensures IsLabelChar(m[i]) || (m[i] == '.' && i > 0 && m[i - 1] != '.')
    {
      if i == 4 {
        assert m[i] == '.' && m[i - 1] == 'l';
      } else {
        assert m[i] == 'm' || m[i] == 'a' || m[i] == 'i' || m[i] == 'l';
      }
    }
    forall i | 0 <= i < 3
      ensures IsLabelChar(c[i])
    {
      assert c[i] == 'c' || c[i] == 'o' || c[i] == 'm';
    }
    forall i | 0 <= i < 3
      ensures IsLabelChar(a[i])
    {
      assert a[i] == 'a' || a[i] == 'l' || a[i] == 'i';
    }
  }

  /** An address with a local part, one dotted label and a final label of
      two to six characters is valid; null is not. */
  lemma EmailExamples()
    ensures IsEmailValid(Some("ali@mail.com"))
    ensures !IsEmailValid(None)
  {
    var e := "ali@mail.com";
    var d := "mail.com";
    assert e[..3] == "ali" && e[4..] == d;
    assert d[..5] == "mail." && d[5..] == "com";
    LiteralLabels();
    assert DomainSplitAt(d, 5);
    assert EmailSplitAt(e, 3);
  }

  /** Addresses the pattern refuses: a final label of one character, a
      domain without a dot, a domain starting with a dot, and a second `@`. */
  lemma EmailRejections()
    ensures !IsEmailValid(Some("a@b.c"))
    ensures !IsEmailValid(Some("a@b"))
    ensures !IsEmailValid(Some("a@.com"))
    ensures !IsEmailValid(Some("a@@b.com"))
  {
    var e1, e2, e3, e4 := "a@b.c", "a@b", "a@.com", "a@@b.com";
    forall i | 0 <= i < |e1| ensures !EmailSplitAt(e1, i) {
      if i == 1 {
        var d := e1[2..];
        assert d == "b.c";
        forall j | 0 < j < |d| ensures !DomainSplitAt(d, j) {
          if j == 1 { assert d[..j][|d[..j]| - 1] == 'b'; }
          else { assert |d[j..]| == 1; }
        }
      }
    }
    forall i | 0 <= i < |e2| ensures !EmailSplitAt(e2, i) {
      if i == 1 { assert |e2[2..]| == 1; }
    }
    forall i | 0 <= i < |e3| ensures !EmailSplitAt(e3, i) {
      if i == 1 {
        var d := e3[2..];
        assert d[0] == '.';
        forall j | 0 < j < |d| ensures !DomainSplitAt(d, j) {
          assert d[..j][0] == '.';
        }
      }
    }
    forall i | 0 <= i < |e4| ensures !EmailSplitAt(e4, i) {
      if i == 1 {
        var d := e4[2..];
        assert d[0] == '@';
        forall j | 0 < j < |d| ensures !DomainSplitAt(d, j) {
          assert d[..j][0] == '@';
          assert !IsLabelChar('@');
        }
      } else if i == 2 {
        assert e4[..2][1] == '@';
        assert !IsLabelChar('@');
      }
    }
  }

  /** A password needs eight characters and a digit. */
  lemma PasswordExamples()
    ensures IsPasswordValid(Some("secret123"))
    ensures !IsPasswordValid(Some("password"))
    ensures !IsPasswordValid(Some("pass1"))
    ensures !IsPasswordValid(None)
  {
    var p := "secret123";
    assert IsAsciiDigit(p[6]);
  }

  /** A user name needs three to twenty word characters or hyphens. */
  lemma UsernameExamples()
    ensures IsUsernameValid(Some("ahmed_99"))
    ensures !IsUsernameValid(Some("ab"))
    ensures !IsUsernameValid(Some("ahmed ali"))
    ensures !IsUsernameValid(None)
  {
    var u := "ahmed ali";
    assert !IsLabelChar(u[5]);
  }

  class AuthService {
    const userRepo: UserFileRepository
    var currentUser: User?

    constructor (userRepo: UserFileRepository)
      ensures this.userRepo == userRepo && currentUser == null
    {
      this.userRepo := userRepo;
      currentUser := null;
    }

    /** `login`: the session's user becomes the user found by user name
        (null when none); the password is not consulted. */
    method Login(username: Option<string>, password: Option<string>) returns (u: User?)
      modifies this`currentUser
      ensures currentUser == u && userRepo.Found(username, false, u)
    {
      u := userRepo.GetUserByUsername(username);
      currentUser := u;
    }

    /** `signup`: adds a new user built from the e-mail address, user name
        and password; the name is not used. A user whose id (from the raw
        e-mail address) is already stored is left as it was. */
    method Signup(name: Option<string>, email: string, username: string, password: Option<string>)
      modifies userRepo
      ensures NameUuidFromBytes(email) in old(userRepo.users) ==> userRepo.users == old(userRepo.users)
      ensures NameUuidFromBytes(email) !in old(userRepo.users) ==>
                && userRepo.users.Keys == old(userRepo.users.Keys) + {NameUuidFromBytes(email)}
                && (forall k :: k in old(userRepo.users) ==> userRepo.users[k] == old(userRepo.users[k]))
                && fresh(userRepo.users[NameUuidFromBytes(email)])
                && userRepo.users[NameUuidFromBytes(email)].Record()
                   == UserRecord(NameUuidFromBytes(email), Normalize(username), Normalize(email), password)
    {
      var user := new User(username, email, password);
      var _ := userRepo.Add(user);
    }

    /** `logout`. */
    method Logout()
      modifies this`currentUser
      ensures currentUser == null
    {
      currentUser := null;
    }

    /** `getCurrentUser`. */
    function GetCurrentUser(): User?
      reads this
    {
      currentUser
    }

    /** `isPasswordCorrect`: false when no user has the user name; otherwise
        whether the found user's stored hash equals the password as given
        (a stored null hash is a NullPointerException). `user` is the user
        the lookup found. */
    method IsPasswordCorrect(username: Option<string>, password: Option<string>) returns (r: Result<bool, Exception>, ghost user: User?)
      ensures userRepo.Found(username, false, user)
      ensures user == null ==> r == Ok(false)
      ensures user != null && user.passwordHash.None? ==> r == Err(NullPointer)
      ensures user != null && user.passwordHash.Some? ==> r == Ok(user.passwordHash == password)
    {
      var u := userRepo.GetUserByUsername(username);
      user := u;
      if u == null {
        return Ok(false), user;
      }
      if u.passwordHash.None? {
        return Err(NullPointer), user;
      }
      return Ok(u.passwordHash == password), user;
    }

    /** `doesUsernameExist`: some stored user has the normalised name. */
    method DoesUsernameExist(username: Option<string>) returns (b: bool)
      ensures b <==> username.Some? && exists u :: u in userRepo.users.Values && u.username == Normalize(username.value)
    {
      var u := userRepo.GetUserByUsername(username);
      b := u != null;
    }

    /** `doesEmailExist`: some stored user has the normalised address. */
    method DoesEmailExist(email: Option<string>) returns (b: bool)
      ensures b <==> email.Some? && exists u :: u in userRepo.users.Values && u.email == Normalize(email.value)
    {
      var u := userRepo.GetUserByEmail(email);
      b := u != null;
    }
  }
}
