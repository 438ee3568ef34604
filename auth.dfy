/**
 * Credential sign-in: `authorize` normalises the typed email and finds the first stored user
 * with that email (compared in lower case) and exactly that password; the `jwt` and `session`
 * callbacks carry the user id from the signed-in user to the token and from the token to the
 * session.
 */
module Auth {
  import opened Wrappers
  import opened Seqs
  import opened Text

  /** A stored identity. */
  datatype IdentityUser = IdentityUser(id: string, email: string, password: string, fullName: string)

  /** What a successful sign-in hands to the session layer. */
  datatype AuthUser = AuthUser(id: string, name: string, email: string)

  function CredentialsMatch(email: string, password: string): IdentityUser -> bool {
    (x: IdentityUser) => Lower(x.email) == email && x.password == password
  }

  /**
   * `authorize`: no user for an email that is blank after trimming or an empty password; else
   * the first user whose lower-cased email is the normalised email and whose password is equal.
   */
  function Authorize(users: seq<IdentityUser>, email: Option<string>, password: Option<string>): (r: Option<AuthUser>)
    ensures Norm(email.GetOr("")) == "" || password.GetOr("") == "" ==> r.None?
    ensures r.None? <==>
              Norm(email.GetOr("")) == "" || password.GetOr("") == "" ||
              forall i :: 0 <= i < |users| ==> !CredentialsMatch(Norm(email.GetOr("")), password.GetOr(""))(users[i])
    ensures r.Some? ==>
              exists i :: 0 <= i < |users| && CredentialsMatch(Norm(email.GetOr("")), password.GetOr(""))(users[i]) &&
                          r.value == AuthUser(users[i].id, users[i].fullName, users[i].email)
  {
    var e := Norm(email.GetOr(""));
    var p := password.GetOr("");
    if e == "" || p == "" then None
    else
      match Find(users, CredentialsMatch(e, p))
      case None => None
      case Some(u) => Some(AuthUser(u.id, u.fullName, u.email))
  }

  /** The first matching user is the one signed in. */
  lemma AuthorizeFirstMatch(users: seq<IdentityUser>, email: string, password: string, i: nat)
    requires Norm(email) != "" && password != ""
    requires i < |users| && CredentialsMatch(Norm(email), password)(users[i])
    requires forall j :: 0 <= j < i ==> !CredentialsMatch(Norm(email), password)(users[j])
    ensures Authorize(users, Some(email), Some(password)) == Some(AuthUser(users[i].id, users[i].fullName, users[i].email))
  {
    FindFirst(users, CredentialsMatch(Norm(email), password), i);
  }

  /** The typed email is compared ignoring case and surrounding whitespace. */
  lemma EmailIsNormalised(users: seq<IdentityUser>, e1: string, e2: string, password: Option<string>)
    requires Norm(e1) == Norm(e2)
    ensures Authorize(users, Some(e1), password) == Authorize(users, Some(e2), password)
  {
  }

  /** The stored email of the signed-in user normalises to the typed email. */
  lemma SignedInEmailMatches(users: seq<IdentityUser>, email: Option<string>, password: Option<string>)
    requires Authorize(users, email, password).Some?
    ensures Norm(Authorize(users, email, password).value.email) == Norm(email.GetOr(""))
  {
    var e := Norm(email.GetOr(""));
    var stored := Authorize(users, email, password).value.email;
    assert Lower(stored) == e;
    LowerMatchesNorm(stored, email.GetOr(""));
  }

  /** The JWT of the session. */
  class Token {
    var userId: Option<string>

    constructor()
      ensures userId.None?
    {
      userId := None;
    }
  }

  /** The user object the sign-in layer passes to the `jwt` callback; `id` is absent when the key is. */
  datatype SignInUser = SignInUser(id: Option<string>)

  /** `jwt`: copies the signed-in user's id into the token; leaves the token as it was otherwise. */
  method Jwt(token: Token, user: Option<SignInUser>) returns (r: Token)
    modifies token
    ensures r == token
    ensures user.Some? && user.value.id.Some? ==> token.userId == user.value.id
    ensures !(user.Some? && user.value.id.Some?) ==> token.userId == old(token.userId)
  {
    if user.Some? && user.value.id.Some? {
      token.userId := user.value.id;
    }
    return token;
  }

  /** The `user` part of a session. */
  class SessionUser {
    var name: Option<string>
    var email: Option<string>
    var userId: Option<string>

    constructor(name: Option<string>, email: Option<string>)
      ensures this.name == name && this.email == email && userId.None?
    {
      this.name := name;
      this.email := email;
      userId := None;
    }
  }

  class Session {
    var user: SessionUser?

    constructor(user: SessionUser?)
      ensures this.user == user
    {
      this.user := user;
    }
  }

  /** `session`: copies the token's user id into the session's user when the session has one. */
  method SessionCallback(session: Session, token: Token) returns (r: Session)
    modifies if session.user != null then {session.user} else {}
    ensures r == session
    ensures session.user != null ==>
              session.user.userId == token.userId &&
              session.user.name == old(session.user.name) && session.user.email == old(session.user.email)
  {
    if session.user != null {
      session.user.userId := token.userId;
    }
    return session;
  }

  /** A successful sign-in runs the two callbacks, which put the user's id into the token and the session; a refused one changes nothing. */
  method SignIn(users: seq<IdentityUser>, email: Option<string>, password: Option<string>, token: Token, session: Session)
    returns (signedIn: Option<AuthUser>)
    requires session.user != null
    modifies token, session.user
    ensures signedIn == Authorize(users, email, password)
    ensures signedIn.Some? ==> token.userId == Some(signedIn.value.id) && session.user.userId == Some(signedIn.value.id)
    ensures signedIn.None? ==> token.userId == old(token.userId) && session.user.userId == old(session.user.userId)
  {
    signedIn := Authorize(users, email, password);
    if signedIn.Some? {
      var _ := Jwt(token, Some(SignInUser(Some(signedIn.value.id))));
      var _ := SessionCallback(session, token);
    }
  }
}
