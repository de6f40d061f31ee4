/** The in-browser mock of the authentication API (mocks/handlers.js): a module-level
    list of users, seeded with one account, an id counter, and the sign-up and log-in
    handlers. Replies carry the status, the public part of the user and a fake token. */
module MockAuth {
  import opened Common
  import opened Text

  datatype User = User(id: nat, name: string, email: string, password: string)

  /** The user object of a reply: the stored user without the password. */
  datatype PublicUser = PublicUser(id: nat, name: string, email: string)

  datatype AuthReply =
    | Accepted(status: int, user: PublicUser, token: string)
    | Refused(status: int, message: string)

  const EmailTaken := "Email já cadastrado"
  const BadCredentials := "Credenciais inválidas"
  const TokenPrefix := "fake-jwt-"

  function Public(u: User): (p: PublicUser)
    ensures p.id == u.id && p.name == u.name && p.email == u.email
  {
    PublicUser(u.id, u.name, u.email)
  }

  /** The reply's user reveals nothing of the password: two users give the same
      public user exactly when they differ at most in their passwords. */
  lemma PublicHidesPassword(u: User, v: User)
    ensures Public(u) == Public(v) <==> u.(password := v.password) == v
  {
  }

  /** `'fake-jwt-' + user.id`. */
  function Token(id: nat): (t: string)
    ensures |t| > |TokenPrefix| && t[..|TokenPrefix|] == TokenPrefix
  {
    TokenPrefix + Decimal(id)
  }

  /** The token names the user: the id can be read back from it, so two users never
      share a token. */
  lemma TokenIdentifies(a: nat, b: nat)
    ensures ParseDecimal(Token(a)[|TokenPrefix|..]) == a
    ensures Token(a) == Token(b) ==> a == b
  {
    assert Token(a)[|TokenPrefix|..] == Decimal(a);
    assert Token(b)[|TokenPrefix|..] == Decimal(b);
    DecimalRoundTrip(a);
    DecimalRoundTrip(b);
  }

  /** The users store and the id counter. */
  class UserStore {
    var users: seq<User>
    var nextId: nat

    /** E-mails are unique, ids increase along the list, and every id is positive and
        below the counter, which is itself positive. */
    ghost predicate Valid()
      reads this
    {
      (forall i, j :: 0 <= i < j < |users| ==> users[i].email != users[j].email) &&
      (forall i, j :: 0 <= i < j < |users| ==> users[i].id < users[j].id) &&
      (forall i :: 0 <= i < |users| ==> 1 <= users[i].id < nextId) &&
      nextId >= 1
    }

    /** The seeded account and `nextId = 2`. */
    constructor ()
      ensures Valid()
      ensures users == [User(1, "Krewer", "av.krewer@gmail.com", "06072025")] && nextId == 2
    {
      users := [User(1, "Krewer", "av.krewer@gmail.com", "06072025")];
      nextId := 2;
    }

    /** `users.find(u => u.email === email)`, as the position of the match. */
    method FindByEmail(email: string) returns (k: Option<nat>)
      ensures k.Some? ==> k.value < |users| && users[k.value].email == email
      ensures k.Some? ==> forall j :: 0 <= j < k.value ==> users[j].email != email
      ensures k.None? <==> forall i :: 0 <= i < |users| ==> users[i].email != email
    {
      var i := 0;
      while i < |users|
        invariant 0 <= i <= |users|
        invariant forall j :: 0 <= j < i ==> users[j].email != email
      {
        if users[i].email == email {
          return Some(i);
        }
        i := i + 1;
      }
      return None;
    }

    /** `users.find(u => u.email === email && u.password === password)`. */
    method FindCredentials(email: string, password: string) returns (k: Option<nat>)
      ensures k.Some? ==>
        k.value < |users| && users[k.value].email == email && users[k.value].password == password
      ensures k.Some? ==>
        forall j :: 0 <= j < k.value ==> !(users[j].email == email && users[j].password == password)
      ensures k.None? <==>
        forall i :: 0 <= i < |users| ==> !(users[i].email == email && users[i].password == password)
    {
      var i := 0;
      while i < |users|
        invariant 0 <= i <= |users|
        invariant forall j :: 0 <= j < i ==> !(users[j].email == email && users[j].password == password)
      {
        if users[i].email == email && users[i].password == password {
          return Some(i);
        }
        i := i + 1;
      }
      return None;
    }

    /** `POST /api/auth/signup`: 409 for a known e-mail, otherwise the user is stored
        with the next id and the reply has status 201. */
    method Signup(name: string, email: string, password: string) returns (reply: AuthReply)
      requires Valid()
      modifies this
      ensures Valid()
      ensures (exists i :: 0 <= i < |old(users)| && old(users)[i].email == email) ==>
        reply == Refused(409, EmailTaken) && users == old(users) && nextId == old(nextId)
      ensures (forall i :: 0 <= i < |old(users)| ==> old(users)[i].email != email) ==>
        users == old(users) + [User(old(nextId), name, email, password)] &&
        nextId == old(nextId) + 1 &&
        reply == Accepted(201, PublicUser(old(nextId), name, email), Token(old(nextId)))
    {
      var found := FindByEmail(email);
      if found.Some? {
        return Refused(409, EmailTaken);
      }
      var user := User(nextId, name, email, password);
      nextId := nextId + 1;
      users := users + [user];
      reply := Accepted(201, Public(user), Token(user.id));
    }

    /** `POST /api/auth/login`: 200 exactly when some stored user has both the e-mail
        and the password, and then the reply carries the first such user, as
        `users.find` returns; otherwise 401; the store is not changed. */
    method Login(email: string, password: string) returns (reply: AuthReply)
      ensures reply.Accepted? <==>
        exists i :: 0 <= i < |users| && users[i].email == email && users[i].password == password
      ensures reply.Accepted? ==>
        reply.status == 200 && reply.user.email == email && reply.token == Token(reply.user.id) &&
        exists i :: 0 <= i < |users| && users[i].password == password && Public(users[i]) == reply.user
      ensures reply.Accepted? ==>
        exists k :: 0 <= k < |users| && users[k].email == email && users[k].password == password &&
          Public(users[k]) == reply.user &&
          forall j :: 0 <= j < k ==> !(users[j].email == email && users[j].password == password)
      ensures reply.Refused? ==> reply == Refused(401, BadCredentials)
    {
      var found := FindCredentials(email, password);
      if found.None? {
        return Refused(401, BadCredentials);
      }
      var user := users[found.value];
      reply := Accepted(200, Public(user), Token(user.id));
    }
  }
}
