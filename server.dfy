/** The REST back end (backend/server.js): the token check of the `auth` middleware,
    the grouping of comments under posts, and the routes that read and change the
    tables. The tables are sequences of rows in insertion order, with one id counter
    per table (every table is declared `AUTOINCREMENT`, so ids are never reused).
    The decoded token of an authenticated request is passed to a route as `Claims`. */
module Server {
  import opened Common
  import opened Text

  // ---------------------------------------------------------------- request values

  /** A field of the JSON request body: missing (or `null`), a string, a number or a
      boolean. */
  datatype BodyValue = Missing | Str(s: string) | Num(n: int) | Bool(b: bool)

  /** JavaScript truthiness of a body field. */
  predicate Truthy(v: BodyValue)
  {
    match v
    case Missing => false
    case Str(s) => s != []
    case Num(n) => n != 0
    case Bool(b) => b
  }

  /** `!field` for a text field: missing or empty. */
  predicate Blank(v: Option<string>)
  {
    v.None? || v.value == []
  }

  /** `done ? 1 : 0`, the value the checklist update stores. */
  function StoredDone(v: BodyValue): (d: int)
    ensures d == 0 || d == 1
    ensures d == 1 <==> Truthy(v)
  {
    if Truthy(v) then 1 else 0
  }

  // ---------------------------------------------------------------- authentication

  datatype Claims = Claims(id: int, name: string, email: string)

  datatype AuthResult = Authorized(claims: Claims) | Unauthorized(message: string)

  const TokenMissing := "Token ausente"
  const TokenInvalid := "Token inválido"

  /** `header.split(" ")[1]`: the text between the first and the second space (or
      the end); `None` when there is no space (`undefined`). */
  function SecondWord(header: string): (r: Option<string>)
    ensures r.None? <==> forall i :: 0 <= i < |header| ==> header[i] != ' '
    ensures r.Some? ==> forall i :: 0 <= i < |r.value| ==> r.value[i] != ' '
  {
    match IndexOf(header, ' ')
    case None => None
    case Some(i) =>
      var rest := header[i + 1..];
      match IndexOf(rest, ' ')
      case None => Some(rest)
      case Some(j) => Some(rest[..j])
  }

  /** The `auth` middleware. `verify` stands for `jwt.verify` with the server's
      secret: the claims of a valid token, `None` when it throws. */
  function Authenticate(header: Option<string>, verify: string -> Option<Claims>): (r: AuthResult)
    ensures r == Unauthorized(TokenMissing) <==> header.None? || header == Some([])
    ensures r.Unauthorized? ==> r.message == TokenMissing || r.message == TokenInvalid
    ensures r.Authorized? ==>
      header.Some? && SecondWord(header.value).Some? && verify(SecondWord(header.value).value) == Some(r.claims)
  {
    if header.None? || header.value == [] then Unauthorized(TokenMissing)
    else match SecondWord(header.value)
      case None => Unauthorized(TokenInvalid)
      case Some(token) =>
        match verify(token)
        case None => Unauthorized(TokenInvalid)
        case Some(c) => Authorized(c)
  }

  /** The first `c` in `p + q` is the first character of `q` when `p` has none. */
  lemma FirstAfterPrefix(p: string, q: string, c: char)
    requires forall i :: 0 <= i < |p| ==> p[i] != c
    requires q != [] && q[0] == c
    ensures IndexOf(p + q, c) == Some(|p|)
  {
    var h := p + q;
    assert h[|p|] == c;
    assert forall i :: 0 <= i < |p| ==> h[i] == p[i];
  }

  /** `split(" ")[1]` of `scheme + " " + token + rest` is `token` when neither word
      has a space and `rest` is empty or starts with one. */
  lemma {:induction false} SecondWordOf(scheme: string, token: string, rest: string)
    requires forall i :: 0 <= i < |scheme| ==> scheme[i] != ' '
    requires forall i :: 0 <= i < |token| ==> token[i] != ' '
    requires rest == [] || rest[0] == ' '
    ensures SecondWord(scheme + " " + token + rest) == Some(token)
  {
    var h := scheme + " " + token + rest;
    assert h == scheme + (" " + token + rest);
    FirstAfterPrefix(scheme, " " + token + rest, ' ');
    var after := h[|scheme| + 1..];
    assert after == token + rest;
    if rest == [] {
      assert after == token;
      assert IndexOf(after, ' ') == None;
    } else {
      FirstAfterPrefix(token, rest, ' ');
      assert after[..|token|] == token;
    }
  }

  /** The word before the first space is never looked at: any scheme, not only
      `Bearer`, followed by a valid token is accepted. */
  lemma SchemeIgnored(scheme: string, token: string, rest: string, verify: string -> Option<Claims>)
    requires forall i :: 0 <= i < |scheme| ==> scheme[i] != ' '
    requires forall i :: 0 <= i < |token| ==> token[i] != ' '
    requires rest == [] || rest[0] == ' '
    ensures Authenticate(Some(scheme + " " + token + rest), verify) ==
      if verify(token).Some? then Authorized(verify(token).value) else Unauthorized(TokenInvalid)
  {
    SecondWordOf(scheme, token, rest);
  }

  /** A request without the header, or with an empty one, is refused before any
      token is checked; a header without a space is refused as an invalid token. */
  lemma MissingOrMalformedHeader(header: Option<string>, verify: string -> Option<Claims>)
    ensures header.None? || header == Some([]) ==> Authenticate(header, verify) == Unauthorized(TokenMissing)
    ensures header.Some? && header.value != [] && (forall i :: 0 <= i < |header.value| ==> header.value[i] != ' ') ==>
      Authenticate(header, verify) == Unauthorized(TokenInvalid)
  {
  }

  // ---------------------------------------------------------------- tables

  datatype UserRow = UserRow(id: int, name: string, email: string, password: string)
  datatype PostRow = PostRow(id: int, author: string, content: string, likes: int)
  datatype CommentRow = CommentRow(id: int, postId: int, author: string, text: string)
  datatype DiaryRow = DiaryRow(id: int, userId: int, date: string, note: string, tags: Option<string>)
  datatype ChecklistRow = ChecklistRow(id: int, userId: int, text: string, done: int)

  /** A post as `GET /api/community/posts` returns it. */
  datatype PostWithComments = PostWithComments(
    id: int, author: string, content: string, likes: int, comments: seq<CommentRow>)

  function OnPost(id: int): CommentRow -> bool
  {
    (c: CommentRow) => c.postId == id
  }

  /** `posts.map(p => ({ ...p, comments: comments.filter(c => c.post_id === p.id) }))` */
  function WithComments(posts: seq<PostRow>, comments: seq<CommentRow>): (r: seq<PostWithComments>)
    ensures |r| == |posts|
    ensures forall i :: 0 <= i < |posts| ==>
      r[i].id == posts[i].id && r[i].author == posts[i].author &&
      r[i].content == posts[i].content && r[i].likes == posts[i].likes
  {
    seq(|posts|, i requires 0 <= i < |posts| =>
      PostWithComments(posts[i].id, posts[i].author, posts[i].content, posts[i].likes,
        Filter(comments, OnPost(posts[i].id))))
  }

  /** Every post carries exactly the comments on it, in their order; a comment
      appears under a post exactly when it names that post, so a comment naming no
      post appears nowhere. */
  lemma GroupingPlacesComments(posts: seq<PostRow>, comments: seq<CommentRow>, i: nat, c: CommentRow)
    requires i < |posts| && c in comments
    ensures var cs := WithComments(posts, comments)[i].comments;
      IsSubsequence(cs, comments) &&
      (forall k :: 0 <= k < |cs| ==> cs[k].postId == posts[i].id) &&
      (c in cs <==> c.postId == posts[i].id)
  {
    var cs := WithComments(posts, comments)[i].comments;
    assert cs == Filter(comments, OnPost(posts[i].id));
    if c in cs {
      var k :| 0 <= k < |cs| && cs[k] == c;
      assert OnPost(posts[i].id)(cs[k]);
    }
    if c.postId == posts[i].id {
      var k :| 0 <= k < |comments| && comments[k] == c;
      assert OnPost(posts[i].id)(comments[k]);
    }
  }

  /** The state of the database. */
  datatype Tables = Tables(
    users: seq<UserRow>,
    posts: seq<PostRow>,
    comments: seq<CommentRow>,
    diary: seq<DiaryRow>,
    checklists: seq<ChecklistRow>,
    nextUser: int,
    nextPost: int,
    nextComment: int,
    nextDiary: int,
    nextChecklist: int)

  // ---------------------------------------------------------------- replies

  datatype Body =
    | Message(text: string)
    | Success
    | UserInfo(id: int, name: string, email: string)
    | Post(post: PostWithComments)
    | UpdatedPost(row: Option<PostRow>)
    | Comment(comment: CommentRow)
    | DiaryEntry(entry: DiaryRow)
    | ChecklistItem(item: ChecklistRow)

  datatype Reply = Reply(status: int, body: Body)

  const Incomplete := "Dados incompletos"
  const EmailTaken := "Email já cadastrado"
  const BadCredentials := "Credenciais inválidas"
  const EmptyContent := "Conteúdo vazio"
  const EmptyComment := "Comentário vazio"
  const RequiredFields := "Campos obrigatórios"
  const TextRequired := "Texto obrigatório"

  // ---------------------------------------------------------------- owner-scoped rows

  function DiaryKey(r: DiaryRow): (int, int) { (r.id, r.userId) }
  function ChecklistKey(r: ChecklistRow): (int, int) { (r.id, r.userId) }

  /** `DELETE ... WHERE id = ? AND user_id = ?` over rows whose (id, owner) pair is
      given by `key`. */
  function DeleteOwned<T>(rows: seq<T>, key: T -> (int, int), id: int, owner: int): (r: seq<T>)
    ensures |r| <= |rows|
    ensures forall i :: 0 <= i < |r| ==> key(r[i]) != (id, owner) && r[i] in rows
  {
    Filter(rows, (r: T) => key(r) != (id, owner))
  }

  function OwnedBy<T>(key: T -> (int, int), owner: int): T -> bool
  {
    (r: T) => key(r).1 == owner
  }

  function NotOwnedBy<T>(key: T -> (int, int), owner: int): T -> bool
  {
    (r: T) => key(r).1 != owner
  }

  /** An owner-scoped delete removes exactly the caller's row with that id: every
      remaining row has another key, every row with another key remains, in order,
      and the rows of other users are exactly as before. */
  lemma {:induction false} DeleteOwnedSparesOthers<T>(rows: seq<T>, key: T -> (int, int), id: int, owner: int)
    ensures var r := DeleteOwned(rows, key, id, owner);
      IsSubsequence(r, rows) &&
      (forall i :: 0 <= i < |r| ==> key(r[i]) != (id, owner)) &&
      (forall i :: 0 <= i < |rows| && key(rows[i]) != (id, owner) ==> rows[i] in r) &&
      Filter(r, NotOwnedBy(key, owner)) == Filter(rows, NotOwnedBy(key, owner))
  {
    var keep := (r: T) => key(r) != (id, owner);
    FilterCongruent(DeleteOwned(rows, key, id, owner), NotOwnedBy(key, owner), (r: T) => key(r).1 != owner);
    FilterCongruent(rows, NotOwnedBy(key, owner), (r: T) => key(r).1 != owner);
    FilterAbsorbs(rows, keep, (r: T) => key(r).1 != owner);
  }

  /** `UPDATE checklists SET done = ? WHERE id = ? AND user_id = ?`. */
  function UpdateDone(rows: seq<ChecklistRow>, id: int, owner: int, done: int): (r: seq<ChecklistRow>)
    ensures |r| == |rows|
    ensures forall i :: 0 <= i < |rows| ==>
      r[i] == if ChecklistKey(rows[i]) == (id, owner) then rows[i].(done := done) else rows[i]
  {
    seq(|rows|, i requires 0 <= i < |rows| =>
      if ChecklistKey(rows[i]) == (id, owner) then rows[i].(done := done) else rows[i])
  }

  /** `UPDATE posts SET likes = likes + 1 WHERE id = ?`. */
  function AddLike(posts: seq<PostRow>, id: int): (r: seq<PostRow>)
    ensures |r| == |posts|
  {
    seq(|posts|, i requires 0 <= i < |posts| =>
      if posts[i].id == id then posts[i].(likes := posts[i].likes + 1) else posts[i])
  }

  function PostId(p: PostRow): int { p.id }
  function UserEmail(u: UserRow): string { u.email }

  /** The checklist update changes only the caller's row with that id, only in its
      `done` column, which becomes 0 or 1 after the truthiness of the body. */
  lemma UpdateOnlyOwnRow(rows: seq<ChecklistRow>, id: int, owner: int, done: BodyValue)
    ensures var r := UpdateDone(rows, id, owner, StoredDone(done));
      |r| == |rows| &&
      forall i :: 0 <= i < |rows| ==>
        (rows[i].userId != owner ==> r[i] == rows[i]) &&
        (rows[i].id != id ==> r[i] == rows[i]) &&
        r[i].(done := 0) == rows[i].(done := 0) &&
        (ChecklistKey(rows[i]) == (id, owner) ==> (r[i].done == 1 <==> Truthy(done)))
  {
  }

  /** A like adds exactly one to the post with that id and changes nothing else. */
  lemma LikeAddsOne(posts: seq<PostRow>, id: int)
    ensures var r := AddLike(posts, id);
      |r| == |posts| &&
      forall i :: 0 <= i < |posts| ==>
        r[i].(likes := 0) == posts[i].(likes := 0) &&
        r[i].likes == posts[i].likes + (if posts[i].id == id then 1 else 0)
  {
  }

  // ---------------------------------------------------------------- routes

  /** `POST /api/auth/signup`; `hashed` is the bcrypt hash of the password. The
      `UNIQUE` e-mail column refuses a second account with the same e-mail. */
  function SignupRoute(t: Tables, name: Option<string>, email: Option<string>, password: Option<string>, hashed: string): (r: (Tables, Reply))
    ensures r.1.status == 200 || r.1.status == 400 || r.1.status == 409
    ensures r.1.status != 200 ==> r.0 == t
    ensures r.1.status == 200 ==>
      !Blank(name) && !Blank(email) && !Blank(password) &&
      (forall i :: 0 <= i < |t.users| ==> t.users[i].email != email.value) &&
      r.0.(users := t.users, nextUser := t.nextUser) == t &&
      r.0.users == t.users + [UserRow(t.nextUser, name.value, email.value, hashed)]
  {
    if Blank(name) || Blank(email) || Blank(password) then (t, Reply(400, Message(Incomplete)))
    else if exists i :: 0 <= i < |t.users| && t.users[i].email == email.value then
      (t, Reply(409, Message(EmailTaken)))
    else
      var row := UserRow(t.nextUser, name.value, email.value, hashed);
      (t.(users := t.users + [row], nextUser := t.nextUser + 1),
       Reply(200, UserInfo(row.id, row.name, row.email)))
  }

  /** `POST /api/auth/login`; `matches(password, hash)` stands for `bcrypt.compare`.
      A missing e-mail is bound as `NULL` and finds no row. */
  function LoginRoute(t: Tables, email: Option<string>, password: string, matches: (string, string) -> bool): (r: Reply)
    ensures r.status == 200 || r == Reply(401, Message(BadCredentials))
    ensures r.status == 200 ==> email.Some? && r.body.UserInfo? && r.body.email == email.value
  {
    var found := if email.None? then None else FirstIndex(t.users, UserEmail, email.value);
    if found.None? then Reply(401, Message(BadCredentials))
    else
      var u := t.users[found.value];
      if !matches(password, u.password) then Reply(401, Message(BadCredentials))
      else Reply(200, UserInfo(u.id, u.name, u.email))
  }

  /** The `UNIQUE` constraint on `users.email`. */
  ghost predicate UniqueEmails(users: seq<UserRow>)
  {
    forall i, j :: 0 <= i < j < |users| ==> users[i].email != users[j].email
  }

  /** Sign-up keeps e-mails unique, and answers 200 exactly when the fields are given
      and the e-mail is new. */
  lemma SignupKeepsEmailsUnique(t: Tables, name: Option<string>, email: Option<string>, password: Option<string>, hashed: string)
    requires UniqueEmails(t.users)
    ensures UniqueEmails(SignupRoute(t, name, email, password, hashed).0.users)
    ensures SignupRoute(t, name, email, password, hashed).1.status == 200 <==>
      !Blank(name) && !Blank(email) && !Blank(password) &&
      forall i :: 0 <= i < |t.users| ==> t.users[i].email != email.value
  {
  }

  /** With unique e-mails, a log-in succeeds exactly when some user has the e-mail and
      the password matches that user's hash, and then the reply names that user;
      both failures give the same message. */
  lemma LoginAcceptsIff(t: Tables, email: string, password: string, matches: (string, string) -> bool)
    requires UniqueEmails(t.users)
    ensures var r := LoginRoute(t, Some(email), password, matches);
      (r.status == 200 <==>
        exists i :: 0 <= i < |t.users| && t.users[i].email == email && matches(password, t.users[i].password)) &&
      (r.status == 200 ==> r.body.UserInfo? && r.body.email == email) &&
      (r.status != 200 ==> r == Reply(401, Message(BadCredentials)))
  {
    var r := LoginRoute(t, Some(email), password, matches);
    if exists i :: 0 <= i < |t.users| && t.users[i].email == email && matches(password, t.users[i].password) {
      var i :| 0 <= i < |t.users| && t.users[i].email == email && matches(password, t.users[i].password);
      assert FirstIndex(t.users, UserEmail, email) == Some(i);
    }
  }

  /** `POST /api/community/posts`. */
  function CreatePost(t: Tables, who: Claims, content: Option<string>): (r: (Tables, Reply))
    ensures r.1.status == 200 <==> !Blank(content)
    ensures Blank(content) ==> r.0 == t
    ensures !Blank(content) ==>
      r.0.(posts := t.posts, nextPost := t.nextPost) == t &&
      |r.0.posts| == |t.posts| + 1 && r.0.posts[..|t.posts|] == t.posts &&
      r.0.posts[|t.posts|].id == t.nextPost && r.0.posts[|t.posts|].likes == 0
  {
    if Blank(content) then (t, Reply(400, Message(EmptyContent)))
    else
      var row := PostRow(t.nextPost, who.name, content.value, 0);
      (t.(posts := t.posts + [row], nextPost := t.nextPost + 1),
       Reply(200, Post(PostWithComments(row.id, row.author, row.content, 0, []))))
  }

  /** `POST /api/community/posts/:id/like`: the reply is the post after the update,
      or nothing when there is no such post. */
  function Like(t: Tables, id: int): (r: (Tables, Reply))
    ensures r.0.(posts := t.posts) == t && r.1.status == 200 && r.1.body.UpdatedPost?
    ensures r.1.body.row.None? <==> forall i :: 0 <= i < |t.posts| ==> t.posts[i].id != id
    ensures r.1.body.row.Some? ==> r.1.body.row.value.id == id
  {
    LikeAddsOne(t.posts, id);
    var posts := AddLike(t.posts, id);
    (t.(posts := posts), Reply(200, UpdatedPost(FindBy(posts, PostId, id))))
  }

  /** `POST /api/community/posts/:id/comment`; the post id is not checked. */
  function AddComment(t: Tables, who: Claims, postId: int, text: Option<string>): (r: (Tables, Reply))
    ensures r.1.status == 200 <==> !Blank(text)
    ensures Blank(text) ==> r.0 == t
    ensures !Blank(text) ==>
      r.0.(comments := t.comments, nextComment := t.nextComment) == t &&
      r.0.comments == t.comments + [CommentRow(t.nextComment, postId, who.name, text.value)]
  {
    if Blank(text) then (t, Reply(400, Message(EmptyComment)))
    else
      var row := CommentRow(t.nextComment, postId, who.name, text.value);
      (t.(comments := t.comments + [row], nextComment := t.nextComment + 1),
       Reply(200, Comment(row)))
  }

  /** `POST /api/diary`. */
  function AddDiary(t: Tables, who: Claims, date: Option<string>, note: Option<string>, tags: Option<string>): (r: (Tables, Reply))
    ensures r.1.status == 200 <==> !Blank(date) && !Blank(note)
    ensures r.1.status != 200 ==> r.0 == t
    ensures r.1.status == 200 ==>
      r.0.(diary := t.diary, nextDiary := t.nextDiary) == t &&
      |r.0.diary| == |t.diary| + 1 && r.0.diary[..|t.diary|] == t.diary &&
      r.0.diary[|t.diary|].userId == who.id
  {
    if Blank(date) || Blank(note) then (t, Reply(400, Message(RequiredFields)))
    else
      var row := DiaryRow(t.nextDiary, who.id, date.value, note.value, tags);
      (t.(diary := t.diary + [row], nextDiary := t.nextDiary + 1), Reply(200, DiaryEntry(row)))
  }

  /** `POST /api/checklists`: a new item is stored as not done. */
  function AddChecklist(t: Tables, who: Claims, text: Option<string>): (r: (Tables, Reply))
    ensures r.1.status == 200 <==> !Blank(text)
    ensures Blank(text) ==> r.0 == t
    ensures !Blank(text) ==>
      r.0.(checklists := t.checklists, nextChecklist := t.nextChecklist) == t &&
      |r.0.checklists| == |t.checklists| + 1 && r.0.checklists[..|t.checklists|] == t.checklists &&
      r.0.checklists[|t.checklists|].userId == who.id && r.0.checklists[|t.checklists|].done == 0
  {
    if Blank(text) then (t, Reply(400, Message(TextRequired)))
    else
      var row := ChecklistRow(t.nextChecklist, who.id, text.value, 0);
      (t.(checklists := t.checklists + [row], nextChecklist := t.nextChecklist + 1),
       Reply(200, ChecklistItem(row)))
  }

  /** `GET /api/diary` and `GET /api/checklists`: the caller's rows. */
  function OwnDiary(t: Tables, who: Claims): (r: seq<DiaryRow>)
    ensures IsSubsequence(r, t.diary)
    ensures forall i :: 0 <= i < |r| ==> r[i].userId == who.id
    ensures forall i :: 0 <= i < |t.diary| && t.diary[i].userId == who.id ==> t.diary[i] in r
  {
    OwnedRows(t.diary, DiaryKey, who.id);
    Filter(t.diary, OwnedBy(DiaryKey, who.id))
  }

  function OwnChecklists(t: Tables, who: Claims): (r: seq<ChecklistRow>)
    ensures IsSubsequence(r, t.checklists)
    ensures forall i :: 0 <= i < |r| ==> r[i].userId == who.id
    ensures forall i :: 0 <= i < |t.checklists| && t.checklists[i].userId == who.id ==> t.checklists[i] in r
  {
    OwnedRows(t.checklists, ChecklistKey, who.id);
    Filter(t.checklists, OwnedBy(ChecklistKey, who.id))
  }

  /** The rows kept by an owner filter are exactly the owner's rows. */
  lemma OwnedRows<T>(rows: seq<T>, key: T -> (int, int), owner: int)
    ensures var r := Filter(rows, OwnedBy(key, owner));
      (forall i :: 0 <= i < |r| ==> key(r[i]).1 == owner) &&
      (forall i :: 0 <= i < |rows| && key(rows[i]).1 == owner ==> rows[i] in r)
  {
    var r := Filter(rows, OwnedBy(key, owner));
    forall i | 0 <= i < |r|
      ensures key(r[i]).1 == owner
    {
      assert OwnedBy(key, owner)(r[i]);
    }
    forall i | 0 <= i < |rows| && key(rows[i]).1 == owner
      ensures rows[i] in r
    {
      assert OwnedBy(key, owner)(rows[i]);
    }
  }

  /** A request that fails its field check gets a 400 and changes no table; one that
      passes adds exactly one row, with the next id, owned by the caller. */
  lemma FieldGuards(t: Tables, who: Claims, a: Option<string>, b: Option<string>, c: Option<string>, hashed: string)
    ensures Blank(a) || Blank(b) || Blank(c) ==> SignupRoute(t, a, b, c, hashed) == (t, Reply(400, Message(Incomplete)))
    ensures Blank(a) ==> CreatePost(t, who, a) == (t, Reply(400, Message(EmptyContent)))
    ensures Blank(a) ==> AddComment(t, who, 0, a).0 == t && AddComment(t, who, 0, a).1.status == 400
    ensures Blank(a) || Blank(b) ==> AddDiary(t, who, a, b, c) == (t, Reply(400, Message(RequiredFields)))
    ensures Blank(a) ==> AddChecklist(t, who, a) == (t, Reply(400, Message(TextRequired)))
    ensures !Blank(a) && !Blank(b) ==>
      AddDiary(t, who, a, b, c).0.diary == t.diary + [DiaryRow(t.nextDiary, who.id, a.value, b.value, c)]
    ensures !Blank(a) ==>
      AddChecklist(t, who, a).0.checklists == t.checklists + [ChecklistRow(t.nextChecklist, who.id, a.value, 0)]
  {
  }

  /** Each user sees only their own rows, and a new diary entry or checklist item
      shows up in its author's list and in no one else's. */
  lemma ListsAreOwnerScoped(t: Tables, who: Claims, other: Claims, text: Option<string>)
    requires other.id != who.id && !Blank(text)
    ensures forall i :: 0 <= i < |OwnDiary(t, who)| ==> OwnDiary(t, who)[i].userId == who.id
    ensures forall i :: 0 <= i < |OwnChecklists(t, who)| ==> OwnChecklists(t, who)[i].userId == who.id
    ensures var t2 := AddChecklist(t, who, text).0;
      OwnChecklists(t2, other) == OwnChecklists(t, other) &&
      ChecklistRow(t.nextChecklist, who.id, text.value, 0) in OwnChecklists(t2, who)
  {
    forall i | 0 <= i < |OwnDiary(t, who)|
      ensures OwnDiary(t, who)[i].userId == who.id
    {
      var x := OwnDiary(t, who)[i];
      assert OwnedBy(DiaryKey, who.id)(x);
      assert DiaryKey(x).1 == x.userId;
    }
    forall i | 0 <= i < |OwnChecklists(t, who)|
      ensures OwnChecklists(t, who)[i].userId == who.id
    {
      var x := OwnChecklists(t, who)[i];
      assert OwnedBy(ChecklistKey, who.id)(x);
      assert ChecklistKey(x).1 == x.userId;
    }
    var t2 := AddChecklist(t, who, text).0;
    var row := ChecklistRow(t.nextChecklist, who.id, text.value, 0);
    FilterAppendOne(t.checklists, row, OwnedBy(ChecklistKey, other.id));
    FilterAppendOne(t.checklists, row, OwnedBy(ChecklistKey, who.id));
    assert ChecklistKey(row).1 == who.id != other.id;
    assert OwnedBy(ChecklistKey, who.id)(row) && !OwnedBy(ChecklistKey, other.id)(row);
    assert t2.checklists == t.checklists + [row];
    assert OwnChecklists(t2, who) == OwnChecklists(t, who) + [row];
  }

  /** Filtering a list with one element appended. */
  lemma {:induction false} FilterAppendOne<T>(xs: seq<T>, x: T, keep: T -> bool)
    ensures Filter(xs + [x], keep) == Filter(xs, keep) + (if keep(x) then [x] else [])
    decreases |xs|
  {
    if xs == [] {
      assert [] + [x] == [x];
      assert [x][1..] == [];
    } else {
      assert (xs + [x])[1..] == xs[1..] + [x];
      FilterAppendOne(xs[1..], x, keep);
    }
  }

  /** A comment on a post that does not exist is stored all the same (the foreign
      key is not enforced), and the listing never shows it. */
  lemma OrphanCommentHidden(t: Tables, who: Claims, postId: int, text: Option<string>)
    requires !Blank(text)
    requires forall i :: 0 <= i < |t.posts| ==> t.posts[i].id != postId
    ensures var t2 := AddComment(t, who, postId, text).0;
      |t2.comments| == |t.comments| + 1 &&
      forall i :: 0 <= i < |t2.posts| ==>
        WithComments(t2.posts, t2.comments)[i].comments == WithComments(t.posts, t.comments)[i].comments
  {
    var t2 := AddComment(t, who, postId, text).0;
    var row := CommentRow(t.nextComment, postId, who.name, text.value);
    forall i | 0 <= i < |t2.posts|
      ensures WithComments(t2.posts, t2.comments)[i].comments == WithComments(t.posts, t.comments)[i].comments
    {
      FilterAppendOne(t.comments, row, OnPost(t.posts[i].id));
    }
  }

  /** A new post is listed last among the table's posts with the reply's id, author,
      content and no likes; its comments in the listing are empty exactly when no
      stored comment already names the id it receives, so an earlier comment on that
      not-yet-existing post shows up under it although the reply says it has none. */
  lemma NewPostListing(t: Tables, who: Claims, content: Option<string>)
    requires !Blank(content)
    ensures var (t2, r) := CreatePost(t, who, content);
      var listed := WithComments(t2.posts, t2.comments)[|t.posts|];
      r.status == 200 && r.body.Post? && r.body.post.comments == [] &&
      listed.id == r.body.post.id == t.nextPost && listed.author == who.name &&
      listed.content == content.value && listed.likes == 0 &&
      (listed.comments == [] <==> forall i :: 0 <= i < |t.comments| ==> t.comments[i].postId != t.nextPost)
  {
    var t2 := CreatePost(t, who, content).0;
    var cs := WithComments(t2.posts, t2.comments)[|t.posts|].comments;
    assert t2.posts[|t.posts|].id == t.nextPost;
    assert cs == Filter(t.comments, OnPost(t.nextPost));
    if cs != [] {
      assert cs[0] in t.comments && OnPost(t.nextPost)(cs[0]);
    }
    if exists i :: 0 <= i < |t.comments| && t.comments[i].postId == t.nextPost {
      var i :| 0 <= i < |t.comments| && t.comments[i].postId == t.nextPost;
      assert OnPost(t.nextPost)(t.comments[i]);
    }
  }

  // ---------------------------------------------------------------- table invariant

  function UserId(u: UserRow): int { u.id }
  function CommentId(c: CommentRow): int { c.id }
  function DiaryId(d: DiaryRow): int { d.id }
  function ChecklistId(c: ChecklistRow): int { c.id }

  /** An `AUTOINCREMENT` table: ids start at 1, grow strictly along the insertion
      order and stay below the counter that hands out the next one. */
  ghost predicate Ascending<T>(rows: seq<T>, id: T -> int, next: int)
  {
    1 <= next &&
    (forall i :: 0 <= i < |rows| ==> 1 <= id(rows[i]) < next) &&
    (forall i, j :: 0 <= i < j < |rows| ==> id(rows[i]) < id(rows[j]))
  }

  /** What the schema guarantees of every table: unique e-mails and auto-increment ids. */
  ghost predicate Consistent(t: Tables)
  {
    UniqueEmails(t.users) &&
    Ascending(t.users, UserId, t.nextUser) &&
    Ascending(t.posts, PostId, t.nextPost) &&
    Ascending(t.comments, CommentId, t.nextComment) &&
    Ascending(t.diary, DiaryId, t.nextDiary) &&
    Ascending(t.checklists, ChecklistId, t.nextChecklist)
  }

  /** Inserting a row with the counter's id and advancing the counter keeps a table
      ascending. */
  lemma AppendAscending<T>(rows: seq<T>, id: T -> int, next: int, row: T)
    requires Ascending(rows, id, next) && id(row) == next
    ensures Ascending(rows + [row], id, next + 1)
  {
  }

  /** The rows after the first of an ascending table are ascending, and all have
      larger ids than the first. */
  lemma AscendingTail<T>(rows: seq<T>, id: T -> int, next: int)
    requires Ascending(rows, id, next) && rows != []
    ensures Ascending(rows[1..], id, next)
    ensures forall x :: x in rows[1..] ==> id(rows[0]) < id(x)
  {
    var tail := rows[1..];
    forall i, j | 0 <= i < j < |tail|
      ensures id(tail[i]) < id(tail[j])
    {
      assert tail[i] == rows[i + 1] && tail[j] == rows[j + 1];
    }
    forall x | x in tail
      ensures id(rows[0]) < id(x)
    {
      var k :| 0 <= k < |tail| && tail[k] == x;
      assert rows[k + 1] == x;
    }
  }

  /** A row with an id below the counter and below every id of an ascending table,
      put in front of it, gives an ascending table. */
  lemma AscendingCons<T>(x: T, rest: seq<T>, id: T -> int, next: int)
    requires Ascending(rest, id, next) && 1 <= id(x) < next
    requires forall y :: y in rest ==> id(x) < id(y)
    ensures Ascending([x] + rest, id, next)
  {
    var r := [x] + rest;
    forall i, j | 0 <= i < j < |r|
      ensures id(r[i]) < id(r[j])
    {
      assert r[j] == rest[j - 1] && rest[j - 1] in rest;
      if i > 0 {
        assert r[i] == rest[i - 1];
      }
    }
  }

  /** Deleting rows keeps a table ascending. */
  lemma {:induction false} FilterAscending<T>(rows: seq<T>, id: T -> int, next: int, keep: T -> bool)
    requires Ascending(rows, id, next)
    ensures Ascending(Filter(rows, keep), id, next)
    decreases |rows|
  {
    if rows != [] {
      AscendingTail(rows, id, next);
      FilterAscending(rows[1..], id, next, keep);
      if keep(rows[0]) {
        var rest := Filter(rows[1..], keep);
        assert forall y :: y in rest ==> y in rows[1..];
        AscendingCons(rows[0], rest, id, next);
        assert Filter(rows, keep) == [rows[0]] + rest;
      }
    }
  }

  /** Sign-up keeps the tables consistent: the e-mail is new and the id is the
      counter's. */
  lemma SignupKeepsConsistent(t: Tables, name: Option<string>, email: Option<string>, password: Option<string>, hashed: string)
    requires Consistent(t)
    ensures Consistent(SignupRoute(t, name, email, password, hashed).0)
  {
    SignupKeepsEmailsUnique(t, name, email, password, hashed);
    if SignupRoute(t, name, email, password, hashed).1.status == 200 {
      AppendAscending(t.users, UserId, t.nextUser, UserRow(t.nextUser, name.value, email.value, hashed));
    }
  }

  /** A new post keeps the tables consistent. */
  lemma CreatePostKeepsConsistent(t: Tables, who: Claims, content: Option<string>)
    requires Consistent(t)
    ensures Consistent(CreatePost(t, who, content).0)
  {
    if !Blank(content) {
      AppendAscending(t.posts, PostId, t.nextPost, PostRow(t.nextPost, who.name, content.value, 0));
    }
  }

  /** A new comment keeps the tables consistent. */
  lemma AddCommentKeepsConsistent(t: Tables, who: Claims, postId: int, text: Option<string>)
    requires Consistent(t)
    ensures Consistent(AddComment(t, who, postId, text).0)
  {
    if !Blank(text) {
      AppendAscending(t.comments, CommentId, t.nextComment, CommentRow(t.nextComment, postId, who.name, text.value));
    }
  }

  /** A new diary entry keeps the tables consistent. */
  lemma AddDiaryKeepsConsistent(t: Tables, who: Claims, date: Option<string>, note: Option<string>, tags: Option<string>)
    requires Consistent(t)
    ensures Consistent(AddDiary(t, who, date, note, tags).0)
  {
    if !Blank(date) && !Blank(note) {
      AppendAscending(t.diary, DiaryId, t.nextDiary, DiaryRow(t.nextDiary, who.id, date.value, note.value, tags));
    }
  }

  /** A new checklist item keeps the tables consistent. */
  lemma AddChecklistKeepsConsistent(t: Tables, who: Claims, text: Option<string>)
    requires Consistent(t)
    ensures Consistent(AddChecklist(t, who, text).0)
  {
    if !Blank(text) {
      AppendAscending(t.checklists, ChecklistId, t.nextChecklist, ChecklistRow(t.nextChecklist, who.id, text.value, 0));
    }
  }

  /** A table whose ids are those of an ascending one, row for row, is ascending. */
  lemma SameIdsAscending<T>(rows: seq<T>, other: seq<T>, id: T -> int, next: int)
    requires Ascending(rows, id, next) && |other| == |rows|
    requires forall i :: 0 <= i < |rows| ==> id(other[i]) == id(rows[i])
    ensures Ascending(other, id, next)
  {
  }

  /** A like changes no id, so it keeps the tables consistent. */
  lemma LikeKeepsConsistent(t: Tables, id: int)
    requires Consistent(t)
    ensures Consistent(Like(t, id).0)
  {
    LikeAddsOne(t.posts, id);
    var liked := AddLike(t.posts, id);
    forall i | 0 <= i < |t.posts|
      ensures PostId(liked[i]) == PostId(t.posts[i])
    {
      assert liked[i].(likes := 0) == t.posts[i].(likes := 0);
    }
    SameIdsAscending(t.posts, liked, PostId, t.nextPost);
  }

  /** An owner-scoped delete only removes rows, so it keeps a table ascending. */
  lemma DeleteOwnedAscending<T>(rows: seq<T>, key: T -> (int, int), id: int, owner: int, rowId: T -> int, next: int)
    requires Ascending(rows, rowId, next)
    ensures Ascending(DeleteOwned(rows, key, id, owner), rowId, next)
  {
    FilterAscending(rows, rowId, next, (r: T) => key(r) != (id, owner));
  }

  /** The checklist update changes no id, and both owner-scoped deletes only remove
      rows: each keeps the tables consistent. */
  lemma ChecklistChangesKeepConsistent(t: Tables, who: Claims, id: int, done: int)
    requires Consistent(t)
    ensures Consistent(t.(checklists := UpdateDone(t.checklists, id, who.id, done)))
    ensures Consistent(t.(diary := DeleteOwned(t.diary, DiaryKey, id, who.id)))
    ensures Consistent(t.(checklists := DeleteOwned(t.checklists, ChecklistKey, id, who.id)))
  {
    var updated := UpdateDone(t.checklists, id, who.id, done);
    forall i | 0 <= i < |t.checklists|
      ensures ChecklistId(updated[i]) == ChecklistId(t.checklists[i])
    {
    }
    SameIdsAscending(t.checklists, updated, ChecklistId, t.nextChecklist);
    DeleteOwnedAscending(t.diary, DiaryKey, id, who.id, DiaryId, t.nextDiary);
    DeleteOwnedAscending(t.checklists, ChecklistKey, id, who.id, ChecklistId, t.nextChecklist);
  }

  /** `ORDER BY id DESC`: in a consistent database the posts table read from its
      last row to its first holds every post once and has strictly decreasing ids. */
  lemma NewestFirst(t: Tables)
    requires Consistent(t)
    ensures var r := Reversed(t.posts);
      multiset(r) == multiset(t.posts) &&
      forall i, j :: 0 <= i < j < |r| ==> r[i].id > r[j].id
  {
    ReversedPermutes(t.posts);
    var r := Reversed(t.posts);
    forall i, j | 0 <= i < j < |r|
      ensures r[i].id > r[j].id
    {
      assert PostId(t.posts[|r| - 1 - j]) < PostId(t.posts[|r| - 1 - i]);
    }
  }

  // ---------------------------------------------------------------- the server

  /** The database behind the routes. */
  class Database {
    var users: seq<UserRow>
    var posts: seq<PostRow>
    var comments: seq<CommentRow>
    var diary: seq<DiaryRow>
    var checklists: seq<ChecklistRow>
    var nextUser: int
    var nextPost: int
    var nextComment: int
    var nextDiary: int
    var nextChecklist: int

    function State(): Tables
      reads this
    {
      Tables(users, posts, comments, diary, checklists,
        nextUser, nextPost, nextComment, nextDiary, nextChecklist)
    }

    /** The schema's guarantees hold of the stored tables. */
    ghost predicate Valid()
      reads this
    {
      Consistent(State())
    }

    /** Freshly created tables. */
    constructor ()
      ensures State() == Tables([], [], [], [], [], 1, 1, 1, 1, 1)
      ensures Valid()
    {
      users, posts, comments, diary, checklists := [], [], [], [], [];
      nextUser, nextPost, nextComment, nextDiary, nextChecklist := 1, 1, 1, 1, 1;
    }

    method Signup(name: Option<string>, email: Option<string>, password: Option<string>, hashed: string)
      returns (reply: Reply)
      requires Valid()
      modifies this
      ensures (State(), reply) == SignupRoute(old(State()), name, email, password, hashed)
      ensures Valid()
    {
      SignupKeepsConsistent(State(), name, email, password, hashed);
      if Blank(name) || Blank(email) || Blank(password) {
        return Reply(400, Message(Incomplete));
      }
      var i := 0;
      while i < |users|
        invariant 0 <= i <= |users|
        invariant forall j :: 0 <= j < i ==> users[j].email != email.value
      {
        if users[i].email == email.value {
          return Reply(409, Message(EmailTaken));
        }
        i := i + 1;
      }
      users := users + [UserRow(nextUser, name.value, email.value, hashed)];
      reply := Reply(200, UserInfo(nextUser, name.value, email.value));
      nextUser := nextUser + 1;
    }

    method Login(email: Option<string>, password: string, matches: (string, string) -> bool) returns (reply: Reply)
      requires Valid()
      ensures reply == LoginRoute(State(), email, password, matches)
      ensures email.Some? ==>
        (reply.status == 200 <==>
          exists i :: 0 <= i < |users| && users[i].email == email.value && matches(password, users[i].password))
    {
      if email.None? {
        return Reply(401, Message(BadCredentials));
      }
      LoginAcceptsIff(State(), email.value, password, matches);
      var i := 0;
      while i < |users|
        invariant 0 <= i <= |users|
        invariant forall j :: 0 <= j < i ==> users[j].email != email.value
      {
        if users[i].email == email.value {
          var u := users[i];
          assert FirstIndex(users, UserEmail, email.value) == Some(i);
          if !matches(password, u.password) {
            return Reply(401, Message(BadCredentials));
          }
          return Reply(200, UserInfo(u.id, u.name, u.email));
        }
        i := i + 1;
      }
      return Reply(401, Message(BadCredentials));
    }

    /** `GET /api/community/posts`: the posts newest first, each with its comments. */
    method ListPosts() returns (out: seq<PostWithComments>)
      requires Valid()
      ensures out == WithComments(Reversed(posts), comments)
      ensures forall i, j :: 0 <= i < j < |out| ==> out[i].id > out[j].id
    {
      NewestFirst(State());
      out := [];
      var k := 0;
      while k < |posts|
        invariant 0 <= k <= |posts|
        invariant out == WithComments(Reversed(posts)[..k], comments)
      {
        var p := posts[|posts| - 1 - k];
        out := out + [PostWithComments(p.id, p.author, p.content, p.likes, Filter(comments, OnPost(p.id)))];
        k := k + 1;
        assert Reversed(posts)[..k] == Reversed(posts)[..k - 1] + [p];
      }
      assert Reversed(posts)[..k] == Reversed(posts);
    }

    method NewPost(who: Claims, content: Option<string>) returns (reply: Reply)
      requires Valid()
      modifies this
      ensures (State(), reply) == CreatePost(old(State()), who, content)
      ensures Valid()
    {
      CreatePostKeepsConsistent(State(), who, content);
      if Blank(content) {
        return Reply(400, Message(EmptyContent));
      }
      var row := PostRow(nextPost, who.name, content.value, 0);
      posts := posts + [row];
      nextPost := nextPost + 1;
      reply := Reply(200, Post(PostWithComments(row.id, row.author, row.content, 0, [])));
    }

    method LikePost(id: int) returns (reply: Reply)
      requires Valid()
      modifies this
      ensures (State(), reply) == Like(old(State()), id)
      ensures Valid()
    {
      LikeKeepsConsistent(State(), id);
      posts := AddLike(posts, id);
      reply := Reply(200, UpdatedPost(FindBy(posts, PostId, id)));
    }

    method CommentPost(who: Claims, postId: int, text: Option<string>) returns (reply: Reply)
      requires Valid()
      modifies this
      ensures (State(), reply) == AddComment(old(State()), who, postId, text)
      ensures Valid()
    {
      AddCommentKeepsConsistent(State(), who, postId, text);
      if Blank(text) {
        return Reply(400, Message(EmptyComment));
      }
      var row := CommentRow(nextComment, postId, who.name, text.value);
      comments := comments + [row];
      nextComment := nextComment + 1;
      reply := Reply(200, Comment(row));
    }

    method ListDiary(who: Claims) returns (rows: seq<DiaryRow>)
      ensures rows == OwnDiary(State(), who)
    {
      rows := Filter(diary, OwnedBy(DiaryKey, who.id));
    }

    method NewDiaryEntry(who: Claims, date: Option<string>, note: Option<string>, tags: Option<string>)
      returns (reply: Reply)
      requires Valid()
      modifies this
      ensures (State(), reply) == AddDiary(old(State()), who, date, note, tags)
      ensures Valid()
    {
      AddDiaryKeepsConsistent(State(), who, date, note, tags);
      if Blank(date) || Blank(note) {
        return Reply(400, Message(RequiredFields));
      }
      var row := DiaryRow(nextDiary, who.id, date.value, note.value, tags);
      diary := diary + [row];
      nextDiary := nextDiary + 1;
      reply := Reply(200, DiaryEntry(row));
    }

    /** `DELETE /api/diary/:id`: always answers success, whether or not a row went. */
    method DeleteDiaryEntry(who: Claims, id: int) returns (reply: Reply)
      requires Valid()
      modifies this
      ensures State() == old(State()).(diary := DeleteOwned(old(diary), DiaryKey, id, who.id))
      ensures reply == Reply(200, Success)
      ensures Valid()
    {
      ChecklistChangesKeepConsistent(State(), who, id, 0);
      diary := DeleteOwned(diary, DiaryKey, id, who.id);
      reply := Reply(200, Success);
    }

    method ListChecklists(who: Claims) returns (rows: seq<ChecklistRow>)
      ensures rows == OwnChecklists(State(), who)
    {
      rows := Filter(checklists, OwnedBy(ChecklistKey, who.id));
    }

    method NewChecklistItem(who: Claims, text: Option<string>) returns (reply: Reply)
      requires Valid()
      modifies this
      ensures (State(), reply) == AddChecklist(old(State()), who, text)
      ensures Valid()
    {
      AddChecklistKeepsConsistent(State(), who, text);
      if Blank(text) {
        return Reply(400, Message(TextRequired));
      }
      var row := ChecklistRow(nextChecklist, who.id, text.value, 0);
      checklists := checklists + [row];
      nextChecklist := nextChecklist + 1;
      reply := Reply(200, ChecklistItem(row));
    }

    /** `PUT /api/checklists/:id`. */
    method UpdateChecklistItem(who: Claims, id: int, done: BodyValue) returns (reply: Reply)
      requires Valid()
      modifies this
      ensures State() == old(State()).(checklists := UpdateDone(old(checklists), id, who.id, StoredDone(done)))
      ensures reply == Reply(200, Success)
      ensures Valid()
    {
      ChecklistChangesKeepConsistent(State(), who, id, StoredDone(done));
      checklists := UpdateDone(checklists, id, who.id, if Truthy(done) then 1 else 0);
      reply := Reply(200, Success);
    }

    /** `DELETE /api/checklists/:id`. */
    method DeleteChecklistItem(who: Claims, id: int) returns (reply: Reply)
      requires Valid()
      modifies this
      ensures State() == old(State()).(checklists := DeleteOwned(old(checklists), ChecklistKey, id, who.id))
      ensures reply == Reply(200, Success)
      ensures Valid()
    {
      ChecklistChangesKeepConsistent(State(), who, id, 0);
      checklists := DeleteOwned(checklists, ChecklistKey, id, who.id);
      reply := Reply(200, Success);
    }
  }
}
