/**
 * The database as one object holding the three tables, and every request
 * handler of the API as an operation on it. Handlers that only query the
 * tables are functions; handlers that add, change or delete rows are methods.
 *
 * The caller of a protected handler is an `Option<Identity>`. The token is
 * checked by `Auth.GetCurrentUser` before the handler is entered, and that
 * check either yields an identity or answers 401 itself; so `None` stands
 * for the handlers' own "no user" check, which no request reaches. Each
 * handler rejects invalid path parameters or body (422), then a missing
 * caller, then runs its query.
 */
module Blog {
  import opened Wrappers
  import opened Http
  import opened Models
  import opened Auth
  import opened Query
  import Schemas

  /** A comment as the nested read returns it: with its author row loaded. */
  datatype CommentWithAuthor = CommentWithAuthor(comment: Comment, author: Option<User>)

  /** A post with its comments, keyed by comment id, each with its author. */
  datatype PostWithComments = PostWithComments(post: Post, comments: map<int, CommentWithAuthor>)

  class Store {
    var users: map<int, User>
    var posts: map<int, Post>
    var comments: map<int, Comment>

    // The next primary key the engine hands out in each table.
    var nextUserId: int
    var nextPostId: int
    var nextCommentId: int

    /**
     * What the schema enforces: the primary keys and the unique username and
     * email columns. The model also assumes that each table's ids come from a
     * positive counter that is never reused, so every id lies below it.
     */
    ghost predicate Valid()
      reads this
    {
      && UserKeys(users) && PostKeys(posts) && CommentKeys(comments)
      && 0 < nextUserId && 0 < nextPostId && 0 < nextCommentId
      && (forall id :: id in users ==> 0 < id < nextUserId)
      && (forall id :: id in posts ==> 0 < id < nextPostId)
      && (forall id :: id in comments ==> 0 < id < nextCommentId)
      && UniqueUsernames(users) && UniqueEmails(users)
    }

    /** The foreign keys: every author and every parent post a row names exists. */
    ghost predicate Linked()
      reads this
    {
      && PostAuthorsExist(posts, users)
      && CommentAuthorsExist(comments, users)
      && CommentPostsExist(comments, posts)
    }

    constructor ()
      ensures Valid() && Linked()
      ensures users == map[] && posts == map[] && comments == map[]
    {
      users, posts, comments := map[], map[], map[];
      nextUserId, nextPostId, nextCommentId := 1, 1, 1;
    }

    /*  Queries shared by several handlers  */

    /** `query(Post).filter(Post.id == postId).first()` */
    function FindPost(postId: int): (r: Option<Post>)
      reads this
      requires Valid()
      ensures r.Some? <==> exists id :: id in posts && posts[id].id == postId
      ensures r.Some? ==> postId in posts && r.value == posts[postId]
    {
      if postId in posts then Some(posts[postId]) else None
    }

    /** `query(Post).filter(Post.author_id == userId).filter(Post.id == postId).first()` */
    function FindOwnedPost(userId: int, postId: int): (r: Option<Post>)
      reads this
      requires Valid()
      ensures r.Some? <==> exists id :: id in posts && posts[id].id == postId && posts[id].authorId == userId
      ensures r.Some? ==> postId in posts && r.value == posts[postId]
    {
      if postId in posts && posts[postId].authorId == userId then Some(posts[postId]) else None
    }

    /** `query(Comment).filter(Comment.author_id == userId).filter(Comment.id == commentId).first()` */
    function FindOwnedComment(userId: int, commentId: int): (r: Option<Comment>)
      reads this
      requires Valid()
      ensures r.Some? <==> exists id :: id in comments && comments[id].id == commentId && comments[id].authorId == userId
      ensures r.Some? ==> commentId in comments && r.value == comments[commentId]
    {
      if commentId in comments && comments[commentId].authorId == userId then Some(comments[commentId]) else None
    }

    /** `query(User).filter(User.username == username).first()` */
    ghost function FindUserByUsername(username: string): (r: Option<User>)
      reads this
      requires Valid()
      ensures r.Some? <==> exists id :: id in users && users[id].username == username
      ensures r.Some? ==> r.value.id in users && users[r.value.id] == r.value && r.value.username == username
    {
      if exists id :: id in users && users[id].username == username then
        var id :| id in users && users[id].username == username;
        Some(users[id])
      else
        None
    }

    /*  posts.py  */

    /** `GET /posts/`: the caller's own posts, and no other. */
    function ReadAllPosts(caller: Option<Identity>): (r: Result<set<Post>>)
      reads this
      requires Valid()
      ensures r.Err? <==> caller.None?
      ensures r.Err? ==> r.error == Unauthorized
      ensures r.Ok? ==> forall id :: id in posts ==> (posts[id] in r.value <==> posts[id].authorId == caller.value.id)
      ensures r.Ok? ==> forall p :: p in r.value ==> p.id in posts && posts[p.id] == p && p.authorId == caller.value.id
    {
      if caller.None? then Err(Unauthorized)
      else
        var mine := PostsOf(posts, caller.value.id);
        Ok(set id | id in mine :: mine[id])
    }

    /**
     * `GET /posts/{id}`: the post only when both its id and its author match;
     * a post of another user gets the same 404 as a missing one.
     */
    function ReadSinglePost(caller: Option<Identity>, postId: int): (r: Result<Post>)
      reads this
      requires Valid()
      ensures r == Err(Unprocessable) <==> postId <= 0
      ensures r == Err(Unauthorized) <==> postId > 0 && caller.None?
      ensures r == Err(PostNotFound) <==> postId > 0 && caller.Some? && FindOwnedPost(caller.value.id, postId).None?
      ensures r.Ok? <==> postId > 0 && caller.Some? && FindOwnedPost(caller.value.id, postId).Some?
      ensures r.Ok? ==> postId in posts && r.value == posts[postId] && r.value.authorId == caller.value.id
    {
      if postId <= 0 then Err(Unprocessable)
      else if caller.None? then Err(Unauthorized)
      else match FindOwnedPost(caller.value.id, postId)
        case Some(post) => Ok(post)
        case None => Err(PostNotFound)
    }

    /**
     * `GET /posts/{id}/comments`, as written: it filters the caller's comments
     * on `Comment.id == postId`, so it sees at most the one comment whose own
     * id equals the path's post id, whatever post that comment is on.
     */
    function ReadComments(caller: Option<Identity>, postId: int, skip: int, limit: int): (r: Result<seq<Comment>>)
      reads this
      requires Valid()
      ensures r == Err(Unprocessable) <==> postId <= 0
      ensures r == Err(Unauthorized) <==> postId > 0 && caller.None?
      ensures r.Ok? <==> postId > 0 && caller.Some?
      ensures r.Ok? ==> |r.value| <= 1 && (limit >= 0 ==> |r.value| <= limit)
      ensures r.Ok? ==> forall i :: 0 <= i < |r.value| ==>
                          && r.value[i].id == postId && r.value[i].authorId == caller.value.id
                          && postId in comments && comments[postId] == r.value[i]
      ensures r.Ok? ==> (r.value != [] <==> skip <= 0 && limit != 0 && FindOwnedComment(caller.value.id, postId).Some?)
    {
      if postId <= 0 then Err(Unprocessable)
      else if caller.None? then Err(Unauthorized)
      else
        var matched := match FindOwnedComment(caller.value.id, postId)
          case Some(comment) => [comment]
          case None => [];
        Ok(Page(matched, skip, limit))
    }

    /** The caller's comments on a post, in ascending id order. */
    function OwnCommentsOn(userId: int, postId: int): (rows: seq<Comment>)
      reads this
      requires Valid()
      ensures forall i :: 0 <= i < |rows| ==>
                && rows[i].postId == Some(postId) && rows[i].authorId == userId
                && rows[i].id in comments && comments[rows[i].id] == rows[i]
      ensures forall i, j :: 0 <= i < j < |rows| ==> rows[i].id < rows[j].id
      ensures forall id :: id in comments && comments[id].postId == Some(postId) && comments[id].authorId == userId ==>
                comments[id] in rows
    {
      OwnRowsInOrder(comments, nextCommentId, userId, postId);
      Rows(comments, Ascending(OwnIds(comments, userId, postId), 1, nextCommentId))
    }

    /**
     * `GET /posts/{id}/comments` as its documentation describes it: the
     * caller's comments on the post, in ascending id order, then paged.
     */
    function ReadPostComments(caller: Option<Identity>, postId: int, skip: int, limit: int): (r: Result<seq<Comment>>)
      reads this
      requires Valid()
      ensures r == Err(Unprocessable) <==> postId <= 0
      ensures r == Err(Unauthorized) <==> postId > 0 && caller.None?
      ensures r.Ok? <==> postId > 0 && caller.Some?
      ensures r.Ok? ==> r.value == Page(OwnCommentsOn(caller.value.id, postId), skip, limit)
      ensures r.Ok? ==> forall i :: 0 <= i < |r.value| ==>
                          && r.value[i].postId == Some(postId) && r.value[i].authorId == caller.value.id
                          && r.value[i].id in comments && comments[r.value[i].id] == r.value[i]
      ensures r.Ok? ==> forall i, j :: 0 <= i < j < |r.value| ==> r.value[i].id < r.value[j].id
      ensures r.Ok? && limit >= 0 ==> |r.value| <= limit
      ensures r.Ok? && skip <= 0 && limit < 0 ==>
                forall id :: id in comments && comments[id].postId == Some(postId) && comments[id].authorId == caller.value.id ==>
                  comments[id] in r.value
    {
      if postId <= 0 then Err(Unprocessable)
      else if caller.None? then Err(Unauthorized)
      else
        var rows := OwnCommentsOn(caller.value.id, postId);
        PageOfOwnComments(comments, rows, caller.value.id, postId, skip, limit);
        Ok(Page(rows, skip, limit))
    }

    /**
     * `GET /posts/{id}/with-comments`: any existing post, whoever owns it, with
     * all its comments and their authors.
     */
    function ReadPostWithComments(caller: Option<Identity>, postId: int): (r: Result<PostWithComments>)
      reads this
      requires Valid()
      ensures r == Err(Unauthorized) <==> caller.None?
      ensures r == Err(PostNotFound) <==> caller.Some? && FindPost(postId).None?
      ensures r.Ok? <==> caller.Some? && FindPost(postId).Some?
      ensures r.Ok? ==> postId in posts && r.value.post == posts[postId]
      ensures r.Ok? ==> forall id :: id in r.value.comments <==> id in comments && comments[id].postId == Some(postId)
      ensures r.Ok? ==> forall id :: id in r.value.comments ==>
                          r.value.comments[id] == CommentWithAuthor(comments[id], AuthorOf(users, comments[id].authorId))
    {
      if caller.None? then Err(Unauthorized)
      else match FindPost(postId)
        case None => Err(PostNotFound)
        case Some(post) =>
          var thread := CommentsOn(comments, postId);
          Ok(PostWithComments(post, map id | id in thread :: CommentWithAuthor(thread[id], AuthorOf(users, thread[id].authorId))))
    }

    /** `POST /posts/`: one new post by the caller; nothing else changes. */
    method CreatePost(caller: Option<Identity>, post: Schemas.PostCreate, now: int) returns (r: Result<Post>)
      requires Valid()
      modifies this
      ensures Valid()
      ensures users == old(users) && comments == old(comments)
      ensures nextUserId == old(nextUserId) && nextCommentId == old(nextCommentId)
      ensures r.Err? ==> posts == old(posts) && nextPostId == old(nextPostId)
      ensures r == Err(Unprocessable) <==> !Schemas.ValidPostCreate(post)
      ensures r == Err(Unauthorized) <==> Schemas.ValidPostCreate(post) && caller.None?
      ensures r.Ok? <==> Schemas.ValidPostCreate(post) && caller.Some?
      ensures r.Ok? ==>
                && r.value.id !in old(posts)
                && r.value == Post(r.value.id, post.title, post.content, caller.value.id, now)
                && posts == old(posts)[r.value.id := r.value]
                && nextPostId == old(nextPostId) + 1
                && ReadSinglePost(caller, r.value.id) == Ok(r.value)
      ensures old(Linked()) && (caller.Some? ==> caller.value.id in users) ==> Linked()
    {
      if !Schemas.ValidPostCreate(post) {
        return Err(Unprocessable);
      }
      if caller.None? {
        return Err(Unauthorized);
      }
      var created := Post(nextPostId, post.title, post.content, caller.value.id, now);
      posts := posts[created.id := created];
      nextPostId := nextPostId + 1;
      r := Ok(created);
    }

    /** `PUT /posts/{id}`: replaces the title and content of an owned post and nothing else. */
    method UpdatePost(caller: Option<Identity>, postId: int, post: Schemas.PostCreate) returns (r: Result<Post>)
      requires Valid()
      modifies this
      ensures Valid() && Linked() == old(Linked())
      ensures users == old(users) && comments == old(comments)
      ensures nextUserId == old(nextUserId) && nextPostId == old(nextPostId) && nextCommentId == old(nextCommentId)
      ensures r.Err? ==> posts == old(posts)
      ensures r == Err(Unprocessable) <==> postId <= 0 || !Schemas.ValidPostCreate(post)
      ensures r == Err(Unauthorized) <==> postId > 0 && Schemas.ValidPostCreate(post) && caller.None?
      ensures r == Err(PostNotFound) <==>
                postId > 0 && Schemas.ValidPostCreate(post) && caller.Some? && old(FindOwnedPost(caller.value.id, postId)).None?
      ensures r.Ok? <==>
                postId > 0 && Schemas.ValidPostCreate(post) && caller.Some? && old(FindOwnedPost(caller.value.id, postId)).Some?
      ensures r.Ok? ==>
                && postId in old(posts)
                && r.value == old(posts)[postId].(title := post.title, content := post.content)
                && posts == old(posts)[postId := r.value]
                && ReadSinglePost(caller, postId) == Ok(r.value)
    {
      if postId <= 0 || !Schemas.ValidPostCreate(post) {
        return Err(Unprocessable);
      }
      if caller.None? {
        return Err(Unauthorized);
      }
      var found := FindOwnedPost(caller.value.id, postId);
      if found.None? {
        return Err(PostNotFound);
      }
      var updated := found.value.(title := post.title, content := post.content);
      posts := posts[postId := updated];
      assert posts.Keys == old(posts).Keys;
      r := Ok(updated);
    }

    /**
     * `DELETE /posts/{id}`: removes the owned post and no other row. Its
     * comments stay, detached from it: the ORM clears their post reference.
     */
    method DeletePost(caller: Option<Identity>, postId: int) returns (r: Result<()>)
      requires Valid()
      modifies this
      ensures Valid() && (old(Linked()) ==> Linked())
      ensures users == old(users)
      ensures nextUserId == old(nextUserId) && nextPostId == old(nextPostId) && nextCommentId == old(nextCommentId)
      ensures r.Err? ==> posts == old(posts) && comments == old(comments)
      ensures r == Err(Unprocessable) <==> postId <= 0
      ensures r == Err(Unauthorized) <==> postId > 0 && caller.None?
      ensures r == Err(PostNotFound) <==> postId > 0 && caller.Some? && old(FindOwnedPost(caller.value.id, postId)).None?
      ensures r.Ok? <==> postId > 0 && caller.Some? && old(FindOwnedPost(caller.value.id, postId)).Some?
      ensures r.Ok? ==>
                && postId in old(posts)
                && posts == old(posts) - {postId}
                && comments == Detach(old(comments), postId)
                && ReadSinglePost(caller, postId) == Err(PostNotFound)
    {
      if postId <= 0 {
        return Err(Unprocessable);
      }
      if caller.None? {
        return Err(Unauthorized);
      }
      if FindOwnedPost(caller.value.id, postId).None? {
        return Err(PostNotFound);
      }
      posts := posts - {postId};
      comments := Detach(comments, postId);
      r := Ok(());
    }

    /**
     * `POST /posts/{id}/comment`: one new comment by the caller on any existing
     * post, whoever owns it; 404 when no post has that id.
     */
    method CreateComment(caller: Option<Identity>, postId: int, comment: Schemas.CommentCreate, now: int)
      returns (r: Result<Comment>)
      requires Valid()
      modifies this
      ensures Valid()
      ensures users == old(users) && posts == old(posts)
      ensures nextUserId == old(nextUserId) && nextPostId == old(nextPostId)
      ensures r.Err? ==> comments == old(comments) && nextCommentId == old(nextCommentId)
      ensures r == Err(Unprocessable) <==> postId <= 0 || !Schemas.ValidCommentCreate(comment)
      ensures r == Err(Unauthorized) <==> postId > 0 && Schemas.ValidCommentCreate(comment) && caller.None?
      ensures r == Err(PostNotFound) <==>
                postId > 0 && Schemas.ValidCommentCreate(comment) && caller.Some? && old(FindPost(postId)).None?
      ensures r.Ok? <==>
                postId > 0 && Schemas.ValidCommentCreate(comment) && caller.Some? && old(FindPost(postId)).Some?
      ensures r.Ok? ==>
                && r.value.id !in old(comments)
                && r.value == Comment(r.value.id, comment.content, caller.value.id, Some(postId), now)
                && comments == old(comments)[r.value.id := r.value]
                && nextCommentId == old(nextCommentId) + 1
                && ReadSingleComment(caller, r.value.id) == Ok(r.value)
      ensures old(Linked()) && (caller.Some? ==> caller.value.id in users) ==> Linked()
    {
      if postId <= 0 || !Schemas.ValidCommentCreate(comment) {
        return Err(Unprocessable);
      }
      if caller.None? {
        return Err(Unauthorized);
      }
      if FindPost(postId).None? {
        return Err(PostNotFound);
      }
      var created := Comment(nextCommentId, comment.content, caller.value.id, Some(postId), now);
      comments := comments[created.id := created];
      nextCommentId := nextCommentId + 1;
      r := Ok(created);
    }

    /*  comments.py  */

    /** `GET /comments/{id}`: the comment only when both its id and its author match. */
    function ReadSingleComment(caller: Option<Identity>, commentId: int): (r: Result<Comment>)
      reads this
      requires Valid()
      ensures r == Err(Unprocessable) <==> commentId <= 0
      ensures r == Err(Unauthorized) <==> commentId > 0 && caller.None?
      ensures r == Err(CommentNotFound) <==>
                commentId > 0 && caller.Some? && FindOwnedComment(caller.value.id, commentId).None?
      ensures r.Ok? <==> commentId > 0 && caller.Some? && FindOwnedComment(caller.value.id, commentId).Some?
      ensures r.Ok? ==> commentId in comments && r.value == comments[commentId] && r.value.authorId == caller.value.id
    {
      if commentId <= 0 then Err(Unprocessable)
      else if caller.None? then Err(Unauthorized)
      else match FindOwnedComment(caller.value.id, commentId)
        case Some(comment) => Ok(comment)
        case None => Err(CommentNotFound)
    }

    /**
     * `PUT /comments/{id}`: replaces only the content of an owned comment. The
     * body also carries an id, author, post and timestamp; they are ignored.
     */
    method UpdateComment(caller: Option<Identity>, commentId: int, comment: Schemas.CommentBase) returns (r: Result<Comment>)
      requires Valid()
      modifies this
      ensures Valid() && Linked() == old(Linked())
      ensures users == old(users) && posts == old(posts)
      ensures nextUserId == old(nextUserId) && nextPostId == old(nextPostId) && nextCommentId == old(nextCommentId)
      ensures r.Err? ==> comments == old(comments)
      ensures r == Err(Unprocessable) <==> commentId <= 0
      ensures r == Err(Unauthorized) <==> commentId > 0 && caller.None?
      ensures r == Err(CommentNotFound) <==>
                commentId > 0 && caller.Some? && old(FindOwnedComment(caller.value.id, commentId)).None?
      ensures r.Ok? <==> commentId > 0 && caller.Some? && old(FindOwnedComment(caller.value.id, commentId)).Some?
      ensures r.Ok? ==>
                && commentId in old(comments)
                && r.value == old(comments)[commentId].(content := comment.content)
                && comments == old(comments)[commentId := r.value]
                && ReadSingleComment(caller, commentId) == Ok(r.value)
    {
      if commentId <= 0 {
        return Err(Unprocessable);
      }
      if caller.None? {
        return Err(Unauthorized);
      }
      var found := FindOwnedComment(caller.value.id, commentId);
      if found.None? {
        return Err(CommentNotFound);
      }
      var updated := found.value.(content := comment.content);
      comments := comments[commentId := updated];
      assert comments.Keys == old(comments).Keys;
      r := Ok(updated);
    }

    /** `DELETE /comments/{id}`: removes the owned comment and no other row. */
    method DeleteComment(caller: Option<Identity>, commentId: int) returns (r: Result<()>)
      requires Valid()
      modifies this
      ensures Valid()
      ensures users == old(users) && posts == old(posts)
      ensures nextUserId == old(nextUserId) && nextPostId == old(nextPostId) && nextCommentId == old(nextCommentId)
      ensures r.Err? ==> comments == old(comments)
      ensures r == Err(Unprocessable) <==> commentId <= 0
      ensures r == Err(Unauthorized) <==> commentId > 0 && caller.None?
      ensures r == Err(CommentNotFound) <==>
                commentId > 0 && caller.Some? && old(FindOwnedComment(caller.value.id, commentId)).None?
      ensures r.Ok? <==> commentId > 0 && caller.Some? && old(FindOwnedComment(caller.value.id, commentId)).Some?
      ensures r.Ok? ==>
                && commentId in old(comments)
                && comments == old(comments) - {commentId}
                && ReadSingleComment(caller, commentId) == Err(CommentNotFound)
      ensures old(Linked()) ==> Linked()
    {
      if commentId <= 0 {
        return Err(Unprocessable);
      }
      if caller.None? {
        return Err(Unauthorized);
      }
      if FindOwnedComment(caller.value.id, commentId).None? {
        return Err(CommentNotFound);
      }
      comments := comments - {commentId};
      r := Ok(());
    }

    /*  auth.py  */

    /** The user with exactly that username, when the password verifies against its stored digest. */
    ghost function AuthenticateUser(hasher: Hasher, username: string, password: string): (r: Option<User>)
      reads this
      requires Valid()
      ensures r.Some? <==>
                exists id :: id in users && users[id].username == username && hasher.verify(password, users[id].hashedPassword)
      ensures r.Some? ==>
                && r.value.id in users && users[r.value.id] == r.value
                && r.value.username == username && hasher.verify(password, r.value.hashedPassword)
    {
      match FindUserByUsername(username)
      case None => None
      case Some(user) => if hasher.verify(password, user.hashedPassword) then Some(user) else None
    }

    /**
     * `POST /auth/`: registers a user, storing the digest of the password and
     * never the password; 400 when the username or the email is taken.
     */
    method CreateUser(hasher: Hasher, salt: nat, request: Schemas.CreatUserRequest) returns (r: Result<User>)
      requires Valid()
      modifies this
      ensures Valid() && (old(Linked()) ==> Linked())
      ensures posts == old(posts) && comments == old(comments)
      ensures nextPostId == old(nextPostId) && nextCommentId == old(nextCommentId)
      ensures r.Err? ==> users == old(users) && nextUserId == old(nextUserId)
      ensures r == Err(Unprocessable) <==> !Schemas.ValidCreatUserRequest(request)
      ensures r == Err(UsernameExists) <==>
                && Schemas.ValidCreatUserRequest(request)
                && exists id :: id in old(users) && (old(users)[id].username == request.username || old(users)[id].email == request.email)
      ensures r.Ok? <==>
                && Schemas.ValidCreatUserRequest(request)
                && forall id :: id in old(users) ==> old(users)[id].username != request.username && old(users)[id].email != request.email
      ensures r.Ok? ==>
                && r.value.id !in old(users)
                && r.value == User(r.value.id, request.username, request.email, request.firstName, request.lastName,
                                   hasher.hash(request.password, salt), request.role)
                && users == old(users)[r.value.id := r.value]
                && nextUserId == old(nextUserId) + 1
    {
      if !Schemas.ValidCreatUserRequest(request) {
        return Err(Unprocessable);
      }
      var created := User(nextUserId, request.username, request.email, request.firstName, request.lastName,
                          hasher.hash(request.password, salt), request.role);
      if exists id :: id in users && (users[id].username == created.username || users[id].email == created.email) {
        return Err(UsernameExists);
      }
      users := users[created.id := created];
      nextUserId := nextUserId + 1;
      r := Ok(created);
    }

    /**
     * `POST /auth/token`: a bearer token for the authenticated user, expiring
     * fifteen minutes after `now`; 401 when authentication fails.
     */
    ghost function LoginForAccessToken(hasher: Hasher, username: string, password: string, now: int): (r: Result<TokenResponse>)
      reads this
      requires Valid()
      ensures r.Err? <==> AuthenticateUser(hasher, username, password).None?
      ensures r.Err? ==> r.error == IncorrectCredentials
      ensures r.Ok? ==>
                var user := AuthenticateUser(hasher, username, password).value;
                && r.value.tokenType == "bearer"
                && r.value.accessToken == CreateAccessToken(user.username, user.id, user.role, AccessTokenLifetime, now)
      ensures r.Ok? ==> r.value.accessToken.exp == Some(now + 15 * 60)
      ensures r.Ok? ==>
                exists id :: id in users && users[id].username == username &&
                  GetCurrentUser(Some(r.value.accessToken)) == Ok(Identity(username, id, Some(users[id].role)))
    {
      match AuthenticateUser(hasher, username, password)
      case None => Err(IncorrectCredentials)
      case Some(user) =>
        Ok(TokenResponse(CreateAccessToken(user.username, user.id, user.role, AccessTokenLifetime, now), "bearer"))
    }

    /*  user.py  */

    /** `GET /user/`: the user row of the caller's id; none when no row has that id. */
    function ReadCurrentUser(caller: Option<Identity>): (r: Result<Option<User>>)
      reads this
      requires Valid()
      ensures r.Err? <==> caller.None?
      ensures r.Err? ==> r.error == Unauthorized
      ensures r.Ok? ==> (r.value.Some? <==> exists id :: id in users && users[id].id == caller.value.id)
      ensures r.Ok? && r.value.Some? ==> caller.value.id in users && r.value.value == users[caller.value.id]
    {
      if caller.None? then Err(Unauthorized)
      else if caller.value.id in users then Ok(Some(users[caller.value.id]))
      else Ok(None)
    }

    /**
     * `PUT /user/update_password`: when the old password verifies, the caller's
     * stored digest becomes that of the new password and nothing else changes.
     * A caller id with no user row makes the handler fail with 500.
     */
    method UpdatePassword(hasher: Hasher, salt: nat, caller: Option<Identity>, verification: Schemas.UserVerification)
      returns (r: Result<()>)
      requires Valid()
      modifies this
      ensures Valid() && Linked() == old(Linked())
      ensures posts == old(posts) && comments == old(comments)
      ensures nextUserId == old(nextUserId) && nextPostId == old(nextPostId) && nextCommentId == old(nextCommentId)
      ensures r.Err? ==> users == old(users)
      ensures r == Err(Unprocessable) <==> !Schemas.ValidUserVerification(verification)
      ensures r == Err(AuthorizationFailed) <==> Schemas.ValidUserVerification(verification) && caller.None?
      ensures r == Err(InternalError) <==>
                Schemas.ValidUserVerification(verification) && caller.Some? && caller.value.id !in old(users)
      ensures r == Err(InvalidPassword) <==>
                && Schemas.ValidUserVerification(verification) && caller.Some? && caller.value.id in old(users)
                && !hasher.verify(verification.password, old(users)[caller.value.id].hashedPassword)
      ensures r.Ok? <==>
                && Schemas.ValidUserVerification(verification) && caller.Some? && caller.value.id in old(users)
                && hasher.verify(verification.password, old(users)[caller.value.id].hashedPassword)
      ensures r.Ok? ==>
                && caller.value.id in old(users)
                && users == old(users)[caller.value.id :=
                     old(users)[caller.value.id].(hashedPassword := hasher.hash(verification.newPassword, salt))]
    {
      if !Schemas.ValidUserVerification(verification) {
        return Err(Unprocessable);
      }
      if caller.None? {
        return Err(AuthorizationFailed);
      }
      var id := caller.value.id;
      if id !in users {
        return Err(InternalError);
      }
      var user := users[id];
      if !hasher.verify(verification.password, user.hashedPassword) {
        return Err(InvalidPassword);
      }
      users := users[id := user.(hashedPassword := hasher.hash(verification.newPassword, salt))];
      r := Ok(());
    }
  }

  /**
   * The rows of a set of comment ids listed in ascending order: each is a row
   * of the table with one of those ids, ordered by id, and every comment of the
   * set within the range is among them.
   */
  lemma AscendingRows(comments: map<int, Comment>, ids: set<int>, lo: int, hi: int)
    requires CommentKeys(comments)
    requires forall id :: id in ids ==> id in comments
    ensures var order := Ascending(ids, lo, hi);
            && (forall i :: 0 <= i < |order| ==> order[i] in comments)
            && var rows := Rows(comments, order);
            && (forall i :: 0 <= i < |rows| ==> rows[i].id in ids && comments[rows[i].id] == rows[i])
            && (forall i, j :: 0 <= i < j < |rows| ==> rows[i].id < rows[j].id)
            && (forall id :: id in ids && lo <= id < hi ==> comments[id] in rows)
  {
  }

  /** The ids of a user's comments on a post. */
  function OwnIds(comments: map<int, Comment>, userId: int, postId: int): (ids: set<int>)
    ensures forall id :: id in ids <==> id in comments && comments[id].postId == Some(postId) && comments[id].authorId == userId
  {
    set id | id in comments && comments[id].postId == Some(postId) && comments[id].authorId == userId
  }

  /** Those comments listed by ascending id, below the table's next id, are all of them and in order. */
  lemma OwnRowsInOrder(comments: map<int, Comment>, next: int, userId: int, postId: int)
    requires CommentKeys(comments)
    requires forall id :: id in comments ==> 0 < id < next
    ensures var ids := OwnIds(comments, userId, postId);
            && (forall i :: 0 <= i < |Ascending(ids, 1, next)| ==> Ascending(ids, 1, next)[i] in comments)
            && var rows := Rows(comments, Ascending(ids, 1, next));
            && (forall i :: 0 <= i < |rows| ==>
                  && rows[i].postId == Some(postId) && rows[i].authorId == userId
                  && rows[i].id in comments && comments[rows[i].id] == rows[i])
            && (forall i, j :: 0 <= i < j < |rows| ==> rows[i].id < rows[j].id)
            && (forall id :: id in comments && comments[id].postId == Some(postId) && comments[id].authorId == userId ==>
                  comments[id] in rows)
  {
    AscendingRows(comments, OwnIds(comments, userId, postId), 1, next);
  }

  /** A page of a user's comments on a post, listed by ascending id, is such a listing too. */
  lemma PageOfOwnComments(comments: map<int, Comment>, rows: seq<Comment>, userId: int, postId: int, skip: int, limit: int)
    requires forall i :: 0 <= i < |rows| ==>
               && rows[i].postId == Some(postId) && rows[i].authorId == userId
               && rows[i].id in comments && comments[rows[i].id] == rows[i]
    requires forall i, j :: 0 <= i < j < |rows| ==> rows[i].id < rows[j].id
    ensures var page := Page(rows, skip, limit);
            && (forall i :: 0 <= i < |page| ==>
                  && page[i].postId == Some(postId) && page[i].authorId == userId
                  && page[i].id in comments && comments[page[i].id] == page[i])
            && (forall i, j :: 0 <= i < j < |page| ==> page[i].id < page[j].id)
            && (limit >= 0 ==> |page| <= limit)
            && (skip <= 0 && limit < 0 ==> page == rows)
  {
    PageKeepsOrder(rows, skip, limit);
    PageOfAll(rows, skip, limit);
  }

  /** Paging rows ordered by id keeps them ordered. */
  lemma PageKeepsOrder(rows: seq<Comment>, skip: int, limit: int)
    requires forall i, j :: 0 <= i < j < |rows| ==> rows[i].id < rows[j].id
    ensures var page := Page(rows, skip, limit);
            forall i, j :: 0 <= i < j < |page| ==> page[i].id < page[j].id
  {
  }
}
