# A verified model of a blog backend

The system is a small HTTP API for a blog. Users register and log in with a
password. A login returns a short-lived bearer token. With that token a user
creates, reads, updates and deletes their own posts and comments, and reads
any post together with all its comments.

The model keeps the three database tables as maps from primary key to row,
inside one object, `Blog.Store`:

- `Valid()` is what the schema enforces, the primary keys and the unique
  username and email columns, together with the model's own assumption that
  each table hands out ids from a counter that is never reused.
- `Linked()` is the foreign keys: every author and every parent post that a
  row names exists.

Each request handler is an operation on the store:

- read handlers are functions;
- handlers that insert, change or delete rows are methods;
- each one states its effect on all three tables and on the id counters.

The bearer token of a protected request is checked by `Auth.GetCurrentUser`,
which the framework runs as a dependency before the handler, and before it
validates the path and the body. That check either yields the caller's
identity or answers 401 "could not validate user" itself, so a bad token
gets this 401 even when the body is invalid. The handlers take the caller
as an `Option<Identity>`. The value `None` stands for the handlers' own
`user is None` branch, which no request reaches, because the dependency
never returns None. Each handler model checks in this order:

1. path and body validation, which gives 422;
2. the unreachable missing-caller branch, which gives 401;
3. its own query.

The modules follow the program's layout:

- `Http`: error responses and the `Result` type.
- `Schemas`: the request body validators, as predicates.
- `Models`: the row types, the table constraints and the ORM relationships.
- `Auth`: the token claims, created at login and checked on every request.
- `Query`: what `OFFSET`/`LIMIT` and id ordering do to a result.
- `Blog`: the store and its handlers.
- `Ownership`: properties that relate several handlers or two stores.

The model follows the code wherever the code and the API's written
description differ:

- **Updates.** `PUT /posts/{id}` always replaces both title and content.
  `PUT /comments/{id}` takes a full comment body but replaces only its
  content. Neither merges "supplied fields".
- **Post titles.** A post title needs at least three characters, so a post
  titled "Hi" is refused with 422.
- **Registration.** It refuses a taken email with the same 400 "Username
  already exists" as a taken username.
- **Nested read.** `GET /posts/{id}/with-comments` declares no lower bound on
  the id and filters on no owner. Any caller reads any post, and a
  non-positive id is a 404, not a 422.
- **Post comments.** `GET /posts/{id}/comments` filters on the comment id, not
  on the post id (see Findings).
- **Deleting a post.** `Post.comments` declares no delete cascade. Deleting
  a post through the ORM keeps its comments and sets their `post_id` to NULL
  (`Models.Detach`).

## Model

| member | source | states |
|---|---|---|
| Schemas.ParseRole | app/schemas.py:9-13 | a role string is accepted exactly when it is "admin" or "user", and parsing gives back a role whose value is that string |
| Schemas.RoleValueParses | app/schemas.py:12-13 | every role's stored value parses back to that role |
| Schemas.NewPasswordRuleIsWeaker | app/schemas.py:72-76 | every password registration accepts is accepted as a new password; a six-character new password is accepted although registration refuses it |
| Schemas.ValidCreatUserRequest | app/schemas.py:16-24 | a registration body is valid exactly when username and email have 3 to 100 characters, first and last name 2 to 100, the password 8 to 100, and the role is "admin" or "user" |
| Schemas.ValidPostCreate | app/schemas.py:34-38 | a post body is valid exactly when the title has 3 to 100 characters and the content 3 to 1000 |
| Schemas.ValidCommentCreate | app/schemas.py:50-53 | a comment body is valid exactly when its content has 3 to 1000 characters |
| Schemas.ValidUserVerification | app/schemas.py:72-76 | a password change body is valid exactly when the new password has at least 6 characters; the old password is unconstrained |
| Models.PostsOf | app/models.py:22 | `User.posts`: exactly the posts whose author id is the user's id, unchanged |
| Models.CommentsOf | app/models.py:23 | `User.comments`: exactly the comments whose author id is the user's id |
| Models.CommentsOn | app/models.py:38 | `Post.comments`: exactly the comments whose post id is the post's id |
| Models.AuthorOf | app/models.py:37 | `Post.author` / `Comment.author`: a user is found exactly when some user row has that id, and it is that row |
| Models.Detach | app/models.py:38 | deleting a post keeps every comment row; the post's comments lose their post reference and all other comments are unchanged |
| Models.RelationshipsAgree | app/models.py:22-53 | the `back_populates` pairs agree: a post is among a user's posts exactly when that user is the post's author, and likewise for comments |
| Auth.CreateAccessToken | app/routers/auth.py:42-50 | the token expires `expireDelta` after `now`, and its claims check returns the same username, id and role |
| Auth.GetCurrentUser | app/routers/auth.py:53-73 | the check fails, always with 401 "could not validate user", exactly when decoding fails or the subject or user id claim is missing; otherwise the identity carries the claims |
| Query.Page | app/routers/posts.py:79-80 | `OFFSET`/`LIMIT` under SQLite's semantics: the page length follows from skip, limit and the row count (a negative offset counts as zero, a negative limit means none), and row i of the page is row start+i of the input |
| Blog.Store.Valid | app/models.py:14-46 | the primary keys of all three tables (`users.id`, `posts.id`, `comments.id`), the unique username and email columns, and ids below each table's counter |
| Blog.Store.Linked | app/models.py:34-49 | the foreign keys: every post's and comment's author exists, and every comment that names a post names an existing one |
| Blog.Store.constructor | app/models.py:9-53 | an empty database satisfies the schema and the foreign keys |
| Blog.Store.FindPost | app/routers/posts.py:45 | a post is found exactly when a row has that id, and it is that row |
| Blog.Store.FindOwnedPost | app/routers/posts.py:120-125 | a post is found exactly when a row has that id and that author |
| Blog.Store.FindOwnedComment | app/routers/comments.py:32-37 | a comment is found exactly when a row has that id and that author |
| Blog.Store.OwnCommentsOn | app/routers/posts.py:75-82 | the corrected query before paging: exactly the caller's comments on the post, each a stored row, in strictly ascending id order |
| Blog.Store.FindUserByUsername | app/routers/auth.py:34 | a user is found exactly when a row has that username, and it is a stored row |
| Blog.Store.ReadAllPosts | app/routers/posts.py:23-30 | 401 exactly without a caller; otherwise a post of the table is in the result exactly when the caller wrote it, and the result holds only stored rows |
| Blog.Store.ReadSinglePost | app/routers/posts.py:111-128 | 422 exactly for a non-positive id, then 401 exactly without a caller, then 404 exactly when the caller owns no post of that id; success exactly in the remaining case, returning the stored post, owned by the caller |
| Blog.Store.ReadComments | app/routers/posts.py:62-83 | as written: 422 for a non-positive id, 401 without a caller, and success in every other case; at most one comment, the caller's comment whose own id is the path id, returned exactly when skip <= 0, limit != 0 and such a comment exists |
| Blog.Store.ReadPostComments | app/routers/posts.py:62-83 | as intended: success exactly for a positive id and a caller; the result is the requested page of the caller's comments on that post listed by ascending id (`Blog.Store.OwnCommentsOn`), so only such comments, in order, at most `limit` of them, and all of them without offset or limit |
| Blog.Store.ReadPostWithComments | app/routers/posts.py:86-108 | 401 exactly without a caller, 404 exactly when no post has the id, success otherwise: the stored post with exactly the comments on it, each with its author row |
| Blog.Store.CreatePost | app/routers/posts.py:131-147 | 422 / 401 exactly as validation and caller decide, success exactly otherwise: one new post with a fresh id, the caller as author and the given time, nothing else changes, and the single read then returns it; keeps Valid, and Linked when the caller is registered |
| Blog.Store.UpdatePost | app/routers/posts.py:150-174 | 422 / 401 / 404 conditions exactly, success exactly for a valid body on a post the caller owns: only that post's title and content change, and the single read returns the new row |
| Blog.Store.DeletePost | app/routers/posts.py:177-196 | 422 / 401 / 404 conditions exactly, success exactly for a post the caller owns: exactly that post is removed and reads as missing, its comments stay with their post reference cleared, and the foreign keys are kept |
| Blog.Store.CreateComment | app/routers/posts.py:33-59 | 422 / 401, then 404 exactly when no post (of any owner) has the id, success exactly otherwise: one new comment by the caller on that post, readable by the caller, nothing else changes |
| Blog.Store.ReadSingleComment | app/routers/comments.py:23-42 | 422 for a non-positive id, 401 without a caller, 404 exactly when the caller owns no comment of that id, success exactly otherwise, returning that stored comment |
| Blog.Store.UpdateComment | app/routers/comments.py:45-70 | 422 / 401 / 404 conditions exactly, success exactly for a comment the caller owns: only its content changes, to the body's content whatever its length; the body's other fields are ignored |
| Blog.Store.DeleteComment | app/routers/comments.py:73-94 | 422 / 401 / 404 conditions exactly, success exactly for a comment the caller owns: exactly that comment is removed, reads as missing, and the foreign keys are kept |
| Blog.Store.AuthenticateUser | app/routers/auth.py:32-39 | a user is returned exactly when a row has that username and the password verifies against its digest |
| Blog.Store.CreateUser | app/routers/auth.py:76-99 | 422 exactly when validation fails, 400 exactly when the username or the email is taken, success exactly otherwise: one new user storing the digest of the password, not the password, and no other table changes |
| Blog.Store.LoginForAccessToken | app/routers/auth.py:102-119 | 401 "Incorrect username or password" exactly when authentication fails; otherwise a bearer token expiring fifteen minutes after `now` whose claims check yields the user |
| Blog.Store.ReadCurrentUser | app/routers/user.py:23-31 | 401 exactly without a caller; otherwise the row of the caller's id, and none exactly when no row has it |
| Blog.Store.UpdatePassword | app/routers/user.py:34-52 | 422, then 401 "Authorization failed", then 500 for a caller without a row, then 401 "Invalid password" exactly when the old password does not verify; success exactly when it verifies, and then only the caller's digest changes, to the digest of the new password |
| Ownership.PostQueriesSeeOnlyOwnPosts | app/routers/posts.py:120-128 | two stores that agree on the caller's posts answer the single read, the listing and the owned-post lookup alike: another user's post is indistinguishable from a missing one |
| Ownership.CommentQueriesSeeOnlyOwnComments | app/routers/comments.py:32-42 | two stores that agree on the caller's comments answer the single read, the as-written listing and the owned-comment lookup alike |
| Ownership.WithCommentsIgnoresCaller | app/routers/posts.py:96-101 | the nested read of a post gives every caller the same answer |
| Ownership.RegisteredUserCanLogIn | app/routers/auth.py:107-119 | with a sound hasher, a user whose digest was made from a password logs in with it and the token's claims give back that user's name, id and role |
| Ownership.ReadCommentsMissesCommentOnPost | app/routers/posts.py:75-82 | with the default paging (skip 0, limit 10), the as-written listing omits the caller's comment on the post when its id differs from the post's id, and the corrected listing includes it when the caller has at most ten comments there |
| Ownership.UpdateStoresUnvalidatedContent | app/routers/comments.py:45-70 | from an empty store, a user posts, comments and updates the comment to the empty string: the update succeeds and stores content that comment creation refuses |
| Ownership.ReadCommentsReturnsCommentOfOtherPost | app/routers/posts.py:75-82 | the as-written listing returns the caller's comment whose id is the path id although it is on another post; the corrected listing does not |

## Left out

- Signing and decoding of tokens: a token is its payload. A failed signature or an expired or malformed token is the `None` given to `Auth.GetCurrentUser`. The secret key and algorithm, read from the environment, are not modelled.
- The bcrypt algorithm: `Auth.Hasher` is a pair of functions, and its soundness (`Auth.Sound`) is an assumption of the lemmas that need it. The random salt is a parameter.
- The clock: the current time is a parameter, in seconds. Time zones are not modelled.
- The HTTP layer: routing, response serialisation and status codes on success, and the 401 "Not authenticated" the bearer scheme returns when there is no header at all.
- The handlers are not composed with the claims check: each takes the caller identity the check produced. That the check's 401 comes before any 422 is stated in prose above, not as a contract.
- The body of a 422 response: it is a fixed `Unprocessable` value. The framework's type coercion of path, query and body values is not modelled.
- Claim types: the `id` claim is an integer and `sub` and `role` are strings. A token whose claims have other JSON types is not modelled.
- Session handling (`add`, `commit`, `refresh`) and the eager loading by `joinedload`: each write is one atomic step on the maps. Concurrent requests and the `async` scheduling are not modelled.
- Blog.Store.ReadAllPosts: returns a set, because the code asks for no ordering and the engine's row order is unspecified.
- Blog.Store.ReadPostWithComments: returns the post's comments as a map keyed by comment id, not as a list in load order, because that order is unspecified.
- Blog.Store.CreateUser: does not model that the password is hashed even when the request is then refused for a taken name, because hashing has no visible effect.
- Id generation: modelled as one counter per table that never reuses an id. That is an assumption of the model: it matches SQLite's `AUTOINCREMENT`, but a plain integer primary key may reuse the id of a deleted last row.
- The database engine: the engine is configured outside the modelled files. `Query.Page` follows SQLite's treatment of a negative `OFFSET` and `LIMIT`; other engines, PostgreSQL for one, refuse negative values.
- The foreign keys (`app/models.py` lines 34, 48 and 49) are assumed not to be enforced by the engine, as SQLite does by default. So a post or comment written by a caller with no user row succeeds, where an enforcing engine would fail the commit with 500. `Linked()` holds after each write under the conditions the write methods state.
- Integer width: ids, `skip` and `limit` are unbounded integers in the model. The key columns are `Integer`, which SQLite stores in 64 bits, and its driver refuses to bind a larger value. Such a request fails there with 500, or 422 if it is refused first, where the model answers as for any other value.
- Blog.Store.DeletePost: models the ORM setting the `post_id` of the post's comments to NULL, as one step; the separate `UPDATE` statements and their order are not modelled.
- The application entry point (`app/main.py`) wires the routers and creates the tables. It has no logic to model.
- The database session factory (`app/database.py`) is not part of this model.

## Findings

| source | as written | input that shows it | evidently intended | confidence | as-written member | corrected member |
|---|---|---|---|---|---|---|
| app/routers/posts.py:78 | the listing of a post's comments filters on `Comment.id == post_id` | the caller owns comment 7 on post 3: `GET /posts/3/comments` omits it, and returns the caller's comment 3 even though it is on post 5 | filter on `Comment.post_id == post_id`, listing the caller's comments on that post | high; not executed | Blog.Store.ReadComments (counterexamples: Ownership.ReadCommentsMissesCommentOnPost, Ownership.ReadCommentsReturnsCommentOfOtherPost) | Blog.Store.ReadPostComments |
