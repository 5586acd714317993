/**
 * The three tables of the database and the constraints of their schema:
 * primary keys, the unique username and email columns, the foreign keys, and
 * the relationships that navigate between rows.
 */
module Models {
  import opened Wrappers

  /** A row of `users`. The role is the string value of the role given at registration. */
  datatype User = User(
    id: int,
    username: string,
    email: string,
    firstName: string,
    lastName: string,
    hashedPassword: string,
    role: string)

  /** A row of `posts`; `createdAt` is a timestamp in seconds. */
  datatype Post = Post(id: int, title: string, content: string, authorId: int, createdAt: int)

  /**
   * A row of `comments`; `createdAt` is a timestamp in seconds. `postId` is
   * the nullable `post_id` column: it becomes None when the post is deleted.
   */
  datatype Comment = Comment(id: int, content: string, authorId: int, postId: Option<int>, createdAt: int)

  // Each table is a map from primary key to row; the key is the row's `id`.

  ghost predicate UserKeys(users: map<int, User>)
  {
    forall id :: id in users ==> users[id].id == id
  }

  ghost predicate PostKeys(posts: map<int, Post>)
  {
    forall id :: id in posts ==> posts[id].id == id
  }

  ghost predicate CommentKeys(comments: map<int, Comment>)
  {
    forall id :: id in comments ==> comments[id].id == id
  }

  ghost predicate UniqueUsernames(users: map<int, User>)
  {
    forall a, b :: a in users && b in users && users[a].username == users[b].username ==> a == b
  }

  ghost predicate UniqueEmails(users: map<int, User>)
  {
    forall a, b :: a in users && b in users && users[a].email == users[b].email ==> a == b
  }

  // Foreign keys.

  ghost predicate PostAuthorsExist(posts: map<int, Post>, users: map<int, User>)
  {
    forall id :: id in posts ==> posts[id].authorId in users
  }

  ghost predicate CommentAuthorsExist(comments: map<int, Comment>, users: map<int, User>)
  {
    forall id :: id in comments ==> comments[id].authorId in users
  }

  ghost predicate CommentPostsExist(comments: map<int, Comment>, posts: map<int, Post>)
  {
    forall id :: id in comments && comments[id].postId.Some? ==> comments[id].postId.value in posts
  }

  // Relationships.

  /** `User.posts`: the posts whose author is the user, keyed by post id. */
  function PostsOf(posts: map<int, Post>, userId: int): (r: map<int, Post>)
    ensures forall id :: id in r <==> id in posts && posts[id].authorId == userId
    ensures forall id :: id in r ==> r[id] == posts[id]
  {
    map id | id in posts && posts[id].authorId == userId :: posts[id]
  }

  /** `User.comments`: the comments whose author is the user, keyed by comment id. */
  function CommentsOf(comments: map<int, Comment>, userId: int): (r: map<int, Comment>)
    ensures forall id :: id in r <==> id in comments && comments[id].authorId == userId
    ensures forall id :: id in r ==> r[id] == comments[id]
  {
    map id | id in comments && comments[id].authorId == userId :: comments[id]
  }

  /** `Post.comments`: the comments on the post, keyed by comment id. */
  function CommentsOn(comments: map<int, Comment>, postId: int): (r: map<int, Comment>)
    ensures forall id :: id in r <==> id in comments && comments[id].postId == Some(postId)
    ensures forall id :: id in r ==> r[id] == comments[id]
  {
    map id | id in comments && comments[id].postId == Some(postId) :: comments[id]
  }

  /**
   * What deleting a post does to the comments table. `Post.comments` declares
   * no delete cascade, so the ORM loads the post's comments and sets their
   * `post_id` to NULL: no comment is removed, and no other comment changes.
   */
  function Detach(comments: map<int, Comment>, postId: int): (r: map<int, Comment>)
    ensures r.Keys == comments.Keys
    ensures forall id :: id in r ==> r[id].postId != Some(postId)
    ensures forall id :: id in r && comments[id].postId == Some(postId) ==> r[id] == comments[id].(postId := None)
    ensures forall id :: id in r && comments[id].postId != Some(postId) ==> r[id] == comments[id]
  {
    map id | id in comments :: if comments[id].postId == Some(postId) then comments[id].(postId := None) else comments[id]
  }

  /**
   * `Post.author` and `Comment.author`: the user row whose `id` column equals
   * `authorId`, if there is one.
   */
  function AuthorOf(users: map<int, User>, authorId: int): (r: Option<User>)
    requires UserKeys(users)
    ensures r.Some? <==> exists id :: id in users && users[id].id == authorId
    ensures r.Some? ==> authorId in users && r.value == users[authorId]
  {
    if authorId in users then Some(users[authorId]) else None
  }

  /**
   * The two sides of each `back_populates` pair agree: a post is among its
   * author's posts exactly when its author is that user, and likewise for comments.
   */
  lemma RelationshipsAgree(users: map<int, User>, posts: map<int, Post>, comments: map<int, Comment>)
    requires UserKeys(users)
    ensures forall u, p :: u in users && p in posts ==>
              (p in PostsOf(posts, u) <==> AuthorOf(users, posts[p].authorId) == Some(users[u]))
    ensures forall u, c :: u in users && c in comments ==>
              (c in CommentsOf(comments, u) <==> AuthorOf(users, comments[c].authorId) == Some(users[u]))
  {
  }
}
