/**
 * Properties that relate several handlers or several states of the store:
 * what a caller can learn about other users' rows, logging in after
 * registering, and the one read that bypasses ownership.
 */
module Ownership {
  import opened Wrappers
  import opened Http
  import opened Models
  import opened Auth
  import opened Query
  import opened Blog
  import Schemas

  /**
   * A caller's post queries depend on the posts table only through the
   * caller's own posts: two stores that agree on those answer every post read
   * alike, and the lookup that decides whether an update or a delete finds
   * its post is the same too. So another user's post cannot be told apart
   * from a missing one.
   */
  lemma PostQueriesSeeOnlyOwnPosts(s: Store, t: Store, caller: Identity, postId: int)
    requires s.Valid() && t.Valid()
    requires PostsOf(s.posts, caller.id) == PostsOf(t.posts, caller.id)
    ensures s.FindOwnedPost(caller.id, postId) == t.FindOwnedPost(caller.id, postId)
    ensures s.ReadSinglePost(Some(caller), postId) == t.ReadSinglePost(Some(caller), postId)
    ensures s.ReadAllPosts(Some(caller)) == t.ReadAllPosts(Some(caller))
  {
  }

  /**
   * The same for comments: single reads, the as-written comment listing and
   * the lookup behind update and delete depend only on the caller's own comments.
   */
  lemma CommentQueriesSeeOnlyOwnComments(
    s: Store, t: Store, caller: Identity, commentId: int, skip: int, limit: int)
    requires s.Valid() && t.Valid()
    requires CommentsOf(s.comments, caller.id) == CommentsOf(t.comments, caller.id)
    ensures s.FindOwnedComment(caller.id, commentId) == t.FindOwnedComment(caller.id, commentId)
    ensures s.ReadSingleComment(Some(caller), commentId) == t.ReadSingleComment(Some(caller), commentId)
    ensures s.ReadComments(Some(caller), commentId, skip, limit) == t.ReadComments(Some(caller), commentId, skip, limit)
  {
  }

  /** The nested read of a post does not depend on who asks. */
  lemma WithCommentsIgnoresCaller(s: Store, a: Identity, b: Identity, postId: int)
    requires s.Valid()
    ensures s.ReadPostWithComments(Some(a), postId) == s.ReadPostWithComments(Some(b), postId)
  {
  }

  /**
   * A user whose stored digest was made from `password` can log in with it,
   * and the token's claims check gives back that user's name, id and role.
   */
  lemma RegisteredUserCanLogIn(s: Store, hasher: Hasher, id: int, password: string, salt: nat, now: int)
    requires s.Valid() && Sound(hasher)
    requires id in s.users && s.users[id].hashedPassword == hasher.hash(password, salt)
    ensures var user := s.users[id];
            s.LoginForAccessToken(hasher, user.username, password, now)
              == Ok(TokenResponse(CreateAccessToken(user.username, id, user.role, AccessTokenLifetime, now), "bearer"))
    ensures var user := s.users[id];
            s.LoginForAccessToken(hasher, user.username, password, now).Ok? &&
            GetCurrentUser(Some(s.LoginForAccessToken(hasher, user.username, password, now).value.accessToken))
              == Ok(Identity(user.username, id, Some(user.role)))
  {
  }

  /**
   * The as-written comment listing misses the caller's own comment on the
   * post whenever that comment's id differs from the post's id. With the
   * default paging the corrected listing includes it, once the caller has at
   * most ten comments on the post.
   */
  lemma ReadCommentsMissesCommentOnPost(s: Store, caller: Identity, postId: int, commentId: int)
    requires s.Valid() && postId > 0
    requires commentId in s.comments && commentId != postId
    requires s.comments[commentId].postId == Some(postId) && s.comments[commentId].authorId == caller.id
    requires |s.OwnCommentsOn(caller.id, postId)| <= 10
    ensures s.comments[commentId] !in s.ReadComments(Some(caller), postId, 0, 10).value
    ensures s.comments[commentId] in s.ReadPostComments(Some(caller), postId, 0, 10).value
  {
  }

  /**
   * And it returns the caller's comment whose id equals the path's post id,
   * even when that comment is on a different post.
   */
  lemma ReadCommentsReturnsCommentOfOtherPost(s: Store, caller: Identity, postId: int)
    requires s.Valid() && postId > 0
    requires postId in s.comments && s.comments[postId].authorId == caller.id
    requires s.comments[postId].postId != Some(postId)
    ensures s.ReadComments(Some(caller), postId, 0, 10) == Ok([s.comments[postId]])
    ensures s.comments[postId] !in s.ReadPostComments(Some(caller), postId, 0, 10).value
  {
  }

  /**
   * A comment update stores content that comment creation refuses: starting
   * from an empty store, a user posts, comments, and then updates the comment
   * to the empty string, which is accepted and stored.
   */
  method UpdateStoresUnvalidatedContent() returns (s: Store, stored: Comment)
    ensures s.Valid() && stored.id in s.comments && s.comments[stored.id] == stored
    ensures stored.content == "" && !Schemas.ValidCommentCreate(Schemas.CommentCreate(stored.content))
  {
    s := new Store();
    var author := Identity("alice", 1, None);
    var post := s.CreatePost(Some(author), Schemas.PostCreate("Title", "Body"), 0);
    var created := s.CreateComment(Some(author), post.value.id, Schemas.CommentCreate("First"), 0);
    var body := Schemas.CommentBase(created.value.id, "", author.id, post.value.id, 0);
    var updated := s.UpdateComment(Some(author), created.value.id, body);
    stored := updated.value;
  }
}
