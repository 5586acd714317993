/**
 * The request bodies of the API and the constraints their fields declare.
 * A body that breaks a constraint never reaches its handler: the framework
 * answers 422 instead.
 */
module Schemas {
  import opened Wrappers

  /** The roles a user may register with, stored and carried as their string value. */
  datatype EnumRole = Admin | User

  function RoleValue(role: EnumRole): string
  {
    match role
    case Admin => "admin"
    case User => "user"
  }

  /** Parsing a role: only the exact values of the enum are accepted. */
  function ParseRole(s: string): (r: Option<EnumRole>)
    ensures r.Some? <==> s == "admin" || s == "user"
    ensures r.Some? ==> RoleValue(r.value) == s
  {
    if s == "admin" then Some(Admin)
    else if s == "user" then Some(User)
    else None
  }

  lemma RoleValueParses(role: EnumRole)
    ensures ParseRole(RoleValue(role)) == Some(role)
  {
  }

  /** A `Field(min_length=lo, max_length=hi)` string constraint. */
  predicate LengthBetween(s: string, lo: nat, hi: nat)
  {
    lo <= |s| <= hi
  }

  datatype CreatUserRequest = CreatUserRequest(
    username: string,
    email: string,
    firstName: string,
    lastName: string,
    password: string,
    role: string)

  predicate ValidCreatUserRequest(request: CreatUserRequest)
  {
    && LengthBetween(request.username, 3, 100)
    && LengthBetween(request.email, 3, 100)
    && LengthBetween(request.firstName, 2, 100)
    && LengthBetween(request.lastName, 2, 100)
    && LengthBetween(request.password, 8, 100)
    && ParseRole(request.role).Some?
  }

  datatype PostCreate = PostCreate(title: string, content: string)

  predicate ValidPostCreate(post: PostCreate)
  {
    LengthBetween(post.title, 3, 100) && LengthBetween(post.content, 3, 1000)
  }

  datatype CommentCreate = CommentCreate(content: string)

  predicate ValidCommentCreate(comment: CommentCreate)
  {
    LengthBetween(comment.content, 3, 1000)
  }

  /**
   * The body of a comment update. Every field is required, but none carries a
   * length constraint, so any such body is accepted.
   */
  datatype CommentBase = CommentBase(
    id: int,
    content: string,
    authorId: int,
    postId: int,
    createdAt: int)

  /** The old password is unconstrained; the new one needs at least six characters and has no maximum. */
  datatype UserVerification = UserVerification(password: string, newPassword: string)

  predicate ValidUserVerification(verification: UserVerification)
  {
    |verification.newPassword| >= 6
  }

  /**
   * Every password accepted at registration is accepted as a new password, but
   * not conversely: a password change may install a six- or seven-character
   * password, which registration refuses.
   */
  lemma {:induction false} NewPasswordRuleIsWeaker()
    ensures forall request :: ValidCreatUserRequest(request) ==>
              ValidUserVerification(UserVerification("", request.password))
    ensures exists verification ::
              ValidUserVerification(verification) && !LengthBetween(verification.newPassword, 8, 100)
  {
    var shortPassword := UserVerification("", "secret");
    assert |shortPassword.newPassword| == 6;
    assert ValidUserVerification(shortPassword) && !LengthBetween(shortPassword.newPassword, 8, 100);
  }
}
