/** The API's permission classes: `IsAdmin` and
    `IsAdminOrIsAuthorOrReadOnly`, which also inherits the view-level check
    of the framework's `IsAuthenticatedOrReadOnly`. */
module Permissions {
  import opened Users

  /** `request.user`: Django's AnonymousUser, or a signed-in user. */
  datatype RequestUser = Anonymous | Authenticated(id: UserId, isStaff: bool)

  /** SAFE_METHODS */
  const SafeMethods: set<string> := {"GET", "HEAD", "OPTIONS"}

  /** `IsAdmin.has_permission`: not anonymous, and staff. */
  function IsAdmin(user: RequestUser): (b: bool)
    ensures b <==> user.Authenticated? && user.isStaff
    ensures user.Anonymous? ==> !b
  {
    match user
    case Anonymous => false
    case Authenticated(_, staff) => staff
  }

  /** `obj.author == request.user`; an AnonymousUser equals no author. */
  predicate IsAuthor(user: RequestUser, author: UserId) {
    user.Authenticated? && user.id == author
  }

  /** `has_permission`, inherited from IsAuthenticatedOrReadOnly: safe
      methods for everyone, the rest only when signed in. */
  function HasPermission(requestMethod: string, user: RequestUser): (b: bool)
    ensures requestMethod in SafeMethods ==> b
    ensures requestMethod !in SafeMethods ==> (b <==> user.Authenticated?)
  {
    requestMethod in SafeMethods || !user.Anonymous?
  }

  /** `IsAdminOrIsAuthorOrReadOnly.has_object_permission` for an object
      whose author is `author`. */
  function HasObjectPermission(requestMethod: string, user: RequestUser, author: UserId): (b: bool)
    // Any safe method is granted.
    ensures requestMethod in SafeMethods ==> b
    // The author may do anything with the object, and so may staff.
    ensures IsAuthor(user, author) || IsAdmin(user) ==> b
    // An unsafe method is refused exactly to those who are neither.
    ensures requestMethod !in SafeMethods ==>
      (!b <==> (user.Anonymous? || (user.id != author && !user.isStaff)))
  {
    requestMethod in SafeMethods || IsAuthor(user, author) || IsAdmin(user)
  }

  /** An anonymous request may only read: both checks refuse it any other method. */
  lemma AnonymousOnlyReads(requestMethod: string, author: UserId)
    ensures !HasPermission(requestMethod, Anonymous) <==> requestMethod !in SafeMethods
    ensures !HasObjectPermission(requestMethod, Anonymous, author) <==> requestMethod !in SafeMethods
  {
  }
}
