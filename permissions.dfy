/** The author-or-read-only permission rule applied to recipe endpoints. */
module Permissions {

  datatype HttpMethod = Get | Head | Options | Post | Put | Patch | Delete

  /** Who sent the request: nobody logged in, or the user with this id. */
  datatype Requester = Anonymous | Member(id: nat)

  /** GET, HEAD and OPTIONS only read. */
  predicate IsSafe(m: HttpMethod) {
    m == Get || m == Head || m == Options
  }

  /** View-level check: reads are open to everyone, writes need a logged-in user. */
  predicate HasPermission(m: HttpMethod, who: Requester) {
    IsSafe(m) || who.Member?
  }

  /** Object-level check: reads are open to everyone, writes only to the object's author. */
  predicate HasObjectPermission(m: HttpMethod, who: Requester, author: nat) {
    IsSafe(m) || (who.Member? && who.id == author)
  }

  /** A read always passes both checks. */
  lemma SafeAlwaysPermitted(m: HttpMethod, who: Requester, author: nat)
    requires IsSafe(m)
    ensures HasPermission(m, who) && HasObjectPermission(m, who, author)
  {
  }

  /** A write passes the view-level check exactly when someone is logged in. */
  lemma UnsafeNeedsLogin(m: HttpMethod, who: Requester)
    requires !IsSafe(m)
    ensures HasPermission(m, who) <==> who.Member?
  {
  }

  /** A write passes the object-level check exactly when the object's author sent it. */
  lemma UnsafeNeedsAuthor(m: HttpMethod, who: Requester, author: nat)
    requires !IsSafe(m)
    ensures HasObjectPermission(m, who, author) <==> who == Member(author)
  {
  }

  /** Passing the object-level check implies passing the view-level one. */
  lemma ObjectImpliesView(m: HttpMethod, who: Requester, author: nat)
    ensures HasObjectPermission(m, who, author) ==> HasPermission(m, who)
  {
  }
}
