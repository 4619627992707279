/**
 * Accounts as the controllers see them: the caller of a request is an
 * actor with an identity and a role, and the one ownership rule every
 * mutating handler applies is "the caller owns the resource or is an admin".
 */
module Accounts {

  /** Identity of an account (a MongoDB ObjectId in the system). */
  type UserId = nat

  /** The three account roles: job seeker ('user'), 'employer' and 'admin'. */
  datatype Role = Seeker | Employer | Admin

  /** The authenticated caller of a request. */
  datatype Actor = Actor(id: UserId, role: Role)

  /**
   * The check the controllers write as
   * `owner.toString() !== req.user._id.toString() && req.user.role !== 'admin'`
   * (rejecting when it holds): the caller may act on a resource whose owner
   * field is `owner` when they are that owner or an administrator.
   */
  predicate OwnerOrAdmin(actor: Actor, owner: UserId) {
    !(owner != actor.id && actor.role != Admin)
  }

  /** The rule admits exactly the owner and the administrators. */
  lemma OwnerOrAdminMeaning(actor: Actor, owner: UserId)
    ensures OwnerOrAdmin(actor, owner) <==> actor.id == owner || actor.role == Admin
  {
  }
}
