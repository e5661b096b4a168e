/** The allow/deny decisions of app/Policies/PropertyPolicy.php. */
module PropertyPolicy {
  import opened Roles
  import opened Entities
  import opened Users
  import Properties

  predicate ViewAny(u: User) {
    true
  }

  predicate View(u: User, p: Property) {
    if IsAdmin(u) then true else u.id == p.userId
  }

  predicate Create(u: User) {
    IsHomeowner(u)
  }

  predicate Update(u: User, p: Property) {
    u.id == p.userId || IsAdmin(u)
  }

  predicate Delete(u: User, p: Property) {
    u.id == p.userId || IsAdmin(u)
  }

  predicate Restore(u: User, p: Property) {
    IsAdmin(u)
  }

  predicate ForceDelete(u: User, p: Property) {
    IsAdmin(u)
  }

  /** Listing is open to every user. */
  lemma ViewAnyAlways(u: User)
    ensures ViewAny(u)
  {
  }

  /** Viewing, updating and deleting all follow the aggregate's own modification rule
      (owner or admin), and so agree with `ensureOwnedBy`. */
  lemma OwnerOrAdminDecisionsAgree(u: User, p: Property)
    ensures View(u, p) <==> Properties.CanBeModifiedBy(p, u)
    ensures Update(u, p) <==> Properties.CanBeModifiedBy(p, u)
    ensures Delete(u, p) <==> Update(u, p)
    ensures Update(u, p) <==> Properties.EnsureOwnedBy(p, u).Pass?
  {
  }

  /** Only homeowners pass `create`; the admin is refused here although the role table says
      admins can create properties. */
  lemma CreateNarrowerThanCapability(u: User)
    ensures Create(u) <==> u.role == Homeowner
    ensures Create(u) ==> CanCreateProperties(u.role)
    ensures IsAdmin(u) ==> CanCreateProperties(u.role) && !Create(u)
  {
  }

  /** Restoring and force-deleting are admin-only, and an admin passes every decision
      except `create`. */
  lemma AdminOnlyDecisions(u: User, p: Property)
    ensures Restore(u, p) <==> IsAdmin(u)
    ensures ForceDelete(u, p) <==> IsAdmin(u)
    ensures IsAdmin(u) ==> View(u, p) && Update(u, p) && Delete(u, p) && !Create(u)
  {
  }
}
