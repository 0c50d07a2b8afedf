// Who the caller is, and which lists the caller may see or change.
module Access {
  import opened Wrappers
  import opened Text
  import opened Models
  import opened Errors

  /** One claim of the authenticated principal. */
  datatype Claim = Claim(claimType: string, value: string)

  /** The caller's claims; a request without a user has none. */
  type Principal = seq<Claim>

  const SubClaim: string := "sub"
  const RoleClaim: string := "role"
  const EmailClaim: string := "email"
  const NameIdentifierClaim: string := "http://schemas.xmlsoap.org/ws/2005/05/identity/claims/nameidentifier"
  const EmailAddressClaim: string := "http://schemas.xmlsoap.org/ws/2005/05/identity/claims/emailaddress"
  const SuperUserRole: string := "superuser"

  /** `User.FindFirst(type)?.Value`: the value of the first claim whose type equals `t`
      ignoring case. */
  function FindFirst(user: Principal, t: string): (r: Option<string>)
    ensures r.None? <==> forall c :: c in user ==> !EqualsIgnoreCase(c.claimType, t)
    ensures r.Some? ==> exists i :: 0 <= i < |user| && EqualsIgnoreCase(user[i].claimType, t) && user[i].value == r.value
  {
    if user == [] then None
    else if EqualsIgnoreCase(user[0].claimType, t) then Some(user[0].value)
    else
      assert forall c :: c in user[1..] ==> c in user;
      assert forall c :: c in user ==> c == user[0] || c in user[1..];
      var r := FindFirst(user[1..], t);
      assert r.Some? ==> exists i :: 0 <= i < |user[1..]| && EqualsIgnoreCase(user[1..][i].claimType, t) && user[1..][i].value == r.value;
      r
  }

  /** Looking a claim type up starts with the first claim. */
  lemma FindFirstCons(c: Claim, rest: Principal, t: string)
    ensures FindFirst([c] + rest, t) == if EqualsIgnoreCase(c.claimType, t) then Some(c.value) else FindFirst(rest, t)
  {
    assert ([c] + rest)[1..] == rest;
  }

  /** Looking a claim type up in two claim lists laid end to end finds it in the first
      list when it is there, and only otherwise in the second. */
  lemma {:induction false} FindFirstAppend(a: Principal, b: Principal, t: string)
    ensures FindFirst(a + b, t) == if FindFirst(a, t).Some? then FindFirst(a, t) else FindFirst(b, t)
  {
    if a != [] {
      assert (a + b)[0] == a[0] && (a + b)[1..] == a[1..] + b;
      FindFirstAppend(a[1..], b, t);
    } else {
      assert a + b == b;
    }
  }

  /** `GetCurrentUserId`: the `sub` claim, else the name-identifier claim. */
  function CurrentUserId(user: Principal): Option<string> {
    match FindFirst(user, SubClaim)
    case Some(v) => Some(v)
    case None => FindFirst(user, NameIdentifierClaim)
  }

  /** `IsSuperUser`: the `role` claim equals "superuser" ignoring case. */
  predicate IsSuperUser(user: Principal) {
    EqualsIgnoreCaseOpt(FindFirst(user, RoleClaim), SuperUserRole)
  }

  /** `EnsureOwnership`: a superuser passes; anyone else needs a non-empty user id equal,
      ordinally, to the list's owner. */
  function EnsureOwnership(user: Principal, l: Liste): (r: Outcome<Exception>)
    ensures r.Fail? ==> r.error == ListForbidden
  {
    if IsSuperUser(user) then Pass
    else
      var uid := CurrentUserId(user);
      if IsNullOrEmpty(uid) || l.ownerId != uid then Fail(ListForbidden) else Pass
  }

  /** The `GetAllAsync` filter: every list for a superuser or a caller without a user id,
      otherwise the caller's own lists, in store order. */
  function VisibleLists(user: Principal, all: seq<Liste>): (r: seq<Liste>)
    ensures |r| <= |all|
    ensures IsSuperUser(user) || IsNullOrEmpty(CurrentUserId(user)) ==> r == all
    ensures !IsSuperUser(user) && !IsNullOrEmpty(CurrentUserId(user)) ==>
              forall l :: l in r <==> l in all && l.ownerId == CurrentUserId(user)
  {
    var uid := CurrentUserId(user);
    if IsSuperUser(user) || IsNullOrEmpty(uid) then all
    else RemoveAll(all, (l: Liste) => l.ownerId != uid)
  }

  /** The ownership check passes exactly for a superuser or for the owner, and the
      check's error is the 403 LIST_FORBIDDEN domain error. */
  lemma OwnershipRules(user: Principal, l: Liste)
    ensures EnsureOwnership(user, l).Pass? <==>
              IsSuperUser(user) || (CurrentUserId(user).Some? && CurrentUserId(user).value != "" && l.ownerId == CurrentUserId(user))
    ensures EnsureOwnership(user, l).Fail? ==>
              EnsureOwnership(user, l).error.DomainException? && EnsureOwnership(user, l).error.httpStatus == Some(StatusForbidden)
              && EnsureOwnership(user, l).error.code == Some("LIST_FORBIDDEN")
    ensures l.ownerId.None? ==> (EnsureOwnership(user, l).Pass? <==> IsSuperUser(user))
  {
  }

  /** What a caller with a user id sees through `GetAllAsync` is exactly the lists the
      ownership check lets through, in store order. */
  lemma VisibleListsAreOwned(user: Principal, all: seq<Liste>)
    requires !IsNullOrEmpty(CurrentUserId(user))
    ensures forall l :: l in VisibleLists(user, all) <==> l in all && EnsureOwnership(user, l).Pass?
  {
  }

  /** A superuser sees everything and passes every ownership check. */
  lemma SuperUserSeesAll(user: Principal, all: seq<Liste>, l: Liste)
    requires IsSuperUser(user)
    ensures VisibleLists(user, all) == all && EnsureOwnership(user, l).Pass?
  {
  }

  /** A caller without a user id sees every list through `GetAllAsync`, yet the ownership
      check refuses that caller every list unless the caller is a superuser. */
  lemma AnonymousCallerSeesAllButOwnsNone(user: Principal, all: seq<Liste>, l: Liste)
    requires CurrentUserId(user).None?
    ensures VisibleLists(user, all) == all
    ensures !IsSuperUser(user) ==> EnsureOwnership(user, l) == Fail(ListForbidden)
  {
  }

  /** The role claim is matched ignoring case, and a missing role claim is no superuser. */
  lemma SuperUserRoleCases(other: Claim)
    requires !EqualsIgnoreCase(other.claimType, RoleClaim)
    ensures IsSuperUser([Claim(RoleClaim, "SuperUser")])
    ensures !IsSuperUser([other])
    ensures !IsSuperUser([])
  {
    assert Upper("SuperUser") == Upper(SuperUserRole);
  }
}
