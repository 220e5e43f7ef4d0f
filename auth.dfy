/** The session of the client: who is logged in, the snapshot persisted in
    the browser's storage, and the role-based gate on the screens. */
module Auth {
  import opened Wrappers
  import Text
  import Seqs

  /** A row of `app_users`. `role`, `is_active` and `allowed_modules` may be
      missing from a row, so they are optional. */
  datatype User = User(id: string, name: string, role: Option<string>, pin: string,
                       isActive: Option<bool>, allowedModules: Option<seq<string>>)

  /** The role, cleaned the way the gate cleans it (trimmed, upper case),
      is ADMIN. A missing role is the empty text. */
  predicate IsAdminRole(role: Option<string>)
  {
    Text.Upper(Text.Trim(OrElse(role, ""))) == "ADMIN"
  }

  /** `canAccess`: nobody without a user; every module for an
      administrator; otherwise exactly the modules of `allowed_modules`,
      none when the list is missing. */
  predicate CanAccess(user: Option<User>, screen: string)
  {
    if user.None? then false
    else if IsAdminRole(user.value.role) then true
    else user.value.allowedModules.Some? && screen in user.value.allowedModules.value
  }

  /** Without a logged-in user no module is reachable. */
  lemma NoUserNoAccess(screen: string)
    ensures !CanAccess(None, screen)
  {
  }

  /** An administrator reaches every module, whatever the list says. */
  lemma AdminAccessesAll(u: User, screen: string)
    requires IsAdminRole(u.role)
    ensures CanAccess(Some(u), screen)
  {
  }

  /** For everybody else access is membership in the list, and a missing
      list grants nothing. */
  lemma NonAdminAccess(u: User, screen: string)
    requires !IsAdminRole(u.role)
    ensures CanAccess(Some(u), screen) <==> u.allowedModules.Some? && screen in u.allowedModules.value
    ensures u.allowedModules.None? ==> !CanAccess(Some(u), screen)
  {
  }

  /** Any spelling of "admin" in letters of either case, padded with white
      space on both sides, is the administrator role. */
  lemma PaddedAdminRole(a: string, w: string, b: string)
    requires Text.IsBlank(a) && Text.IsBlank(b)
    requires Text.Upper(w) == "ADMIN"
    ensures IsAdminRole(Some(a + w + b))
  {
    assert |w| == 5;
    assert Text.Upper(w)[0] == Text.UpperChar(w[0]) == 'A';
    assert Text.Upper(w)[4] == Text.UpperChar(w[4]) == 'N';
    Text.TrimPadded(a, w, b);
  }

  /** The role " admin " opens every module. */
  lemma SpacedLowerAdmin(u: User, screen: string)
    requires u.role == Some(" admin ")
    ensures CanAccess(Some(u), screen)
  {
    assert " admin " == " " + "admin" + " ";
    PaddedAdminRole(" ", "admin", " ");
  }

  /** The rows the login query selects: that pin, and `is_active` true. */
  function Matches(users: seq<User>, pin: string): (r: seq<User>)
    ensures |r| <= |users|
    ensures forall i :: 0 <= i < |r| ==> r[i].pin == pin && r[i].isActive == Some(true) && r[i] in users
    ensures forall i :: 0 <= i < |users| && users[i].pin == pin && users[i].isActive == Some(true)
              ==> users[i] in r
    ensures forall x :: multiset(r)[x] == (if x.pin == pin && x.isActive == Some(true) then multiset(users)[x] else 0)
  {
    var selected := (u: User) => u.pin == pin && u.isActive == Some(true);
    Seqs.FilterCounts(users, selected);
    Seqs.Filter(users, selected)
  }

  /** The lookup (`maybeSingle`): the single matching row; none when there
      is no match, when more than one row matches (an error), or when the
      store cannot be reached. */
  function Lookup(users: seq<User>, pin: string, reachable: bool): (r: Option<User>)
    ensures r.Some? <==> reachable && |Matches(users, pin)| == 1
    ensures r.Some? ==> r.value.pin == pin && r.value.isActive == Some(true) && r.value in users
    ensures r.Some? ==> multiset(users)[r.value] == 1
                        && forall i :: 0 <= i < |users| && users[i].pin == pin && users[i].isActive == Some(true)
                             ==> users[i] == r.value
  {
    var m := Matches(users, pin);
    if reachable && |m| == 1 then
      assert multiset(m) == multiset{m[0]} by { assert m == [m[0]]; }
      Some(m[0])
    else None
  }

  /** The user the session keeps: the row with `allowed_modules` made a
      list (an empty one when the row had none). */
  function Normalise(u: User): (r: User)
    ensures r.allowedModules.Some?
    ensures r.allowedModules.value == (if u.allowedModules.Some? then u.allowedModules.value else [])
    ensures r.id == u.id && r.name == u.name && r.role == u.role && r.pin == u.pin && r.isActive == u.isActive
  {
    u.(allowedModules := Some(u.allowedModules.GetOr([])))
  }

  /** Normalising never changes what the user may open. */
  lemma NormalisePreservesAccess(u: User, screen: string)
    ensures CanAccess(Some(Normalise(u)), screen) == CanAccess(Some(u), screen)
  {
  }

  /** The auth provider's state: the current user, and the persisted slot
      `pizza_user`. */
  class Session {
    var user: Option<User>
    var saved: Option<User>

    /** `isAuthenticated`. */
    predicate IsAuthenticated()
      reads this
    {
      user.Some?
    }

    /** Start-up: the user is the persisted snapshot when there is one,
        and nobody otherwise. */
    constructor (persisted: Option<User>)
      ensures user == persisted && saved == persisted
    {
      user, saved := persisted, persisted;
    }

    /** `login`: on a single active match, the normalised row becomes the
        user and the same snapshot is persisted; otherwise false, and the
        session is left as it was. */
    method Login(users: seq<User>, pin: string, reachable: bool) returns (ok: bool)
      modifies this
      ensures ok <==> Lookup(users, pin, reachable).Some?
      ensures ok ==> user == Some(Normalise(Lookup(users, pin, reachable).value)) && saved == user
      ensures !ok ==> user == old(user) && saved == old(saved)
      ensures ok ==> IsAuthenticated() && user.value.pin == pin
    {
      var data := Lookup(users, pin, reachable);
      if data.None? {
        return false;
      }
      var u := Normalise(data.value);
      user := Some(u);
      saved := Some(u);
      ok := true;
    }

    /** `logout`: nobody is logged in and the persisted slot is removed. */
    method Logout()
      modifies this
      ensures user == None && saved == None
      ensures !IsAuthenticated()
    {
      user := None;
      saved := None;
    }
  }

  /** After logout every module is closed. */
  lemma LoggedOutSeesNothing(s: Session, screen: string)
    requires s.user == None
    ensures !s.IsAuthenticated() && !CanAccess(s.user, screen)
  {
  }
}
