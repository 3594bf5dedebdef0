/**
 * `obtener_mecanico_desde_usuario` (core/helpers.py): the mechanic record behind a
 * logged-in user, found by full name first and by username as a fallback.
 */
module Helpers {
  import opened Wrappers
  import opened Text
  import opened Models

  /** The first mechanic, in table order, whose name is exactly `name`. */
  function FirstNamed(mechanics: seq<Mechanic>, name: string): (r: Option<Mechanic>)
    ensures r.Some? ==> r.value in mechanics && r.value.name == name
    ensures r.None? <==> forall i :: 0 <= i < |mechanics| ==> mechanics[i].name != name
    ensures r.Some? ==> exists i :: 0 <= i < |mechanics| && mechanics[i] == r.value &&
                          forall j :: 0 <= j < i ==> mechanics[j].name != name
    decreases |mechanics|
  {
    if mechanics == [] then None
    else if mechanics[0].name == name then Some(mechanics[0])
    else
      var r := FirstNamed(mechanics[1..], name);
      assert r.Some? ==> exists i :: 0 <= i < |mechanics| && mechanics[i] == r.value &&
                          forall j :: 0 <= j < i ==> mechanics[j].name != name by {
        if r.Some? {
          var i :| 0 <= i < |mechanics[1..]| && mechanics[1..][i] == r.value &&
                   forall j :: 0 <= j < i ==> mechanics[1..][j].name != name;
          assert mechanics[i + 1] == r.value;
          forall j | 0 <= j < i + 1 ensures mechanics[j].name != name {
            if j > 0 { assert mechanics[j] == mechanics[1..][j - 1]; }
          }
        }
      }
      r
  }

  /** `f"{first_name} {last_name}".strip()`. */
  function FullName(a: Account): string {
    Strip(a.firstName + " " + a.lastName)
  }

  /** The user is logged in with a MECANICO profile. */
  predicate IsMechanicUser(user: Option<User>) {
    user.Some? && user.value.authenticated && user.value.profile.Some? && user.value.profile.value.role == Mecanico
  }

  /**
   * `obtener_mecanico_desde_usuario`: nothing for an absent or anonymous user or one who
   * is not a mechanic; otherwise the first mechanic named after the user's full name,
   * when that name is not blank and matches, else the first named after the username.
   */
  function FindMechanic(user: Option<User>, mechanics: seq<Mechanic>): (r: Option<Mechanic>)
    ensures !IsMechanicUser(user) ==> r.None?
    ensures r.Some? ==> r.value in mechanics &&
                        (r.value.name == FullName(user.value.account) || r.value.name == user.value.account.username)
    ensures IsMechanicUser(user) && FullName(user.value.account) != [] &&
            FirstNamed(mechanics, FullName(user.value.account)).Some? ==>
              r == FirstNamed(mechanics, FullName(user.value.account))
    ensures IsMechanicUser(user) && (FullName(user.value.account) == [] ||
                                     FirstNamed(mechanics, FullName(user.value.account)).None?) ==>
              r == FirstNamed(mechanics, user.value.account.username)
  {
    if user.None? || !user.value.authenticated then None
    else
      match user.value.profile
      case None => None
      case Some(perfil) =>
        if perfil.role != Mecanico then None
        else
          var full := FullName(user.value.account);
          var byName := if full != [] then FirstNamed(mechanics, full) else None;
          if byName.Some? then byName
          else FirstNamed(mechanics, user.value.account.username)
  }

  /**
   * The full name wins: when some mechanic carries the user's non-blank full name, the
   * result is named so even if another mechanic carries the username.
   */
  lemma FullNamePriority(user: User, mechanics: seq<Mechanic>, m: Mechanic)
    requires IsMechanicUser(Some(user))
    requires FullName(user.account) != [] && m in mechanics && m.name == FullName(user.account)
    ensures FindMechanic(Some(user), mechanics).Some?
    ensures FindMechanic(Some(user), mechanics).value.name == FullName(user.account)
  {
  }

  /** A mechanic user is found exactly when some mechanic carries the full name or the username. */
  lemma FoundIffNamed(user: User, mechanics: seq<Mechanic>)
    requires IsMechanicUser(Some(user))
    ensures FindMechanic(Some(user), mechanics).Some? <==>
            exists m :: m in mechanics && ((FullName(user.account) != [] && m.name == FullName(user.account)) ||
                                           m.name == user.account.username)
  {
    var full := FullName(user.account);
    var r := FindMechanic(Some(user), mechanics);
    if r.None? {
      forall m | m in mechanics
        ensures !((full != [] && m.name == full) || m.name == user.account.username)
      {
        var i :| 0 <= i < |mechanics| && mechanics[i] == m;
      }
    }
  }
}
