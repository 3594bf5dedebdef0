/**
 * The access gates of core/decorators.py as decisions: run the view, or send the user to
 * the login page or to the dashboard.
 */
module Decorators {
  import opened Wrappers
  import opened Models

  datatype Access = RunView | RedirectLogin | RedirectDashboard

  /**
   * `requiere_perfil_usuario`: an anonymous user, or one without a profile, goes to the
   * login page; everyone else reaches the view.
   */
  function RequireProfile(user: User): (a: Access)
    ensures a == RunView <==> user.authenticated && user.profile.Some?
    ensures a != RunView ==> a == RedirectLogin
  {
    if !user.authenticated then RedirectLogin
    else if user.profile.None? then RedirectLogin
    else RunView
  }

  /**
   * `requiere_rol(*roles)`: the login page for an anonymous user or a missing profile, the
   * dashboard for a profile whose role is not allowed, the view otherwise.
   */
  function RequireRole(user: User, allowed: set<Role>): (a: Access)
    ensures a == RunView <==> user.authenticated && user.profile.Some? && user.profile.value.role in allowed
    ensures a == RedirectDashboard <==> user.authenticated && user.profile.Some? && user.profile.value.role !in allowed
    ensures a == RedirectLogin <==> !user.authenticated || user.profile.None?
  {
    if !user.authenticated then RedirectLogin
    else match user.profile
      case None => RedirectLogin
      case Some(perfil) => if perfil.role !in allowed then RedirectDashboard else RunView
  }

  /**
   * The role gate is the profile gate narrowed by the role: whatever it lets through the
   * profile gate lets through, both send the same users to login, and allowing every
   * role makes them the same gate.
   */
  lemma RoleGateRefinesProfileGate(user: User, allowed: set<Role>)
    ensures RequireRole(user, allowed) == RunView ==> RequireProfile(user) == RunView
    ensures RequireRole(user, allowed) == RedirectLogin <==> RequireProfile(user) == RedirectLogin
    ensures allowed == {Recepcionista, EncargadoTaller, Mecanico, EncargadoBodega} ==>
              RequireRole(user, allowed) == RequireProfile(user)
  {
    if user.authenticated && user.profile.Some? {
      var r := user.profile.value.role;
      assert r == Recepcionista || r == EncargadoTaller || r == Mecanico || r == EncargadoBodega;
    }
  }
}
