/**
 * The account settings page (app/settings/account/page.tsx): a display-name
 * edit written through the session store, a confirmed logout, and the
 * fallbacks shown for a missing name or email.
 */
module Account {
  import opened Wrappers
  import opened Storage
  import Auth

  const LoginPath := "/login"
  const NoName := "이름 없음"
  const NoEmail := "이메일 정보 없음"

  /** The name field's initial value: `auth.profile?.name ?? ''`. */
  function InitialName(auth: Auth.AuthState): (name: string)
    ensures auth.profile.Some? && auth.profile.value.name.Some? ==> name == auth.profile.value.name.value
    ensures auth.profile.None? || auth.profile.value.name.None? ==> name == ""
  {
    if auth.profile.Some? then auth.profile.value.name.GetOr("") else ""
  }

  /** The session after `handleSave`: `{ ...prev, profile: { ...prev.profile, name } }`. */
  function SaveName(prev: Auth.AuthState, name: string): (next: Auth.AuthState)
    ensures next.idToken == prev.idToken
    ensures next.profile.Some? && next.profile.value.name == Some(name)
    ensures prev.profile.Some? ==>
              next.profile.value.email == prev.profile.value.email &&
              next.profile.value.picture == prev.profile.value.picture
    ensures prev.profile.None? ==> next.profile == Some(Auth.Profile(Some(name), None, None))
  {
    var base := prev.profile.GetOr(Auth.Profile(None, None, None));
    prev.(profile := Some(base.(name := Some(name))))
  }

  /** `handleSave` on a mounted provider: the edited session is set and persisted. */
  function HandleSave(p: Auth.Provider, name: string, c: Codec<Auth.AuthState>): (p': Auth.Provider)
    ensures p'.auth == SaveName(p.auth, name) && Auth.Synced(p', c)
    ensures p'.store - {Auth.StorageKey} == p.store - {Auth.StorageKey}
  {
    Auth.SetAuth(p, SaveName(p.auth, name), c)
  }

  /** Saving a name and reopening the page shows that name; saving twice keeps only the last. */
  lemma SaveThenReopen(prev: Auth.AuthState, a: string, b: string)
    ensures InitialName(SaveName(prev, a)) == a
    ensures SaveName(SaveName(prev, a), b) == SaveName(prev, b)
  {
  }

  /** Saving the name the profile already has changes nothing once a profile exists. */
  lemma SaveSameNameIsIdentity(prev: Auth.AuthState)
    requires prev.profile.Some? && prev.profile.value.name.Some?
    ensures SaveName(prev, InitialName(prev)) == prev
  {
  }

  /** `handleLogout`: nothing without confirmation; otherwise sign out and navigate to the login page. */
  function HandleLogout(p: Auth.Provider, confirmed: bool, c: Codec<Auth.AuthState>): (r: (Auth.Provider, Option<string>))
    ensures !confirmed ==> r == (p, None)
    ensures confirmed ==> r.0.auth == Auth.EmptySession && Auth.Synced(r.0, c) && r.1 == Some(LoginPath)
    ensures r.0.store - {Auth.StorageKey} == p.store - {Auth.StorageKey}
  {
    if !confirmed then (p, None) else (Auth.SignOutSettled(p, c), Some(LoginPath))
  }

  /** The shown name: `auth.profile?.name ?? '이름 없음'`; only a missing name falls back. */
  function DisplayName(auth: Auth.AuthState): (shown: string)
    ensures auth.profile.Some? && auth.profile.value.name.Some? ==> shown == auth.profile.value.name.value
    ensures auth.profile.None? || auth.profile.value.name.None? ==> shown == NoName
  {
    if auth.profile.Some? then auth.profile.value.name.GetOr(NoName) else NoName
  }

  /** The shown email: `auth.profile?.email ?? '이메일 정보 없음'`. */
  function DisplayEmail(auth: Auth.AuthState): (shown: string)
    ensures auth.profile.Some? && auth.profile.value.email.Some? ==> shown == auth.profile.value.email.value
    ensures auth.profile.None? || auth.profile.value.email.None? ==> shown == NoEmail
  {
    if auth.profile.Some? then auth.profile.value.email.GetOr(NoEmail) else NoEmail
  }

  /** An empty stored name is shown as empty, not replaced by the fallback (`??`, not `||`). */
  lemma EmptyNameShownAsIs(auth: Auth.AuthState)
    requires auth.profile.Some? && auth.profile.value.name == Some("")
    ensures DisplayName(auth) == "" && DisplayName(auth) != NoName
  {
  }
}
