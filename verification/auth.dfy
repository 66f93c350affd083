/**
 * The session store of `AuthProvider` (lib/auth.tsx): an in-memory session
 * restored once from `localStorage`, written back whole after every change,
 * kept in step with other tabs through `storage` events, and cleared by
 * `signOut`.
 *
 * React runs the provider's effects in a fixed order, which the model makes
 * explicit: on mount the restore effect reads the store and schedules the
 * restored session; the persist effect of that same commit still sees the
 * first render's empty session and writes it; the next commit writes the
 * restored session. Afterwards every change of `auth` is followed by the
 * persist effect.
 */
module Auth {
  import opened Wrappers
  import opened Storage

  const StorageKey := "purecare_auth"

  datatype Profile = Profile(name: Option<string>, email: Option<string>, picture: Option<string>)

  datatype AuthState = AuthState(idToken: Option<string>, profile: Option<Profile>)

  const EmptySession := AuthState(None, None)

  /** One tab's provider: its session, whether restore has finished, and the origin's store as this tab sees it. */
  datatype Provider = Provider(auth: AuthState, ready: bool, store: Store)

  /** A `storage` event: `key` is `None` when another tab called `localStorage.clear()`. */
  datatype StorageEvent = StorageEvent(key: Option<string>, newValue: Option<string>)

  /** The stored value under the session key is the serialisation of the in-memory session. */
  ghost predicate Synced(p: Provider, c: Codec<AuthState>) {
    StorageKey in p.store && p.store[StorageKey] == c.serialise(p.auth)
  }

  /** First render, before any effect has run. */
  function Init(st: Store): (p: Provider)
    ensures p.auth == EmptySession && !p.ready && p.store == st
  {
    Provider(EmptySession, false, st)
  }

  /** The restore effect: a stored, non-empty, parseable session replaces the current one; `ready` is set either way. */
  function Restore(p: Provider, c: Codec<AuthState>): (p': Provider)
    ensures p'.ready && p'.store == p.store
    ensures StorageKey !in p.store || p.store[StorageKey] == "" ==> p'.auth == p.auth
    ensures StorageKey in p.store && p.store[StorageKey] != "" ==>
              p'.auth == c.parse(p.store[StorageKey]).GetOr(p.auth)
  {
    match ReadParsed(p.store, StorageKey, c)
    case Some(v) => Provider(v, true, p.store)
    case None => p.(ready := true)
  }

  /** The persist effect: the whole session is written under the session key; nothing else changes. */
  function Persist(p: Provider, c: Codec<AuthState>): (p': Provider)
    ensures Synced(p', c)
    ensures p'.auth == p.auth && p'.ready == p.ready
    ensures p'.store - {StorageKey} == p.store - {StorageKey}
  {
    p.(store := Storage.Persist(p.store, StorageKey, c, p.auth))
  }

  /** The store after the mount commit: the first render's empty session has been written. */
  function MountFirstCommitStore(st: Store, c: Codec<AuthState>): (st': Store)
    ensures StorageKey in st' && st'[StorageKey] == c.serialise(EmptySession)
    ensures st' - {StorageKey} == st - {StorageKey}
  {
    Storage.Persist(st, StorageKey, c, EmptySession)
  }

  /** Mounting the provider: restore, then both persist effects. */
  function Mount(st: Store, c: Codec<AuthState>): (p: Provider)
    ensures p.ready && Synced(p, c)
    ensures p.store - {StorageKey} == st - {StorageKey}
    ensures p.auth == ReadParsed(st, StorageKey, c).GetOr(EmptySession)
  {
    var restored := Restore(Init(st), c);
    Persist(restored.(store := MountFirstCommitStore(st, c)), c)
  }

  /** `setAuth(next)` followed by the persist effect. */
  function SetAuth(p: Provider, next: AuthState, c: Codec<AuthState>): (p': Provider)
    ensures p'.auth == next && p'.ready == p.ready && Synced(p', c)
    ensures p'.store - {StorageKey} == p.store - {StorageKey}
  {
    Persist(p.(auth := next), c)
  }

  /** The session the `storage` listener passes to `setAuth`, or `None` when it does not call it. */
  function ListenerUpdate(e: StorageEvent, c: Codec<AuthState>): (u: Option<AuthState>)
    ensures e.key != Some(StorageKey) ==> u == None
    ensures e.key == Some(StorageKey) && !Truthy(e.newValue) ==> u == Some(EmptySession)
    ensures e.key == Some(StorageKey) && Truthy(e.newValue) ==> u == c.parse(e.newValue.value)
  {
    if e.key != Some(StorageKey) then None
    else if !Truthy(e.newValue) then Some(EmptySession)
    else c.parse(e.newValue.value)
  }

  /** The `storage` listener's effect on the session (before the persist effect it may trigger). */
  function OnStorage(p: Provider, e: StorageEvent, c: Codec<AuthState>): (p': Provider)
    ensures p'.ready == p.ready && p'.store == p.store
    ensures e.key != Some(StorageKey) ==> p' == p
    ensures e.key == Some(StorageKey) && !Truthy(e.newValue) ==> p'.auth == EmptySession
    ensures e.key == Some(StorageKey) && Truthy(e.newValue) ==>
              p'.auth == c.parse(e.newValue.value).GetOr(p.auth)
  {
    p.(auth := ListenerUpdate(e, c).GetOr(p.auth))
  }

  /** What another tab's write does to the shared store: set, remove, or `clear()` when no key is given. */
  function ExternalWrite(st: Store, e: StorageEvent): (st': Store)
    ensures e.key.Some? ==> st' - {e.key.value} == st - {e.key.value}
    ensures e.key.Some? ==> GetItem(st', e.key.value) == e.newValue
    ensures e.key.None? ==> st' == map[]
  {
    match e.key
    case None => map[]
    case Some(k) =>
      match e.newValue
      case None => RemoveItem(st, k)
      case Some(v) => SetItem(st, k, v)
  }

  /** Another tab changes the store, this tab's listener runs, and the persist effect follows a change of session. */
  function OnExternalChange(p: Provider, e: StorageEvent, c: Codec<AuthState>): (p': Provider)
    ensures p'.ready == p.ready
    ensures p'.auth == ListenerUpdate(e, c).GetOr(p.auth)
    ensures ListenerUpdate(e, c).None? ==> p'.store == ExternalWrite(p.store, e)
    ensures ListenerUpdate(e, c).Some? ==>
              Synced(p', c) && p'.store - {StorageKey} == ExternalWrite(p.store, e) - {StorageKey}
  {
    var seen := p.(store := ExternalWrite(p.store, e));
    match ListenerUpdate(e, c)
    case None => seen
    case Some(next) => SetAuth(seen, next, c)
  }

  /** `signOut`: the key is removed and the session emptied (before the persist effect). */
  function SignOut(p: Provider): (p': Provider)
    ensures p'.auth == EmptySession && p'.ready == p.ready
    ensures StorageKey !in p'.store
    ensures p'.store - {StorageKey} == p.store - {StorageKey}
  {
    Provider(EmptySession, p.ready, RemoveItem(p.store, StorageKey))
  }

  /** `signOut` followed by the persist effect, which writes the empty session back. */
  function SignOutSettled(p: Provider, c: Codec<AuthState>): (p': Provider)
    ensures p'.auth == EmptySession && Synced(p', c)
    ensures p'.store - {StorageKey} == p.store - {StorageKey}
  {
    Persist(SignOut(p), c)
  }

  // -----------------------------------------------------------------------
  // Properties relating several steps
  // -----------------------------------------------------------------------

  /** Persistence round trip: a tab mounted on the store another tab just wrote restores that session. */
  lemma RestoreAfterWrite(p: Provider, s: AuthState, c: Codec<AuthState>)
    requires Lawful(c)
    ensures Mount(SetAuth(p, s, c).store, c).auth == s
  {
    ReadAfterPersist(p.store, StorageKey, c, s);
  }

  /** A corrupt stored blob is overwritten with the serialised empty session at mount. */
  lemma CorruptBlobOverwritten(st: Store, c: Codec<AuthState>)
    requires StorageKey in st && st[StorageKey] != "" && c.parse(st[StorageKey]).None?
    ensures Mount(st, c).auth == EmptySession
    ensures Mount(st, c).store[StorageKey] == c.serialise(EmptySession)
  {
  }

  /** A `storage` event for any other key, or for `clear()`, leaves the session alone. */
  lemma OtherKeyIgnored(p: Provider, e: StorageEvent, c: Codec<AuthState>)
    requires e.key != Some(StorageKey)
    ensures OnExternalChange(p, e, c).auth == p.auth
  {
  }

  /** An unparseable new value keeps the old session, which then no longer matches the store. */
  lemma UnparseableEventKeepsSession(p: Provider, e: StorageEvent, c: Codec<AuthState>)
    requires Lawful(c)
    requires e.key == Some(StorageKey) && Truthy(e.newValue) && c.parse(e.newValue.value).None?
    ensures OnExternalChange(p, e, c).auth == p.auth
    ensures !Synced(OnExternalChange(p, e, c), c)
  {
  }

  /**
   * `localStorage.clear()` in another tab: the listener ignores the event
   * (its key is `null`), so the session survives while the store is empty.
   */
  lemma ClearKeepsSessionButDesyncs(p: Provider, v: Option<string>, c: Codec<AuthState>)
    ensures OnExternalChange(p, StorageEvent(None, v), c).auth == p.auth
    ensures OnExternalChange(p, StorageEvent(None, v), c).store == map[]
    ensures !Synced(OnExternalChange(p, StorageEvent(None, v), c), c)
  {
  }

  /** Cross-tab convergence: when tab A sets a session, tab B's listener adopts exactly that session. */
  lemma CrossTabConvergence(a: Provider, b: Provider, s: AuthState, c: Codec<AuthState>)
    requires Lawful(c)
    ensures var a' := SetAuth(a, s, c);
            var b' := OnExternalChange(b.(store := a.store), StorageEvent(Some(StorageKey), Some(a'.store[StorageKey])), c);
            b'.auth == s && Synced(b', c) && b'.store == a'.store
  {
    var a' := SetAuth(a, s, c);
    var e := StorageEvent(Some(StorageKey), Some(a'.store[StorageKey]));
    var seen := b.(store := a.store).(store := ExternalWrite(a.store, e));
    assert seen.store == a'.store;
  }

  /** Sign-out in another tab (key removed) signs this tab out and writes the empty session back. */
  lemma RemovalSignsOut(p: Provider, c: Codec<AuthState>)
    ensures var p' := OnExternalChange(p, StorageEvent(Some(StorageKey), None), c);
            p'.auth == EmptySession && p'.store[StorageKey] == c.serialise(EmptySession)
  {
  }

  /**
   * Opening a new tab briefly signs the other tabs out: its mount commit
   * writes the empty session before the restored one, so a tab holding a
   * session `s` first adopts the empty session and then `s` again.
   */
  lemma MountTransientSignOut(a: Provider, c: Codec<AuthState>)
    requires Lawful(c) && Synced(a, c) && a.auth != EmptySession
    ensures var first := MountFirstCommitStore(a.store, c);
            var a1 := OnExternalChange(a, StorageEvent(Some(StorageKey), Some(first[StorageKey])), c);
            var b := Mount(a.store, c);
            var a2 := OnExternalChange(a1, StorageEvent(Some(StorageKey), Some(b.store[StorageKey])), c);
            a1.auth == EmptySession && a2.auth == a.auth
  {
    ReadAfterPersist(a.store - {StorageKey}, StorageKey, c, a.auth);
    assert a.store == Storage.Persist(a.store - {StorageKey}, StorageKey, c, a.auth);
  }

  // -----------------------------------------------------------------------
  // The persisted-session invariant over a run
  // -----------------------------------------------------------------------

  /** What can happen to a mounted provider. */
  datatype Action =
    | SetSession(next: AuthState)
    | External(event: StorageEvent)
    | SignOutAction

  function Apply(p: Provider, a: Action, c: Codec<AuthState>): Provider {
    match a
    case SetSession(next) => SetAuth(p, next, c)
    case External(e) => OnExternalChange(p, e, c)
    case SignOutAction => SignOutSettled(p, c)
  }

  /**
   * Events that name a key and, when that key is the session key, carry a
   * new value that is absent, empty or parseable. Writes to the other keys
   * of the origin (devices, privacy, location, welcome) are included.
   */
  ghost predicate WellFormedEvent(e: StorageEvent, c: Codec<AuthState>) {
    e.key.Some? && (e.key != Some(StorageKey) || !Truthy(e.newValue) || c.parse(e.newValue.value).Some?)
  }

  ghost predicate WellFormedRun(actions: seq<Action>, c: Codec<AuthState>) {
    forall k :: 0 <= k < |actions| && actions[k].External? ==> WellFormedEvent(actions[k].event, c)
  }

  function Run(p: Provider, actions: seq<Action>, c: Codec<AuthState>): Provider
    decreases |actions|
  {
    if |actions| == 0 then p else Run(Apply(p, actions[0], c), actions[1..], c)
  }

  lemma ApplyKeepsSynced(p: Provider, a: Action, c: Codec<AuthState>)
    requires Lawful(c) && Synced(p, c)
    requires a.External? ==> WellFormedEvent(a.event, c)
    ensures Synced(Apply(p, a, c), c) && Apply(p, a, c).ready == p.ready
  {
  }

  /** After mount, every run of local changes and well-formed events (anything but `clear()` and unparseable session values) keeps the store in step with the session. */
  lemma {:induction false} RunKeepsSynced(p: Provider, actions: seq<Action>, c: Codec<AuthState>)
    requires Lawful(c) && Synced(p, c)
    requires WellFormedRun(actions, c)
    ensures Synced(Run(p, actions, c), c) && Run(p, actions, c).ready == p.ready
    decreases |actions|
  {
    if |actions| > 0 {
      ApplyKeepsSynced(p, actions[0], c);
      assert WellFormedRun(actions[1..], c) by {
        forall k | 0 <= k < |actions[1..]| && actions[1..][k].External?
          ensures WellFormedEvent(actions[1..][k].event, c)
        {
          assert actions[1..][k] == actions[k + 1];
        }
      }
      RunKeepsSynced(Apply(p, actions[0], c), actions[1..], c);
    }
  }
}
