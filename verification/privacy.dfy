/**
 * The privacy settings page (app/settings/privacy/page.tsx): three flags,
 * all on by default, restored from and written back to `purecare_privacy`.
 */
module PrivacySettings {
  import opened Wrappers
  import opened Storage

  const StorageKey := "purecare_privacy"

  datatype PrivacyState = PrivacyState(dataCollection: bool, audioProcessing: bool, location: bool)

  /** `keyof PrivacyState`. */
  datatype Flag = DataCollection | AudioProcessing | Location

  const DefaultState := PrivacyState(true, true, true)

  function Get(s: PrivacyState, k: Flag): bool {
    match k
    case DataCollection => s.dataCollection
    case AudioProcessing => s.audioProcessing
    case Location => s.location
  }

  /** `toggle(k)`: `{ ...prev, [k]: !prev[k] }`. */
  function Toggle(s: PrivacyState, k: Flag): (s': PrivacyState)
    ensures Get(s', k) == !Get(s, k)
    ensures forall j: Flag :: j != k ==> Get(s', j) == Get(s, j)
  {
    match k
    case DataCollection => s.(dataCollection := !s.dataCollection)
    case AudioProcessing => s.(audioProcessing := !s.audioProcessing)
    case Location => s.(location := !s.location)
  }

  /** Toggling a flag twice restores the state; toggles of different flags commute. */
  lemma ToggleInvolution(s: PrivacyState, j: Flag, k: Flag)
    ensures Toggle(Toggle(s, k), k) == s
    ensures Toggle(Toggle(s, j), k) == Toggle(Toggle(s, k), j)
  {
  }

  /** The page's state and the origin's store. */
  datatype Page = Page(state: PrivacyState, store: Store)

  ghost predicate Synced(p: Page, c: Codec<PrivacyState>) {
    StorageKey in p.store && p.store[StorageKey] == c.serialise(p.state)
  }

  /** Mount: the restore effect replaces the default with a parseable stored state; the persist effect writes the result. */
  function Mount(st: Store, c: Codec<PrivacyState>): (p: Page)
    ensures p.state == ReadParsed(st, StorageKey, c).GetOr(DefaultState)
    ensures Synced(p, c) && p.store - {StorageKey} == st - {StorageKey}
  {
    var restored := ReadParsed(st, StorageKey, c).GetOr(DefaultState);
    Page(restored, Storage.Persist(st, StorageKey, c, restored))
  }

  /** A toggle followed by the persist effect. */
  function HandleToggle(p: Page, k: Flag, c: Codec<PrivacyState>): (p': Page)
    ensures p'.state == Toggle(p.state, k) && Synced(p', c)
    ensures p'.store - {StorageKey} == p.store - {StorageKey}
  {
    Page(Toggle(p.state, k), Storage.Persist(p.store, StorageKey, c, Toggle(p.state, k)))
  }

  /** With nothing stored, every flag starts on. */
  lemma DefaultsAllOn(st: Store, c: Codec<PrivacyState>)
    requires StorageKey !in st
    ensures forall k: Flag :: Get(Mount(st, c).state, k)
  {
  }

  /** Reopening the page after a toggle shows the toggled state. */
  lemma ReopenAfterToggle(p: Page, k: Flag, c: Codec<PrivacyState>)
    requires Lawful(c)
    ensures Mount(HandleToggle(p, k, c).store, c).state == Toggle(p.state, k)
  {
    ReadAfterPersist(p.store, StorageKey, c, Toggle(p.state, k));
  }
}
