/**
 * The browser's `localStorage` as a finite map from keys to strings, and JSON
 * (de)serialisation as a pair of functions the caller supplies. Nothing here
 * interprets JSON text: `parse` is partial (it fails on text that is not JSON
 * of the expected shape) and `serialise` is total.
 */
module Storage {
  import opened Wrappers

  type Store = map<string, string>

  /** `localStorage.getItem(key)`: `null` when the key is absent. */
  function GetItem(st: Store, key: string): (v: Option<string>)
    ensures v.Some? <==> key in st
    ensures v.Some? ==> v.value == st[key]
  {
    if key in st then Some(st[key]) else None
  }

  /** `localStorage.setItem(key, value)`. */
  function SetItem(st: Store, key: string, value: string): (st': Store)
    ensures GetItem(st', key) == Some(value)
    ensures st' - {key} == st - {key}
  {
    st[key := value]
  }

  /** `localStorage.removeItem(key)`. */
  function RemoveItem(st: Store, key: string): (st': Store)
    ensures GetItem(st', key) == None
    ensures st' - {key} == st - {key}
  {
    st - {key}
  }

  /** `JSON.parse` (failing with `None`) and `JSON.stringify` for values of type `T`. */
  datatype Codec<!T> = Codec(parse: string -> Option<T>, serialise: T -> string)

  /**
   * What this client relies on from JSON: the text written for a value is
   * never empty (`JSON.stringify` of an object never is) and parses back to
   * that same value.
   */
  ghost predicate Lawful<T(!new)>(c: Codec<T>) {
    forall x: T :: c.serialise(x) != "" && c.parse(c.serialise(x)) == Some(x)
  }

  /**
   * The read half of every restore effect in the client:
   * `const raw = localStorage.getItem(key); if (raw) { v = JSON.parse(raw) }`.
   * `Some(v)` exactly when a non-empty value is stored and parses to `v`.
   */
  function ReadParsed<T>(st: Store, key: string, c: Codec<T>): (r: Option<T>)
    ensures r.Some? <==> key in st && st[key] != "" && c.parse(st[key]).Some?
    ensures r.Some? ==> c.parse(st[key]) == r
  {
    var raw := GetItem(st, key);
    if Truthy(raw) then c.parse(raw.value) else None
  }

  /** The write half: `localStorage.setItem(key, JSON.stringify(v))`. */
  function Persist<T>(st: Store, key: string, c: Codec<T>, v: T): (st': Store)
    ensures key in st' && st'[key] == c.serialise(v)
    ensures st' - {key} == st - {key}
  {
    SetItem(st, key, c.serialise(v))
  }

  /** Whatever was persisted under a key is what the next read of that key restores. */
  lemma ReadAfterPersist<T(!new)>(st: Store, key: string, c: Codec<T>, v: T)
    requires Lawful(c)
    ensures ReadParsed(Persist(st, key, c, v), key, c) == Some(v)
  {
  }

  /** A removed key reads back as nothing. */
  lemma ReadAfterRemove<T>(st: Store, key: string, c: Codec<T>)
    ensures ReadParsed(RemoveItem(st, key), key, c) == None
  {
  }
}
