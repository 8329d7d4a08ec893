/** The browser's `localStorage`, as the client stores use it: a string-to-string
    map. */
module LocalStorage {
  import opened Wrappers

  type Storage = map<string, string>

  /** `localStorage.getItem`: the stored string, or null for a missing key. */
  function GetItem(storage: Storage, key: string): (v: Option<string>)
    ensures v.Some? <==> key in storage
    ensures v.Some? ==> v.value == storage[key]
  {
    if key in storage then Some(storage[key]) else None
  }
}
