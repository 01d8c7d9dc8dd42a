/** Browser storage (`localStorage`) as a map from keys to stored strings. */
module BrowserStorage {

  import opened Wrappers

  type Storage = map<string, string>

  /** `localStorage.getItem(key)`: null when the key is missing. */
  function Get(store: Storage, key: string): Option<string>
  {
    if key in store then Some(store[key]) else None
  }
}
