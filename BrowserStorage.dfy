/** The browser's `localStorage`: a string-to-string store that survives the
    authorization redirect. */
module BrowserStorage {
  import opened Util

  /** The value stored under `key`, `None` for `getItem`'s `null`. */
  function Get(items: map<string, string>, key: string): (r: Option<string>)
    ensures r.Some? <==> key in items
    ensures r.Some? ==> r.value == items[key]
  {
    if key in items then Some(items[key]) else None
  }

  class LocalStorage {
    var items: map<string, string>

    constructor (initial: map<string, string>)
      ensures items == initial
    {
      items := initial;
    }

    function GetItem(key: string): Option<string>
      reads this
    {
      Get(items, key)
    }

    method SetItem(key: string, value: string)
      modifies this
      ensures items == old(items)[key := value]
    {
      items := items[key := value];
    }

    method RemoveItem(key: string)
      modifies this
      ensures items == old(items) - {key}
    {
      items := items - {key};
    }
  }
}
