/**
 * The browser's persistent key/value storage (`window.localStorage`) as the
 * watchdog uses it: string keys to string values. A storage that is
 * unavailable (disabled, or blocked by the browser) throws on every access.
 */
module FlagStore {
  import opened Wrappers

  class BrowserStorage {
    var items: map<string, string>
    /** false: every access throws */
    const available: bool

    constructor (items0: map<string, string>, available0: bool)
      ensures items == items0 && available == available0
    {
      items := items0;
      available := available0;
    }

    /** `getItem(key)`: the stored value, or None (`null`) when the key is absent. */
    method GetItem(key: string) returns (value: Option<string>, threw: bool)
      ensures threw == !available
      ensures value == if !threw && key in items then Some(items[key]) else None
    {
      threw := !available;
      value := if !threw && key in items then Some(items[key]) else None;
    }

    /** `setItem(key, value)`. */
    method SetItem(key: string, value: string) returns (threw: bool)
      modifies this`items
      ensures threw == !available
      ensures items == if threw then old(items) else old(items)[key := value]
    {
      threw := !available;
      if !threw {
        items := items[key := value];
      }
    }

    /** `removeItem(key)`; removing an absent key does nothing. */
    method RemoveItem(key: string) returns (threw: bool)
      modifies this`items
      ensures threw == !available
      ensures items == if threw then old(items) else old(items) - {key}
    {
      threw := !available;
      if !threw {
        items := items - {key};
      }
    }

    /** `Object.keys(window.localStorage)`: the stored keys. */
    method Keys() returns (keys: set<string>, threw: bool)
      ensures threw == !available
      ensures keys == if threw then {} else items.Keys
    {
      threw := !available;
      keys := if threw then {} else items.Keys;
    }
  }
}
