/**
 * Browser state shared by several components: `window.localStorage` and the truthiness
 * tests the components apply to what they read back.
 */
module BrowserStorage {
  import opened Wrappers

  /** `window.localStorage`: a mutable map from keys to string values. */
  class LocalStorage {
    var items: map<string, string>

    constructor (items: map<string, string>)
      ensures this.items == items
    {
      this.items := items;
    }

    /** `getItem(key)`: the stored string, or `None` for `null`. */
    function GetItem(key: string): Option<string>
      reads this
    {
      if key in items then Some(items[key]) else None
    }

    /** `setItem(key, value)`. */
    method SetItem(key: string, value: string)
      modifies this
      ensures items == old(items)[key := value]
    {
      items := items[key := value];
    }
  }

  /** `if (cachedData)`: a value read back counts only when it is a non-empty string. */
  predicate IsHit(v: Option<string>) {
    v.Some? && v.value != ""
  }

  /** The text `JSON.stringify` produces for a value; it is never empty. Parsed payloads
      are modelled by this canonical text. */
  type JsonText = s: string | s != "" witness "null"

  /** Values that JavaScript treats as falsy, written as the JSON text `JSON.stringify`
      produces for them. Fetched payloads are modelled by that text. */
  predicate IsFalsyJson(text: string) {
    text == "null" || text == "false" || text == "0" || text == "\"\""
  }
}
