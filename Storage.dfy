/** AsyncStorage, the device's persistent key-value store, as an in-memory map
    from keys to string values. Its promises always settle successfully here. */
module Storage {
  import opened Text

  class Store {
    var items: map<string, string>

    constructor (stored: map<string, string>)
      ensures items == stored
    {
      items := stored;
    }

    /** `getItem(key)`: the stored value, or `null` when the key is absent. */
    method GetItem(key: string) returns (value: Option<string>)
      ensures key in items ==> value == Some(items[key])
      ensures key !in items ==> value == None
    {
      if key in items {
        value := Some(items[key]);
      } else {
        value := None;
      }
    }

    /** `setItem(key, value)`: the key now holds the value; no other key changes. */
    method SetItem(key: string, value: string)
      modifies this`items
      ensures items == old(items)[key := value]
    {
      items := items[key := value];
    }

    /** `clear()`: every key is removed. */
    method Clear()
      modifies this`items
      ensures items == map[]
    {
      items := map[];
    }
  }
}
