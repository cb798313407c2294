/** The browser's `localStorage` as far as the profile code uses it: a map from keys to the
    strings stored under them. A stored string is modelled by what `JSON.parse` makes of it. */
module Storage {
  import opened Wrappers
  import opened Text
  import opened Models

  /** A stored string, classified by how `JSON.parse` reads it back. */
  datatype StoredValue =
    | Serialized(profile: UserProfile)  // the text `JSON.stringify` wrote for a profile
    | NullLiteral                       // the text "null", which parses to `null`
    | Unparseable(text: string)         // text that makes `JSON.parse` throw, "" included

  /** `if (stored)`: only the empty string is falsy. */
  predicate IsTruthy(v: StoredValue)
  {
    !(v.Unparseable? && v.text == "")
  }

  /** `user_profile_${userId}`. */
  function ProfileKey(userId: int): (k: string)
    ensures |k| > |"user_profile_"| && k[..|"user_profile_"|] == "user_profile_"
  {
    "user_profile_" + IntToString(userId)
  }

  /** Different users never share a storage key. */
  lemma ProfileKeyInjective(a: int, b: int)
    requires ProfileKey(a) == ProfileKey(b)
    ensures a == b
  {
    var n := |"user_profile_"|;
    assert IntToString(a) == ProfileKey(a)[n..];
    assert IntToString(b) == ProfileKey(b)[n..];
    IntToStringInjective(a, b);
  }

  class LocalStorage {
    var entries: map<string, StoredValue>

    constructor(initial: map<string, StoredValue>)
      ensures entries == initial
    {
      entries := initial;
    }

    /** `getItem`: `None` stands for `null`. */
    function GetItem(key: string): (r: Option<StoredValue>)
      reads this
      ensures r.Some? <==> key in entries
      ensures r.Some? ==> r.value == entries[key]
    {
      if key in entries then Some(entries[key]) else None
    }

    /** `setItem`. */
    method SetItem(key: string, value: StoredValue)
      modifies this
      ensures entries == old(entries)[key := value]
    {
      entries := entries[key := value];
    }

    /** `removeItem`; removing a missing key does nothing. */
    method RemoveItem(key: string)
      modifies this
      ensures entries == old(entries) - {key}
    {
      entries := entries - {key};
    }
  }
}
