/** The values the two stores hold. The entity classes of the repository are not
    part of this model; their fields are taken from where they are used. */
module Entities {

  /** Absence of a value: `undefined` / `null` in the TypeScript code. */
  datatype Option<+T> = None | Some(value: T)

  /** A user, identified by its email address (the key of the user store). */
  datatype User = User(email: string, name: string)

  /** A saved prior version of an entity. `data` is the serialised entity:
      `JSON.stringify` of a user is modelled as `Some(user)` (parsing it back gives
      exactly that user), and `JSON.stringify(undefined)`, which is `undefined`,
      is modelled as `None`. */
  datatype Snapshot = Snapshot(entity: string, entity_id: string, data: Option<User>)

  /** How an operation ends: it returns normally, or `JSON.parse` throws a
      SyntaxError because the snapshot's data is `undefined`. */
  datatype Completion = Normal | SyntaxError

  /** `map.get(key)`: the value under `key`, or `None` when there is none. */
  function Get<K, V>(m: map<K, V>, key: K): (r: Option<V>)
    ensures r.None? <==> key !in m
    ensures r.Some? ==> key in m && r.value == m[key]
  {
    if key in m then Some(m[key]) else None
  }
}
