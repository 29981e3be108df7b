/** Browser-local storage as the stores see it: one slot per key, holding
    the decoded value. JSON encoding is abstracted away: a slot either has
    nothing (a missing key or an empty string), a value that decodes, or
    text that does not decode. */
module Storage {
  import opened Wrappers
  import opened Types

  datatype Theme = Light | Dark

  datatype Slot<T> = Empty | Holds(value: T) | Unreadable

  /** What a reader gets from a slot: the value, or nothing when the key is
      empty or its text does not decode. */
  function Read<T>(s: Slot<T>): Option<T> {
    if s.Holds? then Some(s.value) else None
  }

  /** The keys "token", "user", "theme" and "orders". */
  datatype LocalStore = LocalStore(
    token: Option<string>,
    user: Slot<User>,
    theme: Option<Theme>,
    orders: Slot<seq<LocalOrder>>)
}
