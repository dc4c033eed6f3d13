/**
 * One `localStorage` entry holding a JSON-encoded dictionary. Reading it yields what
 * `localStorage.getItem` followed by `JSON.parse` gives: nothing stored, a blob that cannot be read
 * back (unparseable text, an empty string, or a `getItem` that throws), or the parsed value.
 */
module LocalStorage {
  import opened Options

  datatype Item<T> = Absent | Unparseable | Parsed(value: T)

  /** The parse step: a value only when the stored blob parses. */
  function Parse<T>(item: Item<T>): (r: Option<T>)
    ensures r.Some? <==> item.Parsed?
    ensures r.Some? ==> r.value == item.value
  {
    if item.Parsed? then Some(item.value) else None
  }

  /** The fail-closed load: `stored ? JSON.parse(stored) : {}` inside a `try` returning `{}`. */
  function Load<T>(item: Item<T>, empty: T): (r: T)
    ensures item.Parsed? ==> r == item.value
    ensures !item.Parsed? ==> r == empty
  {
    Parse(item).GetOr(empty)
  }

  /**
   * `localStorage.setItem(key, JSON.stringify(value))` inside a `try` that only logs: when the write
   * fails (`writable` is false) the old entry stays and nothing is reported to the caller.
   */
  function Save<T>(item: Item<T>, value: T, writable: bool): (r: Item<T>)
    ensures writable ==> Load(r, value) == value && r.Parsed?
    ensures !writable ==> r == item
  {
    if writable then Parsed(value) else item
  }
}
