/** Nullable values, as database columns and optional arguments have them. */
module Options {

  datatype Option<+T> = None | Some(value: T)

  /** SQL COALESCE on two nullable columns. */
  function Coalesce<T>(first: Option<T>, second: Option<T>): Option<T> {
    if first.Some? then first else second
  }

  /** Python truthiness of an optional text argument. */
  predicate Given(text: Option<string>) {
    text.Some? && text.value != ""
  }
}
