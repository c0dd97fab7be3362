/** Optional values: the model's rendering of TypeScript's `T | null` and of
    optional (`?`) record fields. */
module Options {

  datatype Option<+T> = None | Some(value: T) {

    /** The carried value, or `default` when there is none (`x ?? default`). */
    function GetOr(default: T): T {
      match this
      case Some(v) => v
      case None => default
    }
  }

  /** The override rule of an object spread `{ ...base, ...patch }` for one
      field: a field the patch supplies wins, an absent one keeps the base. */
  function Override<T>(base: T, patch: Option<T>): T {
    match patch
    case Some(v) => v
    case None => base
  }

  /** Overriding an already overridden field with the same patch changes nothing. */
  lemma OverrideIdempotent<T>(base: T, patch: Option<T>)
    ensures Override(Override(base, patch), patch) == Override(base, patch)
  {
  }
}
