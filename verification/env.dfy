/** Environment variables as the code reads them: `process.env.X` is either
    undefined or a string, and JavaScript's `||` treats the empty string like
    undefined. */
module Env {
  import opened Wrappers

  /** The variable holds a truthy (non-empty) string. */
  predicate IsSet(value: Option<string>) {
    value.Some? && value.value != ""
  }

  /** `process.env.X || fallback` */
  function Or(value: Option<string>, fallback: string): (r: string)
    ensures IsSet(value) ==> r == value.value
    ensures !IsSet(value) ==> r == fallback
  {
    if IsSet(value) then value.value else fallback
  }
}
