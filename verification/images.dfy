/** The value stored under a view name in an `images` object: the data URL a
    capture or upload produced, or `undefined` once the slot was cleared. */
module Images {
  import opened Wrappers
  import opened JsObject

  datatype Slot = Undefined | Url(url: string) {

    /** JavaScript truthiness of the stored value. */
    predicate Truthy() {
      Url? && url != ""
    }
  }

  /** `o[k]` is truthy. */
  predicate HasImage<K(==)>(o: Obj<K, Slot>, k: K) {
    Get(o, k).Some? && Get(o, k).value.Truthy()
  }
}
