/**
  An abstract stand-in for one key of the browser's `localStorage`.

  A slot holds nothing, the empty string, the serialisation of a value, or
  text that does not parse. Serialisation is taken to round-trip, so an
  encoded value is kept as the value itself. Access to the medium may throw
  (storage disabled), and writing may throw (quota exceeded). During server
  rendering there is no `window` and hence no medium at all.
 */
module Storage {
  import opened Wrappers

  datatype Slot<T> = Missing | Blank | Encoded(value: T) | Malformed

  datatype Medium<T> = Medium(slot: Slot<T>, accessFails: bool, writeFails: bool)

  /** `typeof window === "undefined"` is `Server`. */
  datatype Host<T> = Server | Browser(medium: Medium<T>)

  datatype StorageError = AccessDenied | QuotaExceeded | ParseError

  /** `localStorage.getItem(key)`. */
  function GetItem<T>(m: Medium<T>): (r: Result<Slot<T>, StorageError>)
    ensures r.Success? <==> !m.accessFails
    ensures r.Success? ==> r.value == m.slot
  {
    if m.accessFails then Failure(AccessDenied) else Success(m.slot)
  }

  /** `localStorage.setItem(key, JSON.stringify(v))`. */
  function SetItem<T>(m: Medium<T>, v: T): (r: Result<Medium<T>, StorageError>)
    ensures r.Success? <==> !m.accessFails && !m.writeFails
    ensures r.Success? ==> r.value == m.(slot := Encoded(v))
  {
    if m.accessFails then Failure(AccessDenied)
    else if m.writeFails then Failure(QuotaExceeded)
    else Success(m.(slot := Encoded(v)))
  }

  /** `localStorage.removeItem(key)`. */
  function RemoveItem<T>(m: Medium<T>): (r: Result<Medium<T>, StorageError>)
    ensures r.Success? <==> !m.accessFails
    ensures r.Success? ==> r.value == m.(slot := Missing)
  {
    if m.accessFails then Failure(AccessDenied) else Success(m.(slot := Missing))
  }

  /** What was set is what is read back. */
  lemma SetThenGet<T>(m: Medium<T>, v: T)
    requires SetItem(m, v).Success?
    ensures GetItem(SetItem(m, v).value) == Success(Encoded(v))
  {
  }

  /** A later write replaces an earlier one entirely. */
  lemma SetOverwrites<T>(m: Medium<T>, v: T, w: T)
    requires SetItem(m, v).Success?
    ensures SetItem(SetItem(m, v).value, w) == SetItem(m, w)
  {
  }
}
