/** The state template every slice of the client shares — its own data, an
    `isLoading` flag and an `error` message — and the three steps every
    asynchronous operation takes it through: pending, then fulfilled or
    rejected. */
module Lifecycle {
  import opened Common

  datatype Slice<D> = Slice(data: D, isLoading: bool, error: Option<string>)

  /** `pending`: loading, previous error cleared, data untouched. */
  function Start<D>(s: Slice<D>): (t: Slice<D>)
    ensures t.isLoading && t.error == None && t.data == s.data
  {
    s.(isLoading := true, error := None)
  }

  /** `rejected`: no longer loading, the rejection message stored, data
      untouched. */
  function Fail<D>(s: Slice<D>, message: string): (t: Slice<D>)
    ensures !t.isLoading && t.error == Some(message) && t.data == s.data
  {
    s.(isLoading := false, error := Some(message))
  }

  /** `fulfilled`: no longer loading, the new data in place; the error field
      is left as it is (every `pending` except `signOut.pending` has already
      cleared it). */
  function Settle<D>(s: Slice<D>, data: D): (t: Slice<D>)
    ensures !t.isLoading && t.error == s.error && t.data == data
  {
    s.(isLoading := false, data := data)
  }

  /** The synchronous `clearError` reducer. */
  function ClearError<D>(s: Slice<D>): (t: Slice<D>)
    ensures t.error == None && t.isLoading == s.isLoading && t.data == s.data
  {
    s.(error := None)
  }
}
