/** An option type, and the outcomes of the client's remote reads and
    writes as the thunks see them. Every remote call of the client is I/O;
    the model receives its outcome as a value of one of these types. */
module Common {

  datatype Option<+T> = None | Some(value: T) {
    function GetOr(default: T): T {
      match this
      case Some(v) => v
      case None => default
    }
  }

  /** A settled thunk: fulfilled with a value, or rejected with the message
      the reducer stores in `error`. */
  datatype Result<+T> = Ok(value: T) | Err(message: string)

  /** Outcome of reading one document by id. */
  datatype Read<+D> = Found(data: D) | Missing | ReadFailed(message: string)

  /** Outcome of a remote write: the value it produced (a new document id,
      a download URL, nothing) or the failure message. */
  datatype Write<+V> = Written(value: V) | WriteFailed(message: string)

  /** The shared shape of every "read a document by id" thunk: an existing
      document fulfils, a missing one rejects with `notFound`, a failed read
      rejects with the store's own message. */
  function ReadOrReject<D>(read: Read<D>, notFound: string): (r: Result<D>)
    ensures r.Ok? <==> read.Found?
    ensures read.Found? ==> r.value == read.data
    ensures read.Missing? ==> r == Err(notFound)
    ensures read.ReadFailed? ==> r == Err(read.message)
  {
    match read
    case Found(d) => Ok(d)
    case Missing => Err(notFound)
    case ReadFailed(m) => Err(m)
  }
}
