/** Vocabulary shared by the backend routes and the client pages: document ids,
    optional values, how a route fails, and how a client request ends. */
module Common {

  /** A document id. ObjectIds are unique across collections, so one id space serves
      categories, subcategories and products alike. */
  type Id = nat

  datatype Option<T> = None | Some(value: T)

  /** Why a route answered with an error. */
  datatype Failure =
    | Invalid       // a schema validator rejected the document
    | NotFound      // no document has the requested id
    | StoreFailure  // any other failure of a store call

  /** What a route answers: the JSON body on success, or the failure it reports. */
  datatype Reply<T> = Ok(value: T) | Err(failure: Failure)

  /** Which store call of one request fails, if any. The calls a request issues are
      numbered from 0 in the order the route issues them. */
  datatype Fault = NoFault | FailAt(step: nat)

  /** The store calls numbered below `writes` all succeed under `f`. */
  predicate Survives(f: Fault, writes: nat) {
    f.NoFault? || f.step >= writes
  }

  /** The HTTP status a route sends for `r`, given the status it uses on success. */
  function Status<T>(r: Reply<T>, success: nat): nat {
    match r
    case Ok(_) => success
    case Err(NotFound) => 404
    case Err(_) => 500
  }

  /** How a client request ends: the response data, or a thrown error (network failure or
      a non-2xx status, which axios turns into a rejection). */
  datatype Response<T> = Received(data: T) | Threw
}
