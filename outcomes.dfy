/** Small datatypes shared by the modules: an optional value (JavaScript's
    `null`/`undefined` versus a value), the outcome of a call to the remote
    backend, and the outcome of a form check. */
module Outcomes {

  datatype Option<T> = None | Some(value: T)

  /** What a remote call (table query, RPC, auth call) returned: its data, or
      an error that the client catches. The backend itself is not modelled. */
  datatype Remote<T> = Ok(data: T) | Failed

  /** A form handler either submits a request to the backend or refuses the
      input with the message it shows, without any remote call. */
  datatype Submission<T> = Submit(request: T) | Refuse(message: string)
}
