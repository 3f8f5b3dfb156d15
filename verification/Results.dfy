/** Shared result types: the service errors of the backend become values. */
module Results {

  datatype Option<+T> = None | Some(value: T)

  /** The API errors thrown by the services (HTTP 400, 404, 409, 500, 502). */
  datatype Error = BadRequest | NotFound | Conflict | Internal | BadGateway

  datatype Result<+T> = Ok(value: T) | Err(error: Error)
}
