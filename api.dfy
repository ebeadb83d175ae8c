/** What the view models exchange with the API service: the ordered query items of a
    request and the one result, success or failure, that its completion delivers. */
module API {

  /** `APIError`: its only case carries a description of what went wrong. */
  datatype APIError = Error(description: string)

  /** `Result<T, APIError>` as handed to a completion. */
  datatype APIResult<T> = Success(value: T) | Failure(error: APIError)

  /** `URLQueryItem(name:value:)`. */
  datatype QueryItem = QueryItem(name: string, value: string)

  /** The parts of `URLComponents` the view models set; serialisation is not modelled. */
  datatype URLComponents = URLComponents(scheme: string, host: string, path: string, queryItems: seq<QueryItem>)

  const Scheme := "https"
  const Host := "www.balldontlie.io"
}
