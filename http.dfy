/** The JSON responses the backend sends: a status code and a body. */
module Http {
  import opened TaskSchema

  /** The user as the API shows it: never the password or its hash. */
  datatype PublicUser = PublicUser(id: UserId, email: string, name: string)

  datatype Body =
    | Error(error: string)
    | Message(message: string)
    | TaskJson(task: Task)
    | TaskArray(tasks: seq<Task>)
    | Session(message: string, token: string, user: PublicUser)

  datatype Response = Response(status: int, body: Body)

  /** `res.status(status).json({ error: message })`. */
  function Failure(status: int, message: string): Response {
    Response(status, Error(message))
  }
}
