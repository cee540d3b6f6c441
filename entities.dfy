/** The records the two Spring services store and exchange: blogs, users,
    the blog request body, and the exceptions the services throw. */
module Entities {
  import opened Wrappers

  /** A `java.time.Instant`, as a count of time units since the epoch. */
  type Instant = int

  /** A Java `String` reference: None is `null`. */
  type JString = Option<string>

  /** A stored blog post. Title and content are whatever the request held,
      `null` included; `updatedAt` stays `null` until an update stamps it. */
  datatype Blog = Blog(
    id: string,
    userId: string,
    title: JString,
    content: JString,
    createdAt: Instant,
    updatedAt: Option<Instant>)

  /** A stored account; `password` holds the encoder's output. */
  datatype User = User(
    id: string,
    email: string,
    name: string,
    password: string,
    createdAt: Option<Instant>,
    updatedAt: Option<Instant>)

  /** The JSON body of a create or update call; absent fields are `null`. */
  datatype BlogRequest = BlogRequest(title: JString, content: JString)

  datatype HttpStatus = NotFound | Forbidden | Conflict | Unauthorized

  /** What the services throw: a plain `RuntimeException(message)`, a
      `ResponseStatusException(status, reason)`, the rejection of a page
      request whose index is negative or whose size is below one, or the
      rejection of a request body by bean validation before the service is
      called. */
  datatype Exception =
    | Runtime(message: string)
    | Status(status: HttpStatus, reason: string)
    | InvalidPageRequest
    | ValidationFailed

  /** A repository keeps every blog under its own id. */
  ghost predicate BlogsKeyedById(blogs: map<string, Blog>) {
    forall id :: id in blogs ==> blogs[id].id == id
  }

  /** A repository keeps every user under its own id. */
  ghost predicate UsersKeyedById(users: map<string, User>) {
    forall id :: id in users ==> users[id].id == id
  }
}
