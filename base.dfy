/** Values shared by every page of the application. */
module Base {

  /** A value that JavaScript code represents as `T | null`. */
  datatype Option<T> = None | Some(value: T)

  /** A user-facing toast, kept only as its outcome: a success or a destructive error. */
  datatype Notice = Success(title: string) | Failure(title: string)
}
