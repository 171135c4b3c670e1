/** The records of types.ts and the small wrappers every screen uses. */
module Types {

  datatype Option<+T> = None | Some(value: T)

  datatype Result<+R, +E> = Ok(value: R) | Err(error: E)

  /** Who wrote a chat message. */
  datatype Role = User | Model

  /** One chat message. The source uses a string built from the clock as the id;
      here it is a natural number drawn from a counter. */
  datatype Message = Message(id: nat, role: Role, content: string)

  /** The three screens of the application. */
  datatype View = Dashboard | Diagnose | Chat

  /** The structured reply of the image diagnosis. */
  datatype DiagnosisResult = DiagnosisResult(disease: string, description: string, remedy: string)

  /** A value thrown inside a `try` block: an `Error` object with its message, or anything else. */
  datatype Thrown = ErrorObject(message: string) | NonError

  /** `e instanceof Error ? e.message : fallback`, the message a `catch` block shows. */
  function ErrorText(e: Thrown, fallback: string): (r: string)
    ensures e.ErrorObject? ==> r == e.message
    ensures e.NonError? ==> r == fallback
  {
    match e
    case ErrorObject(m) => m
    case NonError => fallback
  }
}
