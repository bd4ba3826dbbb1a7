/**
 * What the backend's routes exchange: the replies (a status code with a body,
 * a status code with an error object, or an exception that escaped the route)
 * and the file parts of a request.
 */
module Http {

  datatype Reply<+T> =
    | Success(status: int, body: T)
      /** `{"error": error}`, or `{"error": error, "details": details}` when details is not "". */
    | Failure(status: int, error: string, details: string)
      /** An exception the route does not catch: Flask answers with its generic 500 page. */
    | Unhandled(message: string)

  /** A file part of a multipart request, by the name the client gave it. */
  datatype UploadedFile = UploadedFile(filename: string)

  /** The part both prediction endpoints read: "photo" when present, else "image". */
  function UploadKey(files: map<string, UploadedFile>): (key: string)
    ensures key == "photo" <==> "photo" in files
    ensures key != "photo" ==> key == "image"
  {
    if "photo" in files then "photo" else "image"
  }
}
