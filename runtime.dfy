/**
 * The few pieces of the .NET runtime the model needs: an optional value,
 * the two kinds of exception the program tells apart, and the outcome of a
 * call that either returns a value or lets an exception propagate.
 */
module Runtime {

  datatype Option<+T> = None | Some(value: T)

  /** `XmlException` is what the XML parser throws on a document that is not
      well-formed; every other exception (a failed download, an I/O error, ...)
      is an `OtherException`. Only the message is observable to the program. */
  datatype Exception =
    | XmlException(message: string)
    | OtherException(message: string)

  /** The result of a call: it returned a value, or an exception left it. */
  datatype Outcome<+T> = Returned(value: T) | Threw(exception: Exception)
}
