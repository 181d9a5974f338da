/** The uniform outcome of one printer call. */
module Results {

  /** `PrintResult`: success flag, message (error text or printer response)
      and the number of bytes written, copies included. */
  datatype PrintResult = PrintResult(successful: bool, message: string, bytesSent: int)

  /** The state a fresh `new PrintResult()` starts in: (false, "", 0). */
  const Initial: PrintResult := PrintResult(false, "", 0)

  /** A fresh result whose message was set and nothing else. */
  function Failure(message: string): (r: PrintResult)
    ensures !r.successful && r.bytesSent == 0 && r.message == message
  {
    Initial.(message := message)
  }

  /** Exceptions that leave a library method instead of being caught. */
  datatype Exception =
    | NotImplemented(message: string)   // NotImplementedException with its text
    | ArgumentOutOfRange                // raised by a .NET string method
    | NullReference                     // a member accessed on a null reference
    | Thrown(message: string)           // raised by an external collaborator

  /** `ex.Message` of a NullReferenceException, as .NET words it. */
  const NullReferenceMessage: string := "Object reference not set to an instance of an object."

  /** A call either returns a value or lets an exception escape. */
  datatype Outcome<+T> = Returned(value: T) | Raised(exception: Exception)

  /** A transport call: its outcome together with the bookkeeping of the
      operating-system resources the call acquired and released. */
  datatype Run<+R> = Run(outcome: Outcome<PrintResult>, resources: R) {

    predicate Succeeded() {
      outcome.Returned? && outcome.value.successful
    }

    /** Returned a failed result carrying exactly `message` and no byte count. */
    predicate FailedWith(message: string) {
      outcome == Returned(Failure(message))
    }
  }
}
