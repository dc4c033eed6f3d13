/**
 * What the pages see of a ledger write: the wallet submits it (or throws), then the page may wait
 * for its receipt (or the wait throws); and the notices (`toast`s) the pages show about it.
 */
module Transactions {

  type Address = string
  type Hash = string

  /** What a `catch (error)` block receives. */
  datatype Thrown = ErrorValue(message: string) | NonError

  /** `error instanceof Error ? error.message : fallback`. */
  function MessageOr(e: Thrown, fallback: string): (m: string)
    ensures e.ErrorValue? ==> m == e.message
    ensures e.NonError? ==> m == fallback
  {
    match e
    case ErrorValue(message) => message
    case NonError => fallback
  }

  datatype Toast = Toast(title: string, description: string, destructive: bool)

  datatype ReceiptStatus = Success | Reverted

  /** `if (publicClient) await publicClient.waitForTransactionReceipt({ hash })`. */
  datatype Confirmation = NoClient | Mined(status: ReceiptStatus) | WaitThrew(error: Thrown)

  /** `await writeContractAsync(...)`, and then the confirmation wait. */
  datatype Submission = SubmitThrew(error: Thrown) | Submitted(hash: Hash, confirmation: Confirmation)

  /** The handler's `try` runs to its end: the write was submitted and the wait did not throw. */
  predicate Completed(s: Submission) {
    s.Submitted? && !s.confirmation.WaitThrew?
  }

  /**
   * The notices of a write handler: the submitted notice carrying the hash once the wallet accepts
   * the write, and one destructive notice passing the error message through when the submission
   * or the wait throws.
   */
  function WriteToasts(submittedTitle: string, failedTitle: string, fallback: string, s: Submission): (r: seq<Toast>)
    ensures s.SubmitThrew? ==> r == [Toast(failedTitle, MessageOr(s.error, fallback), true)]
    ensures s.Submitted? ==> |r| >= 1 && r[0] == Toast(submittedTitle, s.hash, false)
    ensures Completed(s) ==> |r| == 1
    ensures s.Submitted? && s.confirmation.WaitThrew? ==>
      r == [Toast(submittedTitle, s.hash, false), Toast(failedTitle, MessageOr(s.confirmation.error, fallback), true)]
  {
    match s
    case SubmitThrew(e) => [Toast(failedTitle, MessageOr(e, fallback), true)]
    case Submitted(hash, c) =>
      [Toast(submittedTitle, hash, false)]
      + (if c.WaitThrew? then [Toast(failedTitle, MessageOr(c.error, fallback), true)] else [])
  }
}
