/** The email sender's reporting logic: what `(success, message)` pair one
    send attempt yields for each way the SMTP session can end. The session
    itself (connection, STARTTLS, login, MIME message, submission) is the
    transport and is represented only by its outcome. */
module Mailer {

  const SuccessMessage: string := "Email sent successfully!"
  // Written as two literals only so that the solver can see its first character.
  const TimeoutMessage: string := "Timeout error: " + "Could not connect to the SMTP server."
  const SmtpErrorPrefix: string := "SMTP error: "

  /** An exception the sender recovers from: a timeout, or any SMTP-level
      error with its description (the exception's string form). */
  datatype Fault = Timeout | SmtpError(desc: string)

  /** How the session ended. `Failed` raised before the message was
      accepted. `SentThenFailed` raised after the message was accepted and the
      flags were set, i.e. while the `with` block closed the session, which
      still lies inside the `try`. */
  datatype Outcome = Sent | Failed(fault: Fault) | SentThenFailed(fault: Fault)

  datatype SendReport = SendReport(success: bool, message: string)

  /** The message a recovered exception leaves: the fixed timeout text, or
      the SMTP prefix followed by the exception's description, which can be
      read back from it. Neither is empty or the success message. */
  function FaultMessage(f: Fault): (m: string)
    ensures m != "" && m != SuccessMessage
    ensures m[0] == if f.Timeout? then 'T' else 'S'
    ensures f.SmtpError? ==> |SmtpErrorPrefix| <= |m| && m[|SmtpErrorPrefix|..] == f.desc
  {
    assert SuccessMessage[0] == 'E';
    match f
    case Timeout => TimeoutMessage
    case SmtpError(desc) => SmtpErrorPrefix + desc
  }

  /** The pair the sender returns. `success` is set only once submission
      returned; `message` is overwritten by whichever handler ran last. */
  function SendEmail(o: Outcome): (r: SendReport)
    ensures r.success <==> !o.Failed?
    ensures r.message == SuccessMessage <==> o.Sent?
    ensures r.message != ""
    ensures o == Sent ==> r == SendReport(true, SuccessMessage)
    ensures o == Failed(Timeout) ==> r == SendReport(false, TimeoutMessage)
    ensures o.Failed? && o.fault.SmtpError? ==> r == SendReport(false, SmtpErrorPrefix + o.fault.desc)
    ensures o.SentThenFailed? ==> r.message == FaultMessage(o.fault)
  {
    match o
    case Sent => SendReport(true, SuccessMessage)
    case Failed(f) => SendReport(false, FaultMessage(f))
    case SentThenFailed(f) => SendReport(true, FaultMessage(f))
  }

  /** Distinct faults are reported by distinct messages. */
  lemma FaultMessageInjective(f1: Fault, f2: Fault)
    requires FaultMessage(f1) == FaultMessage(f2)
    ensures f1 == f2
  {
  }

  /** The reported pair determines the outcome: no two session outcomes are
      reported alike. */
  lemma SendEmailInjective(o1: Outcome, o2: Outcome)
    requires SendEmail(o1) == SendEmail(o2)
    ensures o1 == o2
  {
  }
}
