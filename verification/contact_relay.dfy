/** The `/api/contact` endpoint of server.js: request validation with early
    400 responses, the computed parts of the owner notification and of the
    auto-reply, and the two ordered sends whose failure turns into a 500. */
module ContactRelay {
  import opened JsText
  import opened EmailPattern
  import opened ContactData

  const OwnerAddress := "shekharxsingh57@gmail.com"
  const SubjectPrefix := "Portfolio Contact: "
  const AutoReplySubject := "Thank you for contacting me!"
  const LineBreakTag := "<br>"
  const SummaryLength := 100
  const Ellipsis := "..."

  const AllFieldsRequired := "All fields are required"
  const InvalidEmailAddress := "Please provide a valid email address"
  const SendFailed := "Failed to send message. Please try again later."
  const SendSucceeded := "Message sent successfully! I'll get back to you soon."

  /** A JSON response: the status code, the `success` flag and its `error` or
      `message` text. */
  datatype Response = Response(status: int, success: bool, text: string)

  function BadRequest(error: string): Response { Response(400, false, error) }
  const ServerError := Response(500, false, SendFailed)
  const Sent := Response(200, true, SendSucceeded)

  /** The outcome of the early checks: go on, or answer at once. */
  datatype Check = Pass | Reject(response: Response)

  predicate AllPresent(b: Submission) {
    Present(b.name) && Present(b.email) && Present(b.subject) && Present(b.message)
  }

  /** The validation block: a missing or empty field is reported before a bad
      address, and a request passes exactly when every field is present and
      the address has the pattern's shape. */
  function CheckRequest(b: Submission): (r: Check)
    ensures r.Pass? <==> AllPresent(b) && IsValidEmail(b.email.value)
    ensures r.Pass? <==> AllPresent(b) && EmailShape(b.email.value)
    ensures !AllPresent(b) ==> r == Reject(BadRequest(AllFieldsRequired))
    ensures AllPresent(b) && !IsValidEmail(b.email.value) ==> r == Reject(BadRequest(InvalidEmailAddress))
  {
    if !AllPresent(b) then Reject(BadRequest(AllFieldsRequired))
    else
      EmailPatternIffShape(b.email.value);
      if !IsValidEmail(b.email.value) then Reject(BadRequest(InvalidEmailAddress))
      else Pass
  }

  /** The notification's subject line: the fixed prefix, then the submitted
      subject unchanged. */
  function NotificationSubject(subject: string): (r: string)
    ensures |r| == |SubjectPrefix| + |subject|
    ensures r[..|SubjectPrefix|] == SubjectPrefix && r[|SubjectPrefix|..] == subject
  {
    SubjectPrefix + subject
  }

  /** `message.replace(/\n/g, '<br>')`: the result holds no line feed, grows
      by three characters per line feed, and a message without one comes
      back unchanged. */
  function NewlinesToBreaks(message: string): (r: string)
    ensures '\n' !in r
    ensures '\n' !in message ==> r == message
    ensures |r| == |message| + 3 * multiset(message)['\n']
  {
    if message == [] then []
    else
      assert message == [message[0]] + message[1..];
      (if message[0] == '\n' then LineBreakTag else [message[0]]) + NewlinesToBreaks(message[1..])
  }

  /** The rewrite works character by character: it distributes over
      concatenation. */
  lemma {:induction false} NewlinesToBreaksAppend(a: string, b: string)
    ensures NewlinesToBreaks(a + b) == NewlinesToBreaks(a) + NewlinesToBreaks(b)
  {
    if a == [] {
      assert a + b == b;
    } else {
      assert (a + b)[1..] == a[1..] + b;
      NewlinesToBreaksAppend(a[1..], b);
    }
  }

  /** Every character other than a line feed stands for itself. */
  lemma NewlinesToBreaksChar(c: char)
    ensures NewlinesToBreaks([c]) == if c == '\n' then LineBreakTag else [c]
  {
    assert [c][1..] == [];
  }

  /** The auto-reply's quotation: the first 100 characters, with "..." after
      them exactly when the message is longer. A message of at most 100
      characters is quoted whole, without an ellipsis. */
  function Summary(message: string): (r: string)
    ensures |message| <= SummaryLength ==> r == message
    ensures |message| > SummaryLength ==>
      |r| == SummaryLength + |Ellipsis| && r[..SummaryLength] == message[..SummaryLength] && r[SummaryLength..] == Ellipsis
  {
    var cut := if |message| < SummaryLength then |message| else SummaryLength;
    message[..cut] + (if |message| > SummaryLength then Ellipsis else "")
  }

  /** The parts of each e-mail that depend on the request; the static HTML
      around them is left out. */
  datatype Content =
    | Notification(name: string, email: string, subject: string, messageHtml: string)
    | AutoReply(name: string, subject: string, summary: string)

  datatype Mail = Mail(from: string, to: string, subject: string, content: Content)

  /** `process.env.EMAIL_USER || 'shekharxsingh57@gmail.com'`: the configured
      account when it is set and non-empty, the owner's address otherwise, so
      the sender is never empty. */
  function SenderAddress(emailUser: Field): (r: string)
    ensures r != ""
    ensures Present(emailUser) ==> r == emailUser.value
    ensures !Present(emailUser) ==> r == OwnerAddress
  {
    if Present(emailUser) then emailUser.value else OwnerAddress
  }

  /** The first `sendMail`: to the owner, under the prefixed subject, quoting
      the submitter's name, address and subject and the message with its
      line feeds turned into `<br>`. */
  function NotificationMail(b: Submission, emailUser: Field): (m: Mail)
    requires AllPresent(b)
    ensures m.from == SenderAddress(emailUser) && m.to == OwnerAddress
    ensures |m.subject| == |SubjectPrefix| + |b.subject.value|
    ensures m.subject[..|SubjectPrefix|] == SubjectPrefix && m.subject[|SubjectPrefix|..] == b.subject.value
    ensures m.content.Notification?
    ensures m.content.name == b.name.value && m.content.email == b.email.value && m.content.subject == b.subject.value
    ensures m.content.messageHtml == NewlinesToBreaks(b.message.value)
    ensures '\n' !in m.content.messageHtml && ('\n' !in b.message.value ==> m.content.messageHtml == b.message.value)
  {
    Mail(SenderAddress(emailUser), OwnerAddress, NotificationSubject(b.subject.value),
         Notification(b.name.value, b.email.value, b.subject.value, NewlinesToBreaks(b.message.value)))
  }

  /** The second `sendMail`: to the submitted address, under the fixed
      thank-you subject, quoting the name, the subject and at most the first
      100 characters of the message. */
  function AutoReplyMail(b: Submission, emailUser: Field): (m: Mail)
    requires AllPresent(b)
    ensures m.from == SenderAddress(emailUser) && m.to == b.email.value
    ensures m.subject == AutoReplySubject
    ensures m.content.AutoReply?
    ensures m.content.name == b.name.value && m.content.subject == b.subject.value
    ensures |b.message.value| <= SummaryLength ==> m.content.summary == b.message.value
    ensures |b.message.value| > SummaryLength ==>
      m.content.summary == b.message.value[..SummaryLength] + Ellipsis
  {
    Mail(SenderAddress(emailUser), b.email.value, AutoReplySubject,
         AutoReply(b.name.value, b.subject.value, Summary(b.message.value)))
  }

  /** Which of the steps inside the handler's `try` throw: creating the
      transporter, the first `sendMail`, the second `sendMail`. */
  datatype Faults = Faults(createThrows: bool, notificationThrows: bool, autoReplyThrows: bool)

  /** The mail provider as the relay sees it: every message handed to
      `sendMail`, in order, whether or not the call then threw. */
  class MailProvider {
    var attempts: seq<Mail>

    constructor ()
      ensures attempts == []
    {
      attempts := [];
    }

    /** One `await transporter.sendMail(mail)`; `ok` is false when it throws. */
    method SendMail(mail: Mail, throws: bool) returns (ok: bool)
      modifies this
      ensures attempts == old(attempts) + [mail]
      ensures ok == !throws
    {
      attempts := attempts + [mail];
      ok := !throws;
    }
  }

  /** The `/api/contact` handler. A request that fails validation gets its
      400 and nothing is sent. A valid one sends the notification to the
      owner and then, only if that did not throw, the auto-reply to the
      submitted address; it gets 200 when both went through and the one
      generic 500 otherwise, whichever step failed. */
  method HandleContact(b: Submission, emailUser: Field, faults: Faults, provider: MailProvider)
    returns (res: Response)
    modifies provider
    ensures CheckRequest(b).Reject? ==>
      res == CheckRequest(b).response && provider.attempts == old(provider.attempts)
    ensures CheckRequest(b).Pass? ==>
      provider.attempts == old(provider.attempts) +
        (if faults.createThrows then []
         else if faults.notificationThrows then [NotificationMail(b, emailUser)]
         else [NotificationMail(b, emailUser), AutoReplyMail(b, emailUser)])
    ensures CheckRequest(b).Pass? ==>
      res == if faults.createThrows || faults.notificationThrows || faults.autoReplyThrows
             then ServerError else Sent
  {
    var check := CheckRequest(b);
    if check.Reject? {
      return check.response;
    }
    if faults.createThrows {
      return ServerError;
    }
    var ok := provider.SendMail(NotificationMail(b, emailUser), faults.notificationThrows);
    if !ok {
      return ServerError;
    }
    ok := provider.SendMail(AutoReplyMail(b, emailUser), faults.autoReplyThrows);
    if !ok {
      return ServerError;
    }
    return Sent;
  }
}
