/** How the browser's validation (app.js) relates to the relay's (server.js):
    both test the same address pattern, and the browser's rules are strictly
    stronger. */
module ClientServer {
  import opened JsText
  import opened EmailPattern
  import opened ContactData
  import opened ContactForm
  import opened ContactRelay

  /** Every submission the browser form accepts passes the relay's checks. */
  lemma ClientAcceptanceImpliesServerAcceptance(d: Submission)
    requires ValidateForm(d).Accepted?
    ensures CheckRequest(d).Pass?
  {
    EmailPatternIffShape(d.email.value);
  }

  /** The converse fails: the relay neither trims nor counts characters, so
      a one-letter name with a short subject and message passes it while the
      browser reports three errors. */
  lemma ServerAcceptsWhatClientRejects()
    ensures var d := Submission(Str("A"), Str("a@b.c"), Str("Hi"), Str("Short"));
      && CheckRequest(d).Pass?
      && ValidateForm(d) == Rejected(NameError + ErrorSeparator + SubjectError + ErrorSeparator + MessageError)
  {
    var d := Submission(Str("A"), Str("a@b.c"), Str("Hi"), Str("Short"));
    EmailExamples();
    assert AllPresent(d) && IsValidEmail(d.email.value);
    TrimBeforeLength();
    ShortSubjectFails();
    ShortMessageFails();
    ThreeFailuresShownInOrder(d);
  }

  lemma ShortSubjectFails()
    ensures !SubjectOk(Str("Hi"))
  {
    assert !IsWs('H') && !IsWs('i');
    TrimUnpadded("Hi");
  }

  lemma ShortMessageFails()
    ensures !MessageOk(Str("Short"))
  {
    assert !IsWs('S') && !IsWs('t');
    TrimUnpadded("Short");
  }

  const JaneDoe := Submission(Str("Jane Doe"), Str("jane@example.com"), Str("Hello there"),
                              Str("This is a test message."))

  /** The sample submission passes both validations. */
  lemma JaneDoeAccepted()
    ensures ValidateForm(JaneDoe).Accepted?
    ensures CheckRequest(JaneDoe).Pass?
  {
    JaneDoeName();
    JaneDoeEmail();
    JaneDoeSubject();
    JaneDoeMessage();
    ClientAcceptanceImpliesServerAcceptance(JaneDoe);
  }

  lemma JaneDoeName()
    ensures NameOk(Str("Jane Doe"))
  {
    assert !IsWs('J') && !IsWs('e');
    TrimUnpadded("Jane Doe");
  }

  lemma JaneDoeSubject()
    ensures SubjectOk(Str("Hello there"))
  {
    assert !IsWs('H') && !IsWs('e');
    TrimUnpadded("Hello there");
  }

  lemma JaneDoeMessage()
    ensures MessageOk(Str("This is a test message."))
  {
    assert !IsWs('T') && !IsWs('.');
    TrimUnpadded("This is a test message.");
  }

  lemma JaneDoeEmail()
    ensures EmailOk(Str("jane@example.com"))
  {
    var email := "jane@example.com";
    forall i | 0 <= i < |email|
      ensures !IsWs(email[i]) && (i != 4 ==> email[i] != '@')
    {
    }
    assert SplitsAt(email, 4, 12);
  }

  /** End to end: a submission the browser accepts, relayed with `EMAIL_USER`
      unset while the mail provider works, gets the 200 success answer after exactly two mails,
      the notification to the owner and then the auto-reply to the
      submitted address. */
  method RelayAccepted(d: Submission) returns (res: Response, sent: seq<Mail>)
    requires ValidateForm(d).Accepted?
    ensures res == Sent
    ensures sent == [NotificationMail(d, Null), AutoReplyMail(d, Null)]
  {
    ClientAcceptanceImpliesServerAcceptance(d);
    var provider := new MailProvider();
    res := HandleContact(d, Null, Faults(false, false, false), provider);
    sent := provider.attempts;
  }
}
