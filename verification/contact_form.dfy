/** Client-side validation of the contact form (app.js, `validateForm` and
    `isValidEmail`): four rules checked in a fixed order, one message per
    failing rule, the messages shown joined by ". ". */
module ContactForm {
  import opened JsText
  import opened EmailPattern
  import opened ContactData

  const NameError := "Name must be at least 2 characters long"
  const EmailError := "Please enter a valid email address"
  const SubjectError := "Subject must be at least 5 characters long"
  const MessageError := "Message must be at least 10 characters long"
  const ErrorSeparator := ". "

  const MinNameLength := 2
  const MinSubjectLength := 5
  const MinMessageLength := 10

  /** The four rules; a missing or empty field fails its rule, and lengths are
      taken after trimming. */
  predicate NameOk(f: Field) { Present(f) && |Trim(f.value)| >= MinNameLength }
  predicate EmailOk(f: Field) { Present(f) && IsValidEmail(f.value) }
  predicate SubjectOk(f: Field) { Present(f) && |Trim(f.value)| >= MinSubjectLength }
  predicate MessageOk(f: Field) { Present(f) && |Trim(f.value)| >= MinMessageLength }

  predicate AllRulesHold(d: Submission) {
    NameOk(d.name) && EmailOk(d.email) && SubjectOk(d.subject) && MessageOk(d.message)
  }

  /** Position of a message in the order the rules are checked. */
  function Rank(e: string): nat {
    if e == NameError then 0
    else if e == EmailError then 1
    else if e == SubjectError then 2
    else if e == MessageError then 3
    else 4
  }

  /** The `errors` array: one message for each failing rule and for no other,
      in the order name, email, subject, message, without repetition. */
  function FormErrors(d: Submission): (errs: seq<string>)
    ensures NameError in errs <==> !NameOk(d.name)
    ensures EmailError in errs <==> !EmailOk(d.email)
    ensures SubjectError in errs <==> !SubjectOk(d.subject)
    ensures MessageError in errs <==> !MessageOk(d.message)
    ensures forall i :: 0 <= i < |errs| ==> Rank(errs[i]) < 4
    ensures forall i, j :: 0 <= i < j < |errs| ==> Rank(errs[i]) < Rank(errs[j])
    ensures errs == [] <==> AllRulesHold(d)
  {
    Collect(NameOk(d.name), EmailOk(d.email), SubjectOk(d.subject), MessageOk(d.message))
  }

  /** The pushes of `validateForm`, given the outcome of each rule. */
  function Collect(nameOk: bool, emailOk: bool, subjectOk: bool, messageOk: bool): (errs: seq<string>)
    ensures NameError in errs <==> !nameOk
    ensures EmailError in errs <==> !emailOk
    ensures SubjectError in errs <==> !subjectOk
    ensures MessageError in errs <==> !messageOk
    ensures forall i :: 0 <= i < |errs| ==> Rank(errs[i]) < 4
    ensures forall i, j :: 0 <= i < j < |errs| ==> Rank(errs[i]) < Rank(errs[j])
    ensures errs == [] <==> nameOk && emailOk && subjectOk && messageOk
  {
    MessagesDistinct();
    (if nameOk then [] else [NameError])
    + (if emailOk then [] else [EmailError])
    + (if subjectOk then [] else [SubjectError])
    + (if messageOk then [] else [MessageError])
  }

  lemma MessagesDistinct()
    ensures Rank(NameError) == 0 && Rank(EmailError) == 1
    ensures Rank(SubjectError) == 2 && Rank(MessageError) == 3
  {
    assert NameError[0] == 'N' && EmailError[0] == 'P';
    assert SubjectError[0] == 'S' && MessageError[0] == 'M';
  }

  /** What `validateForm` decides: accept, or reject and show a text. */
  datatype Verdict = Accepted | Rejected(shown: string)

  /** `validateForm`: accepts exactly when all four rules hold; otherwise the
      text shown is the error messages joined by ". ". */
  function ValidateForm(d: Submission): (v: Verdict)
    ensures v.Accepted? <==> AllRulesHold(d)
    ensures v.Rejected? ==> FormErrors(d) != [] && v.shown == Join(FormErrors(d), ErrorSeparator)
  {
    var errors := FormErrors(d);
    if |errors| > 0 then Rejected(Join(errors, ErrorSeparator)) else Accepted
  }

  /** A missing or empty field always gets the form rejected. */
  lemma MissingFieldRejected(d: Submission)
    requires !Present(d.name) || !Present(d.email) || !Present(d.subject) || !Present(d.message)
    ensures ValidateForm(d).Rejected?
  {
  }

  /** A whitespace-only name fails the name rule, whatever its length. */
  lemma WhitespaceNameRejected(s: string)
    requires AllWs(s)
    ensures !NameOk(Str(s))
  {
  }

  /** Lengths are measured after trimming: "A" and "  A  " fail the name
      rule, "Al" passes it. */
  lemma TrimBeforeLength()
    ensures !NameOk(Str("A")) && !NameOk(Str("  A  ")) && NameOk(Str("Al"))
  {
    OneLetterName();
    PaddedNameTrimmed();
    TwoLetterName();
  }

  lemma OneLetterName()
    ensures Trim("A") == "A"
  {
    assert !IsWs('A');
    TrimUnpadded("A");
  }

  lemma TwoLetterName()
    ensures Trim("Al") == "Al"
  {
    assert !IsWs('A') && !IsWs('l');
    TrimUnpadded("Al");
  }

  lemma PaddedNameTrimmed()
    ensures Trim("  A  ") == "A"
  {
    assert IsWs(' ') && !IsWs('A');
    assert AllWs("  ");
    assert "  A  " == "  " + "A" + "  ";
    TrimSurrounded("  ", "A", "  ");
  }

  /** When the name, subject and message rules fail and the address passes,
      the three messages are shown in that order, separated by ". ". */
  lemma ThreeFailuresShownInOrder(d: Submission)
    requires !NameOk(d.name) && EmailOk(d.email) && !SubjectOk(d.subject) && !MessageOk(d.message)
    ensures ValidateForm(d) == Rejected(NameError + ErrorSeparator + SubjectError + ErrorSeparator + MessageError)
  {
    assert FormErrors(d) == [NameError, SubjectError, MessageError];
    JoinThree(NameError, SubjectError, MessageError, ErrorSeparator);
  }

  /** When only one rule fails, its message is shown alone, without a
      separator. */
  lemma SingleFailureShownAlone(d: Submission)
    requires NameOk(d.name) && EmailOk(d.email) && SubjectOk(d.subject) && !MessageOk(d.message)
    ensures ValidateForm(d) == Rejected(MessageError)
  {
  }
}
