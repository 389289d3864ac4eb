/**
 * The contact page of the web front end (frontend/src/app/contact/page.tsx): a form checked
 * against `ContactFormSchema`, sent by e-mail, after which the page shows a confirmation with
 * the sender's name and address until "Send Another Message" is pressed. Zod's e-mail check is
 * a parameter; the send is replaced by its outcome. Lengths are JavaScript's `.length`, in
 * UTF-16 code units.
 */
module Contact {
  import opened Wrappers
  import opened Text

  /** The form's values; `subject` is `None` only when the field is absent altogether. */
  datatype ContactForm = ContactForm(name: string, email: string, subject: Option<string>, message: string)

  /** `defaultValues`: every field present and empty, the subject included. */
  const Defaults := ContactForm("", "", Some(""), "")

  const NameMin: nat := 2
  const SubjectMin: nat := 5
  const MessageMin: nat := 10

  const NameError := "Name must be at least 2 characters."
  const EmailError := "Invalid email address."
  const SubjectError := "Subject must be at least 5 characters."
  const MessageError := "Message must be at least 10 characters."

  predicate NameValid(f: ContactForm) {
    Utf16Length(f.name) >= NameMin
  }

  /** Only a missing subject is exempt from the minimum; an empty one is not. */
  predicate SubjectValid(f: ContactForm) {
    f.subject.None? || Utf16Length(f.subject.value) >= SubjectMin
  }

  predicate MessageValid(f: ContactForm) {
    Utf16Length(f.message) >= MessageMin
  }

  predicate FormValid(f: ContactForm, isEmail: string -> bool) {
    NameValid(f) && isEmail(f.email) && SubjectValid(f) && MessageValid(f)
  }

  /** The messages the schema reports, one per failing field, in the schema's field order. */
  function Validate(f: ContactForm, isEmail: string -> bool): (errors: seq<string>)
    ensures errors == [] <==> FormValid(f, isEmail)
    ensures NameError in errors <==> !NameValid(f)
    ensures EmailError in errors <==> !isEmail(f.email)
    ensures SubjectError in errors <==> !SubjectValid(f)
    ensures MessageError in errors <==> !MessageValid(f)
    ensures |errors| <= 4
  {
    MessagesDistinct();
    (if NameValid(f) then [] else [NameError])
    + (if isEmail(f.email) then [] else [EmailError])
    + (if SubjectValid(f) then [] else [SubjectError])
    + (if MessageValid(f) then [] else [MessageError])
  }

  lemma MessagesDistinct()
    ensures NameError != EmailError && NameError != SubjectError && NameError != MessageError
    ensures EmailError != SubjectError && EmailError != MessageError && SubjectError != MessageError
  {
    assert NameError[0] != EmailError[0] && NameError[0] != SubjectError[0] && NameError[0] != MessageError[0];
    assert EmailError[0] != SubjectError[0] && EmailError[0] != MessageError[0] && SubjectError[0] != MessageError[0];
  }

  /** The untouched form is rejected on name, subject and message whatever the e-mail check says. */
  lemma DefaultsRejected(isEmail: string -> bool)
    ensures !NameValid(Defaults) && !SubjectValid(Defaults) && !MessageValid(Defaults)
    ensures |Validate(Defaults, isEmail)| >= 3
  {
    var errors := Validate(Defaults, isEmail);
    assert NameError in errors && SubjectError in errors && MessageError in errors;
    MessagesDistinct();
    assert {NameError, SubjectError, MessageError} <= set e | e in errors;
    assert |{NameError, SubjectError, MessageError}| == 3;
    SetOfSeqSize(errors);
    SubsetSize({NameError, SubjectError, MessageError}, set e | e in errors);
  }

  lemma {:induction false} SetOfSeqSize(s: seq<string>)
    ensures |set e | e in s| <= |s|
    decreases |s|
  {
    if s != [] {
      SetOfSeqSize(s[1..]);
      assert (set e | e in s) == (set e | e in s[1..]) + {s[0]};
    }
  }

  lemma {:induction false} SubsetSize(a: set<string>, b: set<string>)
    requires a <= b
    ensures |a| <= |b|
    decreases |a|
  {
    if a != {} {
      var x :| x in a;
      SubsetSize(a - {x}, b - {x});
    }
  }

  /** What the confirmation shows: the sender's name and address. */
  datatype Details = Details(name: string, email: string)

  /** The page's state: the form's values and the two pieces of state set on a send. */
  class ContactPage {
    var values: ContactForm
    var isSubmitted: bool
    var submissionDetails: Option<Details>

    constructor ()
      ensures values == Defaults && !isSubmitted && submissionDetails == None
    {
      values := Defaults;
      isSubmitted := false;
      submissionDetails := None;
    }

    /** `if (isSubmitted && submissionDetails)`: the confirmation replaces the form. */
    predicate ConfirmationShown()
      reads this
    {
      isSubmitted && submissionDetails.Some?
    }

    /** Editing the form. */
    method Edit(f: ContactForm)
      modifies this
      ensures values == f && isSubmitted == old(isSubmitted) && submissionDetails == old(submissionDetails)
    {
      values := f;
    }

    /**
     * A submit: the schema is checked first and `onSubmit` runs only on a valid form.
     * `sent` says whether the e-mail service accepted the message. On success the details
     * and the flag are set and the form is reset; a failed send changes nothing.
     */
    method Submit(isEmail: string -> bool, sent: bool) returns (errors: seq<string>)
      modifies this
      ensures errors == Validate(old(values), isEmail)
      ensures errors == [] && sent ==>
        submissionDetails == Some(Details(old(values).name, old(values).email)) && isSubmitted && values == Defaults
      ensures !(errors == [] && sent) ==>
        values == old(values) && isSubmitted == old(isSubmitted) && submissionDetails == old(submissionDetails)
    {
      errors := Validate(values, isEmail);
      if errors == [] && sent {
        submissionDetails := Some(Details(values.name, values.email));
        isSubmitted := true;
        values := Defaults;
      }
    }

    /** "Send Another Message". */
    method SendAnother()
      modifies this
      ensures !isSubmitted && submissionDetails == None && values == old(values)
    {
      isSubmitted := false;
      submissionDetails := None;
    }
  }

  /** A one-character name outside the Basic Multilingual Plane is long enough: it counts as two UTF-16 units. */
  lemma AstralNameCountsDouble(c: char, rest: ContactForm)
    requires c as int > 0xFFFF
    ensures NameValid(rest.(name := [c]))
  {
    assert [c][1..] == [];
  }
}
