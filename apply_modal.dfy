/**
 * The contact / apply dialog of the job board: a three-step view
 * (contact details, application form, confirmation), the validation of the
 * application form, and the check that decides whether a contact is an
 * e-mail address.
 */
module ApplyModal {
  import opened Text

  /** The dialog's three views. */
  datatype ModalView = Contact | Form | Submitted

  /** The interface strings of one language that the validation messages use. */
  datatype UiText = UiText(yourName: string, yourEmail: string, fieldRequired: string, invalidEmail: string)

  /** The strings of the selected language, falling back to English when the table has none. */
  function TextFor(tables: map<string, UiText>, language: string): UiText
    requires "English" in tables
  {
    if language in tables then tables[language] else tables["English"]
  }

  /** A contact is offered as an e-mail link when it includes an `@`. */
  function IsEmail(contact: string): (r: bool)
    ensures r <==> '@' in contact
  {
    ContainsCharIff(contact, '@');
    Contains(contact, "@")
  }

  // ---------------------------------------------------------------------------
  // The pattern /^\S+@\S+\.\S+$/
  // ---------------------------------------------------------------------------

  /** `s` is `x@y.z` with `x`, `y` and `z` non-empty runs of non-whitespace characters. */
  ghost predicate IsEmailSplit(s: string, x: string, y: string, z: string) {
    && x != [] && y != [] && z != []
    && NoWhitespace(x) && NoWhitespace(y) && NoWhitespace(z)
    && s == x + "@" + y + "." + z
  }

  /** The language of `/^\S+@\S+\.\S+$/`. */
  ghost predicate EmailShape(s: string) {
    exists x, y, z :: IsEmailSplit(s, x, y, z)
  }

  /** The first index at or after `from` that holds `c`, or `|s|` when there is none. */
  function IndexFrom(s: string, c: char, from: nat): (k: nat)
    requires from <= |s|
    ensures from <= k <= |s|
    ensures k < |s| ==> s[k] == c
    ensures forall j :: from <= j < k ==> s[j] != c
    decreases |s| - from
  {
    if from == |s| || s[from] == c then from else IndexFrom(s, c, from + 1)
  }

  /**
   * The matcher for the pattern: no whitespace anywhere, an `@` after at least
   * one character, and a `.` at least two characters after the first such `@`
   * with at least one character after it.
   */
  predicate MatchesEmailPattern(s: string) {
    && 1 <= |s|
    && NoWhitespace(s)
    && var at := IndexFrom(s, '@', 1);
       at + 4 <= |s| && '.' in s[at + 2..|s| - 1]
  }

  /** A matched string splits at its first `@` and at a `.` after it. */
  lemma PatternGivesShape(s: string)
    requires MatchesEmailPattern(s)
    ensures EmailShape(s)
  {
    var at := IndexFrom(s, '@', 1);
    var tail := s[at + 2..|s| - 1];
    var m :| 0 <= m < |tail| && tail[m] == '.';
    var dot := at + 2 + m;
    var x, y, z := s[..at], s[at + 1..dot], s[dot + 1..];
    assert s == x + "@" + y + "." + z;
    assert IsEmailSplit(s, x, y, z);
  }

  /** A string of the shape `x@y.z` is matched. */
  lemma ShapeGivesPattern(s: string)
    requires EmailShape(s)
    ensures MatchesEmailPattern(s)
  {
    var x, y, z :| IsEmailSplit(s, x, y, z);
    var i, j := |x|, |x| + 1 + |y|;
    assert s[i] == '@' && s[j] == '.';
    forall k | 0 <= k < |s| ensures !IsWhitespace(s[k]) {
      if k < i {
        assert s[k] == x[k];
      } else if i < k < j {
        assert s[k] == y[k - i - 1];
      } else if j < k {
        assert s[k] == z[k - j - 1];
      }
    }
    var at := IndexFrom(s, '@', 1);
    assert at <= i;
    assert s[at + 2..|s| - 1][j - at - 2] == '.';
  }

  /** The matcher accepts exactly the strings the pattern describes. */
  lemma EmailPatternIff(s: string)
    ensures MatchesEmailPattern(s) <==> EmailShape(s)
  {
    if MatchesEmailPattern(s) {
      PatternGivesShape(s);
    }
    if EmailShape(s) {
      ShapeGivesPattern(s);
    }
  }

  // ---------------------------------------------------------------------------
  // Validation of the application form
  // ---------------------------------------------------------------------------

  /** The outcome of submitting the application form. */
  datatype FormCheck = Accepted | NameRequired | EmailRequired | InvalidEmail

  /** The checks of the submit handler, in their order: trimmed name, trimmed e-mail, then the pattern. */
  function CheckApplication(name: string, email: string): (r: FormCheck)
    ensures r == NameRequired <==> IsBlank(name)
    ensures r == EmailRequired <==> !IsBlank(name) && IsBlank(email)
    ensures r == InvalidEmail <==> !IsBlank(name) && !IsBlank(email) && !EmailShape(email)
    ensures r == Accepted <==> !IsBlank(name) && !IsBlank(email) && EmailShape(email)
  {
    EmailPatternIff(email);
    if IsBlank(name) then NameRequired
    else if IsBlank(email) then EmailRequired
    else if !MatchesEmailPattern(email) then InvalidEmail
    else Accepted
  }

  /** An application is accepted exactly when the name is not blank and the e-mail has the pattern's shape. */
  lemma AcceptedIff(name: string, email: string)
    ensures CheckApplication(name, email) == Accepted <==> !IsBlank(name) && EmailShape(email)
  {
    BlankIffAllWhitespace(email);
    if EmailShape(email) {
      var x, y, z :| IsEmailSplit(email, x, y, z);
      assert email[0] == x[0];
    }
  }

  /** The message shown for a check outcome; an accepted form clears it. */
  function ErrorText(check: FormCheck, t: UiText): string {
    match check
    case NameRequired => t.yourName + " " + t.fieldRequired
    case EmailRequired => t.yourEmail + " " + t.fieldRequired
    case InvalidEmail => t.invalidEmail
    case Accepted => ""
  }

  // ---------------------------------------------------------------------------
  // The dialog
  // ---------------------------------------------------------------------------

  class Modal {
    var view: ModalView
    var language: string
    var appName: string
    var appEmail: string
    var appMessage: string
    var formError: string

    /** The confirmation is shown only for an accepted name and e-mail. */
    ghost predicate Valid()
      reads this
    {
      view == Submitted ==> CheckApplication(appName, appEmail) == Accepted
    }

    constructor ()
      ensures Valid()
      ensures view == Contact && language == "English"
      ensures appName == "" && appEmail == "" && appMessage == "" && formError == ""
    {
      view, language := Contact, "English";
      appName, appEmail, appMessage, formError := "", "", "", "";
    }

    /** The dialog's language selector. */
    method SelectLanguage(newLanguage: string)
      requires Valid()
      modifies this`language
      ensures Valid() && language == newLanguage
    {
      language := newLanguage;
    }

    /** "Apply Now": from the contact details to the form. */
    method ApplyClick()
      requires Valid()
      modifies this`view
      ensures Valid() && view == Form
    {
      view := Form;
    }

    /** Typing into the form, whose inputs exist only in the form view. */
    method EditApplication(name: string, email: string, message: string)
      requires Valid() && view == Form
      modifies this`appName, this`appEmail, this`appMessage
      ensures Valid()
      ensures appName == name && appEmail == email && appMessage == message
    {
      appName, appEmail, appMessage := name, email, message;
    }

    /** Submitting the form: the first failing check sets its message; an accepted form shows the confirmation. */
    method FormSubmit(tables: map<string, UiText>) returns (check: FormCheck)
      requires Valid() && "English" in tables
      modifies this`formError, this`view
      ensures Valid()
      ensures check == CheckApplication(appName, appEmail)
      ensures formError == ErrorText(check, TextFor(tables, language))
      ensures view == if check == Accepted then Submitted else old(view)
    {
      var t := TextFor(tables, language);
      if IsBlank(appName) {
        formError := t.yourName + " " + t.fieldRequired;
        return NameRequired;
      }
      if IsBlank(appEmail) {
        formError := t.yourEmail + " " + t.fieldRequired;
        return EmailRequired;
      }
      EmailPatternIff(appEmail);
      if !MatchesEmailPattern(appEmail) {
        formError := t.invalidEmail;
        return InvalidEmail;
      }
      formError := "";
      view := Submitted;
      return Accepted;
    }

    /** Closing the dialog resets it to the contact view with an empty form. */
    method Close()
      requires Valid()
      modifies this`view, this`appName, this`appEmail, this`appMessage, this`formError
      ensures Valid()
      ensures view == Contact
      ensures appName == "" && appEmail == "" && appMessage == "" && formError == ""
    {
      view := Contact;
      appName, appEmail, appMessage, formError := "", "", "", "";
    }
  }
}
