/**
 * The "Add Emergency Contact" screen (app/contacts/add.tsx): the phone-number
 * pattern and the chain of checks run when the user submits the form.
 */
module AddContactScreen {

  import opened JsStrings
  import opened UseContactStore

  const Plus: CodeUnit := 0x2B

  // ---------------------------------------------------------------------------
  // The pattern /^\+?[0-9]{10,15}$/, run as a finite automaton over the code units
  // ---------------------------------------------------------------------------

  /** Where the matcher is: before anything, after the `+`, after `count` digits, or failed. */
  datatype PhoneMatchState = Start | AfterPlus | Digits(count: nat) | Dead

  function Step(q: PhoneMatchState, u: CodeUnit): PhoneMatchState
  {
    match q
    case Start => if u == Plus then AfterPlus else if IsAsciiDigit(u) then Digits(1) else Dead
    case AfterPlus => if IsAsciiDigit(u) then Digits(1) else Dead
    case Digits(n) => if IsAsciiDigit(u) && n < 15 then Digits(n + 1) else Dead
    case Dead => Dead
  }

  function Run(q: PhoneMatchState, s: JsString): PhoneMatchState
    decreases |s|
  {
    if s == [] then q else Run(Step(q, s[0]), s[1..])
  }

  /** The end anchor `$` is reached with between 10 and 15 digits read. */
  predicate Accepting(q: PhoneMatchState)
  {
    q.Digits? && 10 <= q.count <= 15
  }

  /** `validatePhoneNumber`: the whole string matches the pattern. */
  predicate ValidatePhoneNumber(s: JsString)
  {
    Accepting(Run(Start, s))
  }

  /** What the pattern describes: an optional single leading `+`, then 10 to 15 ASCII digits, nothing else. */
  predicate IsPhoneShape(s: JsString)
  {
    || (10 <= |s| <= 15 && AllAsciiDigits(s))
    || (11 <= |s| <= 16 && s[0] == Plus && AllAsciiDigits(s[1..]))
  }

  lemma {:induction false} RunDead(s: JsString)
    ensures Run(Dead, s) == Dead
  {
    if s != [] {
      RunDead(s[1..]);
    }
  }

  /** After `n` digits, the rest is accepted iff it is all digits and brings the count into 10..15. */
  lemma {:induction false} RunDigits(n: nat, s: JsString)
    requires 1 <= n <= 15
    ensures Accepting(Run(Digits(n), s)) <==> AllAsciiDigits(s) && 10 <= n + |s| <= 15
    decreases |s|
  {
    if s != [] {
      if IsAsciiDigit(s[0]) && n < 15 {
        RunDigits(n + 1, s[1..]);
        if AllAsciiDigits(s[1..]) {
          assert forall i :: 1 <= i < |s| ==> s[i] == s[1..][i - 1];
        }
      } else {
        RunDead(s[1..]);
      }
    }
  }

  /** `validatePhoneNumber(s)` holds exactly for an optional `+` followed by 10 to 15 digits. */
  lemma {:induction false} ValidatePhoneNumberIff(s: JsString)
    ensures ValidatePhoneNumber(s) <==> IsPhoneShape(s)
  {
    if s != [] {
      if s[0] == Plus {
        var t := s[1..];
        assert Run(Start, s) == Run(AfterPlus, t);
        if t == [] {
        } else if IsAsciiDigit(t[0]) {
          RunDigits(1, t[1..]);
          if AllAsciiDigits(t[1..]) {
            assert forall i :: 1 <= i < |t| ==> t[i] == t[1..][i - 1];
          }
        } else {
          RunDead(t[1..]);
        }
      } else if IsAsciiDigit(s[0]) {
        RunDigits(1, s[1..]);
        if AllAsciiDigits(s[1..]) {
          assert forall i :: 1 <= i < |s| ==> s[i] == s[1..][i - 1];
        }
      } else {
        RunDead(s[1..]);
      }
    }
  }

  /** An accepted number is 10 to 16 code units long and has no white space, so trimming keeps it. */
  lemma {:induction false} AcceptedPhoneIsTrimmed(s: JsString)
    requires ValidatePhoneNumber(s)
    ensures 10 <= |s| <= 16
    ensures NoWhiteSpace(s)
    ensures Trim(s) == s
  {
    ValidatePhoneNumberIff(s);
    if !AllAsciiDigits(s) {
      assert forall i :: 1 <= i < |s| ==> s[i] == s[1..][i - 1];
    }
    TrimNoWhiteSpace(s);
  }

  // ---------------------------------------------------------------------------
  // The submit handler
  // ---------------------------------------------------------------------------

  /** The check that stopped a submission. */
  datatype FormError = NameMissing | EmailMissing | PhoneInvalid

  /** The text of the error alert shown for each failed check. */
  function AlertMessage(e: FormError): JsString
  {
    match e
    case NameMissing => Lit("Please enter a name")
    case EmailMissing => Lit("Please enter an email")
    case PhoneInvalid => Lit("Please enter a valid phone number")
  }

  /** Each failed check has its own text, so the alert tells the user which field to fix. */
  lemma AlertMessageInjective(e1: FormError, e2: FormError)
    ensures AlertMessage(e1) == AlertMessage(e2) <==> e1 == e2
  {
  }

  /** The outcome of the checks: the first failed check, or the contact to add. */
  datatype FormResult = Rejected(error: FormError) | Accepted(contact: NewContact)

  /**
   * The guard chain of `handleAddContact`, in its order: the trimmed name must be
   * non-empty, then the email (untrimmed) non-empty, then the phone number (untrimmed)
   * must match the pattern. The contact passed on carries the trimmed fields.
   */
  function CheckContactForm(name: JsString, email: JsString, phoneNumber: JsString): (r: FormResult)
    ensures r == Rejected(NameMissing) <==> AllWhiteSpace(name)
    ensures r == Rejected(EmailMissing) <==> !AllWhiteSpace(name) && email == []
    ensures r == Rejected(PhoneInvalid) <==> !AllWhiteSpace(name) && email != [] && !IsPhoneShape(phoneNumber)
    ensures r.Accepted? <==> !AllWhiteSpace(name) && email != [] && IsPhoneShape(phoneNumber)
    ensures r.Accepted? ==> r.contact == NewContact(Trim(name), phoneNumber, Trim(email))
  {
    TrimEmptyIff(name);
    ValidatePhoneNumberIff(phoneNumber);
    if Trim(name) == [] then Rejected(NameMissing)
    else if email == [] then Rejected(EmailMissing)
    else if !ValidatePhoneNumber(phoneNumber) then Rejected(PhoneInvalid)
    else
      AcceptedPhoneIsTrimmed(phoneNumber);
      Accepted(NewContact(Trim(name), Trim(phoneNumber), Trim(email)))
  }

  /**
   * The email is only checked for being empty: an email of white space alone passes
   * and is stored as the empty string.
   */
  lemma {:induction false} BlankEmailStoredEmpty(name: JsString, email: JsString, phoneNumber: JsString)
    requires !AllWhiteSpace(name) && email != [] && AllWhiteSpace(email) && IsPhoneShape(phoneNumber)
    ensures CheckContactForm(name, email, phoneNumber).Accepted?
    ensures CheckContactForm(name, email, phoneNumber).contact.email == []
  {
  }

  /** The title and text of an alert dialog. */
  datatype Alert = Alert(title: JsString, message: JsString)

  const SuccessSuffix: JsString := Lit(" has been added to your emergency contacts.")

  /**
   * The alert `handleAddContact` shows: "Error" with the failed check's text, or
   * "Success" with the name as it was typed (not trimmed) followed by a fixed text.
   */
  function AlertFor(name: JsString, r: FormResult): (a: Alert)
    ensures r.Rejected? <==> a.title == Lit("Error")
    ensures r.Rejected? ==> a.message == AlertMessage(r.error)
    ensures r.Accepted? ==> a.title == Lit("Success")
    ensures r.Accepted? ==>
      && |a.message| == |name| + |SuccessSuffix|
      && a.message[..|name|] == name && a.message[|name|..] == SuccessSuffix
  {
    match r
    case Rejected(e) => Alert(Lit("Error"), AlertMessage(e))
    case Accepted(_) => Alert(Lit("Success"), name + SuccessSuffix)
  }

  /**
   * `handleAddContact`: run the checks and, only when all pass, call `addContact`
   * once with the trimmed contact; then show the alert for the outcome. `now` is the
   * clock reading `addContact` takes.
   */
  method HandleAddContact(store: ContactsStore, name: JsString, email: JsString, phoneNumber: JsString, now: int)
    returns (r: FormResult, alert: Alert)
    requires IsTimeValue(now)
    modifies store
    ensures r == CheckContactForm(name, email, phoneNumber)
    ensures alert == AlertFor(name, r)
    ensures r.Rejected? ==> store.contacts == old(store.contacts)
    ensures r.Accepted? ==> store.contacts == Appended(old(store.contacts), r.contact, now)
    ensures store.name == old(store.name)
  {
    if Trim(name) == [] {
      r := Rejected(NameMissing);
      return r, Alert(Lit("Error"), AlertMessage(NameMissing));
    }
    if email == [] {
      r := Rejected(EmailMissing);
      return r, Alert(Lit("Error"), AlertMessage(EmailMissing));
    }
    if !ValidatePhoneNumber(phoneNumber) {
      r := Rejected(PhoneInvalid);
      return r, Alert(Lit("Error"), AlertMessage(PhoneInvalid));
    }
    var contact := NewContact(Trim(name), Trim(phoneNumber), Trim(email));
    store.AddContact(contact, now);
    r := Accepted(contact);
    alert := Alert(Lit("Success"), name + SuccessSuffix);
  }
}
