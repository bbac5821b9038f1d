/** The contact page: the form schema, the field→message error map, and submission. */
module Contact {
  import opened Text

  /** The four inputs of the form. */
  datatype ContactField = Name | Email | Phone | Message

  datatype ContactForm = ContactForm(name: string, email: string, phone: string, message: string)

  const EmptyContactForm := ContactForm("", "", "", "")

  function FieldValue(f: ContactForm, field: ContactField): string
  {
    match field
    case Name => f.name
    case Email => f.email
    case Phone => f.phone
    case Message => f.message
  }

  /** `handleInputChange`: the field named by the event takes the value; nothing else changes. */
  function WithField(f: ContactForm, field: ContactField, value: string): (r: ContactForm)
    ensures FieldValue(r, field) == value
    ensures forall other :: other != field ==> FieldValue(r, other) == FieldValue(f, other)
  {
    match field
    case Name => f.(name := value)
    case Email => f.(email := value)
    case Phone => f.(phone := value)
    case Message => f.(message := value)
  }

  /** The `maxLength` attribute of each input, where it has one. */
  function MaxLength(field: ContactField): (cap: int)
    ensures cap == -1 || cap > 0
  {
    match field
    case Name => 100
    case Message => 2000
    case _ => -1
  }

  /** What the browser lets into an input: at most `maxLength` characters, the first ones. */
  function Capped(field: ContactField, value: string): (r: string)
    ensures |r| <= |value| && r == value[..|r|]
    ensures MaxLength(field) >= 0 ==> |r| <= MaxLength(field)
    ensures (MaxLength(field) < 0 || |value| <= MaxLength(field)) ==> r == value
  {
    if 0 <= MaxLength(field) < |value| then value[..MaxLength(field)] else value
  }

  /** The name and the message are within their inputs' caps. */
  predicate WithinCaps(f: ContactForm)
  {
    |f.name| <= 100 && |f.message| <= 2000
  }

  /** A capped edit keeps a form within the caps. */
  lemma CappedEditWithinCaps(f: ContactForm, field: ContactField, value: string)
    requires WithinCaps(f)
    ensures WithinCaps(WithField(f, field, Capped(field, value)))
  {
    var g := WithField(f, field, Capped(field, value));
    assert g.name == FieldValue(g, Name) && g.message == FieldValue(g, Message);
    assert f.name == FieldValue(f, Name) && f.message == FieldValue(f, Message);
  }

  /** One validation issue: the field it is about and its message. */
  datatype Issue = Issue(field: ContactField, message: string)

  const NameTooShort := "Name must be at least 2 characters"
  const NameTooLong := "Name too long"
  const EmailInvalid := "Invalid email address"
  const EmailTooLong := "String must contain at most 255 character(s)"
  const PhoneInvalid := "Invalid phone number (e.g., +919876543210)"
  const MessageTooShort := "Message must be at least 10 characters"
  const MessageTooLong := "Message must be less than 2000 characters"

  /** Name: trimmed, at least 2 and at most 100 characters. */
  function NameIssues(raw: string): seq<Issue>
  {
    var t := Trim(raw);
    (if |t| < 2 then [Issue(Name, NameTooShort)] else [])
    + (if |t| > 100 then [Issue(Name, NameTooLong)] else [])
  }

  /** Email: trimmed, accepted by the address predicate, at most 255 characters; both checks report. */
  function EmailIssues(raw: string, isEmail: string -> bool): seq<Issue>
  {
    var t := Trim(raw);
    (if !isEmail(t) then [Issue(Email, EmailInvalid)] else [])
    + (if |t| > 255 then [Issue(Email, EmailTooLong)] else [])
  }

  predicate IsDigit(c: char)
  {
    '0' <= c <= '9'
  }

  /** The pattern `^\+?[1-9]\d{9,14}$`. */
  predicate PhonePattern(s: string)
  {
    var d := if |s| > 0 && s[0] == '+' then s[1..] else s;
    10 <= |d| <= 15 && '1' <= d[0] <= '9' && forall c :: c in d ==> IsDigit(c)
  }

  /**
   * Phone: either the trimmed value matches the pattern or the raw value is
   * exactly empty; otherwise the pattern's message is reported.
   */
  function PhoneIssues(raw: string): seq<Issue>
  {
    if PhonePattern(Trim(raw)) || raw == "" then [] else [Issue(Phone, PhoneInvalid)]
  }

  /** Message: trimmed, at least 10 and at most 2000 characters. */
  function MessageIssues(raw: string): seq<Issue>
  {
    var t := Trim(raw);
    (if |t| < 10 then [Issue(Message, MessageTooShort)] else [])
    + (if |t| > 2000 then [Issue(Message, MessageTooLong)] else [])
  }

  /** All issues of a form, field by field in schema order. */
  function Issues(f: ContactForm, isEmail: string -> bool): seq<Issue>
  {
    (NameIssues(f.name) + EmailIssues(f.email, isEmail)) + (PhoneIssues(f.phone) + MessageIssues(f.message))
  }

  lemma NameValidIff(raw: string)
    ensures NameIssues(raw) == [] <==> 2 <= |Trim(raw)| <= 100
  {
    var t := Trim(raw);
    if |t| < 2 { assert NameIssues(raw)[0] == Issue(Name, NameTooShort); }
    if |t| > 100 { assert NameIssues(raw)[0] == Issue(Name, NameTooLong); }
  }

  lemma EmailValidIff(raw: string, isEmail: string -> bool)
    ensures EmailIssues(raw, isEmail) == [] <==> isEmail(Trim(raw)) && |Trim(raw)| <= 255
  {
    var t := Trim(raw);
    var invalid := if !isEmail(t) then [Issue(Email, EmailInvalid)] else [];
    var tooLong := if |t| > 255 then [Issue(Email, EmailTooLong)] else [];
    assert EmailIssues(raw, isEmail) == invalid + tooLong;
  }

  lemma MessageValidIff(raw: string)
    ensures MessageIssues(raw) == [] <==> 10 <= |Trim(raw)| <= 2000
  {
    var t := Trim(raw);
    if |t| < 10 { assert MessageIssues(raw)[0] == Issue(Message, MessageTooShort); }
    if |t| > 2000 { assert MessageIssues(raw)[0] == Issue(Message, MessageTooLong); }
  }

  /** The first and last characters of a matching number are a plus sign or digits, never white space. */
  lemma PhonePatternEdges(s: string)
    requires PhonePattern(s)
    ensures !IsWhitespace(s[0]) && !IsWhitespace(s[|s| - 1])
  {
    var d := if s[0] == '+' then s[1..] else s;
    assert d[|d| - 1] in d;
    assert s[|s| - 1] == d[|d| - 1];
    assert IsDigit(s[|s| - 1]);
    assert s[0] == '+' || IsDigit(s[0]);
  }

  /** Message issues are about the message. */
  lemma MessageIssuesField(raw: string)
    ensures |MessageIssues(raw)| <= 1
    ensures forall k :: 0 <= k < |MessageIssues(raw)| ==> MessageIssues(raw)[k].field == Message
  {
  }

  /** Phone issues are about the phone. */
  lemma PhoneIssuesField(raw: string)
    ensures |PhoneIssues(raw)| <= 1
    ensures forall k :: 0 <= k < |PhoneIssues(raw)| ==> PhoneIssues(raw)[k].field == Phone
  {
  }

  /** Phone issues, by membership, are about the phone. */
  lemma PhoneIssuesOnPhone(raw: string)
    ensures forall i :: i in PhoneIssues(raw) ==> i.field == Phone
  {
  }

  /** A number matching the pattern is accepted as typed. */
  lemma PhoneMatchAccepted(s: string)
    requires PhonePattern(s)
    ensures PhoneIssues(s) == []
  {
    PhonePatternEdges(s);
    TrimUnchanged(s);
  }

  /** The sample in the message matches the pattern. */
  lemma PhoneSampleAccepted()
    ensures PhonePattern("+919876543210")
  {
    assert "+919876543210"[1..] == "919876543210";
  }

  /** A matching number with a space on each side is accepted: the value is trimmed first. */
  lemma PhoneSpacesTrimmed(s: string)
    requires PhonePattern(s)
    ensures PhoneIssues(" " + s + " ") == []
  {
    PhonePatternEdges(s);
    TrimSpaces(s);
  }

  /** Only the exactly empty phone is exempt: a blank one trims to "" and fails the pattern. */
  lemma PhoneBlankRejected(s: string)
    requires s != "" && forall k :: 0 <= k < |s| ==> IsWhitespace(s[k])
    ensures PhoneIssues("") == []
    ensures PhoneIssues(s) == [Issue(Phone, PhoneInvalid)]
  {
    TrimEmptyIff(s);
  }

  /** A number starting with zero is rejected. */
  lemma PhoneLeadingZeroRejected(s: string)
    requires |s| > 0 && s[0] == '0' && !IsWhitespace(s[|s| - 1])
    ensures PhoneIssues(s) == [Issue(Phone, PhoneInvalid)]
  {
    assert !IsWhitespace(s[0]);
    TrimUnchanged(s);
    assert !PhonePattern(s);
  }

  /** Fewer than ten digits are rejected. */
  lemma PhoneTooShortRejected(s: string)
    requires 0 < |s| < 10 && !IsWhitespace(s[0]) && !IsWhitespace(s[|s| - 1])
    ensures PhoneIssues(s) == [Issue(Phone, PhoneInvalid)]
  {
    TrimUnchanged(s);
  }

  /** Every issue list is empty exactly when each field passes its rule. */
  lemma IssuesEmptyIff(f: ContactForm, isEmail: string -> bool)
    ensures Issues(f, isEmail) == [] <==>
      && 2 <= |Trim(f.name)| <= 100
      && isEmail(Trim(f.email)) && |Trim(f.email)| <= 255
      && (f.phone == "" || PhonePattern(Trim(f.phone)))
      && 10 <= |Trim(f.message)| <= 2000
  {
    NameValidIff(f.name);
    EmailValidIff(f.email, isEmail);
    MessageValidIff(f.message);
  }

  /** The error map: each issue in turn writes its message under its field, later writes overwriting. */
  function FieldErrors(issues: seq<Issue>): map<ContactField, string>
  {
    if |issues| == 0 then map[]
    else
      var last := issues[|issues| - 1];
      FieldErrors(issues[..|issues| - 1])[last.field := last.message]
  }

  /** Issue `i` is the last one about field `f`. */
  ghost predicate IsLastFor(issues: seq<Issue>, f: ContactField, i: int)
  {
    0 <= i < |issues| && issues[i].field == f && forall j :: i < j < |issues| ==> issues[j].field != f
  }

  /** The map has a key for a field exactly when some issue is about it. */
  lemma {:induction false} FieldErrorsKeys(issues: seq<Issue>, f: ContactField)
    ensures f in FieldErrors(issues) <==> exists i :: 0 <= i < |issues| && issues[i].field == f
  {
    if |issues| > 0 {
      var n := |issues| - 1;
      var p := issues[..n];
      FieldErrorsKeys(p, f);
      if exists i :: 0 <= i < |issues| && issues[i].field == f {
        var i :| 0 <= i < |issues| && issues[i].field == f;
        if i < n { assert p[i].field == f; }
      }
      if exists i :: 0 <= i < n && p[i].field == f {
        var i :| 0 <= i < n && p[i].field == f;
        assert issues[i].field == f;
      }
    }
  }

  /** A field's entry holds the message of the last issue about it. */
  lemma {:induction false} FieldErrorsLastWins(issues: seq<Issue>, f: ContactField)
    requires f in FieldErrors(issues)
    ensures exists i :: IsLastFor(issues, f, i) && FieldErrors(issues)[f] == issues[i].message
  {
    var n := |issues| - 1;
    var p := issues[..n];
    var last := issues[n];
    if f == last.field {
      assert IsLastFor(issues, f, n);
    } else {
      FieldErrorsLastWins(p, f);
      var i :| IsLastFor(p, f, i) && FieldErrors(p)[f] == p[i].message;
      assert IsLastFor(issues, f, i);
    }
  }

  /** The `forEach` that fills `fieldErrors`. */
  method CollectFieldErrors(issues: seq<Issue>) returns (m: map<ContactField, string>)
    ensures m == FieldErrors(issues)
  {
    m := map[];
    for i := 0 to |issues|
      invariant m == FieldErrors(issues[..i])
    {
      assert issues[..i + 1][..i] == issues[..i];
      m := m[issues[i].field := issues[i].message];
    }
    assert issues[..|issues|] == issues;
  }

  /** Issues appended after the last one about `f` leave its entry alone. */
  lemma {:induction false} FieldErrorsUnaffected(a: seq<Issue>, b: seq<Issue>, f: ContactField)
    requires forall k :: 0 <= k < |b| ==> b[k].field != f
    ensures f in FieldErrors(a + b) <==> f in FieldErrors(a)
    ensures f in FieldErrors(a) ==> FieldErrors(a + b)[f] == FieldErrors(a)[f]
  {
    if |b| > 0 {
      var n := |b| - 1;
      assert (a + b)[..|a + b| - 1] == a + b[..n];
      assert (a + b)[|a + b| - 1] == b[n];
      FieldErrorsUnaffected(a, b[..n], f);
    } else {
      assert a + b == a;
    }
  }

  /** The message of the last issue in `a` is kept when no later issue is about its field. */
  lemma LastIssueKept(a: seq<Issue>, post: seq<Issue>)
    requires |a| > 0
    requires forall k :: 0 <= k < |post| ==> post[k].field != a[|a| - 1].field
    ensures a[|a| - 1].field in FieldErrors(a + post)
    ensures FieldErrors(a + post)[a[|a| - 1].field] == a[|a| - 1].message
  {
    FieldErrorsUnaffected(a, post, a[|a| - 1].field);
  }

  /** No issue after the email issues is about the email. */
  lemma LaterIssuesNotEmail(f: ContactForm)
    ensures var post := PhoneIssues(f.phone) + MessageIssues(f.message);
      forall k :: 0 <= k < |post| ==> post[k].field != Email
  {
    var p := PhoneIssues(f.phone);
    var m := MessageIssues(f.message);
    var post: seq<Issue> := p + m;
    MessageIssuesField(f.message);
    PhoneIssuesField(f.phone);
    forall k | 0 <= k < |post|
      ensures post[k].field != Email
    {
      if k < |p| {
        assert post[k] == p[k];
      } else {
        assert post[k] == m[k - |p|];
      }
    }
  }

  /** A malformed over-long email reports only the length message: the later issue wins. */
  lemma EmailLastMessageWins(f: ContactForm, isEmail: string -> bool)
    requires !isEmail(Trim(f.email)) && |Trim(f.email)| > 255
    ensures Email in FieldErrors(Issues(f, isEmail))
    ensures FieldErrors(Issues(f, isEmail))[Email] == EmailTooLong
  {
    var a := NameIssues(f.name) + EmailIssues(f.email, isEmail);
    assert EmailIssues(f.email, isEmail) == [Issue(Email, EmailInvalid), Issue(Email, EmailTooLong)];
    assert a[|a| - 1] == Issue(Email, EmailTooLong);
    LaterIssuesNotEmail(f);
    LastIssueKept(a, PhoneIssues(f.phone) + MessageIssues(f.message));
  }

  /** A name within its cap can only be too short. */
  lemma CappedNameIssues(raw: string)
    requires |raw| <= 100
    ensures forall i :: i in NameIssues(raw) ==> i == Issue(Name, NameTooShort)
  {
    TrimShorter(raw);
  }

  /** A message within its cap can only be too short. */
  lemma CappedMessageIssues(raw: string)
    requires |raw| <= 2000
    ensures forall i :: i in MessageIssues(raw) ==> i == Issue(Message, MessageTooShort)
  {
    TrimShorter(raw);
  }

  /** Email issues are about the email. */
  lemma EmailIssuesOnEmail(raw: string, isEmail: string -> bool)
    ensures forall i :: i in EmailIssues(raw, isEmail) ==> i.field == Email
  {
    var t := Trim(raw);
    var invalid: seq<Issue> := if !isEmail(t) then [Issue(Email, EmailInvalid)] else [];
    var tooLong: seq<Issue> := if |t| > 255 then [Issue(Email, EmailTooLong)] else [];
    assert EmailIssues(raw, isEmail) == invalid + tooLong;
    forall i | i in invalid + tooLong
      ensures i.field == Email
    {
      assert i in invalid || i in tooLong;
    }
  }

  /** An issue in none of the four field lists is not among the form's issues. */
  lemma NotInFieldLists(n: seq<Issue>, e: seq<Issue>, p: seq<Issue>, m: seq<Issue>, x: Issue)
    requires x !in n && x !in e && x !in p && x !in m
    ensures x !in (n + e) + (p + m)
  {
  }

  /** Within the caps, neither "too long" issue can arise: those checks never fire from the page. */
  lemma CapsRuleOutTooLong(f: ContactForm, isEmail: string -> bool)
    requires WithinCaps(f)
    ensures Issue(Name, NameTooLong) !in Issues(f, isEmail)
    ensures Issue(Message, MessageTooLong) !in Issues(f, isEmail)
  {
    var n := NameIssues(f.name);
    var e := EmailIssues(f.email, isEmail);
    var p := PhoneIssues(f.phone);
    var m := MessageIssues(f.message);
    CappedNameIssues(f.name);
    CappedMessageIssues(f.message);
    EmailIssuesOnEmail(f.email, isEmail);
    PhoneIssuesOnPhone(f.phone);
    assert NameTooShort != NameTooLong by { assert |NameTooShort| != |NameTooLong|; }
    assert MessageTooShort != MessageTooLong by { assert |MessageTooShort| != |MessageTooLong|; }
    NotInFieldLists(n, e, p, m, Issue(Name, NameTooLong));
    NotInFieldLists(n, e, p, m, Issue(Message, MessageTooLong));
  }

  /** The browser's `required` check on name, email and message. */
  predicate RequiredFieldsFilled(f: ContactForm)
  {
    f.name != "" && f.email != "" && f.message != ""
  }

  /** What a submit press leads to: blocked by the browser, sent, or rejected with the toast's message. */
  datatype SubmitOutcome = Blocked | Sent | Rejected(toast: string)

  class ContactPage {
    var formData: ContactForm
    var errors: map<ContactField, string>

    /** What the inputs' `maxLength` attributes keep true. */
    predicate Valid()
      reads this
    {
      WithinCaps(formData)
    }

    constructor()
      ensures Valid() && formData == EmptyContactForm && errors == map[]
    {
      formData := EmptyContactForm;
      errors := map[];
    }

    /** An input event; the browser has already cut the typed value to the input's `maxLength`. */
    method InputChange(field: ContactField, value: string)
      requires Valid()
      modifies this
      ensures Valid()
      ensures formData == WithField(old(formData), field, Capped(field, value))
      ensures errors == old(errors)
    {
      CappedEditWithinCaps(formData, field, value);
      formData := WithField(formData, field, Capped(field, value));
    }

    /**
     * `handleSubmit`. Errors are cleared first; a valid form is reset to empty
     * strings, an invalid one yields the error map and toasts the first issue.
     */
    method Submit(isEmail: string -> bool) returns (outcome: SubmitOutcome)
      requires Valid()
      modifies this
      ensures Valid()
      ensures !RequiredFieldsFilled(old(formData)) ==>
        outcome == Blocked && formData == old(formData) && errors == old(errors)
      ensures RequiredFieldsFilled(old(formData)) && Issues(old(formData), isEmail) == [] ==>
        outcome == Sent && formData == EmptyContactForm && errors == map[]
      ensures RequiredFieldsFilled(old(formData)) && Issues(old(formData), isEmail) != [] ==>
        && outcome == Rejected(Issues(old(formData), isEmail)[0].message)
        && errors == FieldErrors(Issues(old(formData), isEmail))
        && formData == old(formData)
    {
      if !RequiredFieldsFilled(formData) {
        return Blocked;
      }
      errors := map[];
      var issues := Issues(formData, isEmail);
      if issues == [] {
        formData := EmptyContactForm;
        outcome := Sent;
      } else {
        errors := CollectFieldErrors(issues);
        outcome := Rejected(issues[0].message);
      }
    }
  }
}
