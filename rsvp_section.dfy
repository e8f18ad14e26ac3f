/** The RSVP form: the schema a submission must satisfy, the message it
    sends (with defaults for the optional answers), and the section's state
    after a send that succeeded or failed.

    The mail service is a call whose outcome is a parameter
    (`sendSucceeds`); the email-format check is an arbitrary predicate
    `isEmail`; toasts are appended to a list as they are raised. String
    lengths count characters. */
module RsvpSection {
  import opened Wrappers
  import opened Strings
  import opened Dictionary
  import opened Translations
  import opened LanguageContext

  // ---------------------------------------------------------------------------
  // The form's data and its schema
  // ---------------------------------------------------------------------------

  /** What the form holds. The text inputs always hold a string; the radio
      group holds nothing until a choice is made; the guest count and the
      dietary field are only shown after choosing "yes", and the optional
      fields may be left unset. */
  datatype FormData = FormData(
    name: string,
    email: string,
    attendance: Option<string>,
    guestCount: Option<string>,
    dietaryRestrictions: Option<string>,
    message: Option<string>)

  datatype Field = Name | Email | Attendance | GuestCount | DietaryRestrictions | Message

  datatype IssueKind = TooSmall(minimum: nat) | TooBig(maximum: nat) | NotAnEmail | Missing | NotAnOption

  /** One complaint of the schema about one field. */
  datatype Issue = Issue(field: Field, kind: IssueKind)

  /** The message the schema itself gives for an issue; `None` where the
      validation library's own wording is used. */
  function CustomMessage(issue: Issue): (m: Option<string>)
    ensures m.Some? <==> issue in {Issue(Name, TooSmall(2)), Issue(Email, NotAnEmail), Issue(Attendance, Missing)}
    ensures issue == Issue(Name, TooSmall(2)) ==> m == Some("Please enter your full name")
    ensures issue == Issue(Email, NotAnEmail) ==> m == Some("Please enter a valid email address")
    ensures issue == Issue(Attendance, Missing) ==> m == Some("Please select your attendance")
  {
    match issue
    case Issue(Name, TooSmall(2)) => Some("Please enter your full name")
    case Issue(Email, NotAnEmail) => Some("Please enter a valid email address")
    case Issue(Attendance, Missing) => Some("Please select your attendance")
    case _ => None
  }

  function LengthIssues(field: Field, s: string, minimum: nat, maximum: nat): (r: seq<Issue>)
    ensures FieldsOf(r) == if minimum <= |s| <= maximum then {} else {field}
  {
    var short := if |s| < minimum then [Issue(field, TooSmall(minimum))] else [];
    var long := if |s| > maximum then [Issue(field, TooBig(maximum))] else [];
    FieldsOfAppend(short, long);
    FieldsOfAtMostOne(short);
    FieldsOfAtMostOne(long);
    short + long
  }

  function EmailIssues(email: string, isEmail: string -> bool): (r: seq<Issue>)
    ensures FieldsOf(r) == if isEmail(email) && |email| <= 255 then {} else {Email}
  {
    var format := if isEmail(email) then [] else [Issue(Email, NotAnEmail)];
    var long := if |email| > 255 then [Issue(Email, TooBig(255))] else [];
    FieldsOfAppend(format, long);
    FieldsOfAtMostOne(format);
    FieldsOfAtMostOne(long);
    format + long
  }

  function OptionalMaxIssues(field: Field, v: Option<string>, maximum: nat): (r: seq<Issue>)
    ensures FieldsOf(r) == if v.Some? && |v.value| > maximum then {field} else {}
  {
    var r := if v.Some? && |v.value| > maximum then [Issue(field, TooBig(maximum))] else [];
    FieldsOfAtMostOne(r);
    r
  }

  /** One of the two radio values. */
  predicate IsChoice(v: Option<string>) {
    v == Some("yes") || v == Some("no")
  }

  function AttendanceIssues(v: Option<string>): (r: seq<Issue>)
    ensures FieldsOf(r) == if IsChoice(v) then {} else {Attendance}
  {
    var r := match v
      case None => [Issue(Attendance, Missing)]
      case Some(a) => if a == "yes" || a == "no" then [] else [Issue(Attendance, NotAnOption)];
    FieldsOfAtMostOne(r);
    r
  }

  /** The fields some issue is about. */
  function FieldsOf(issues: seq<Issue>): set<Field> {
    set i | 0 <= i < |issues| :: issues[i].field
  }

  /** `rsvpSchema`'s verdict on the data: every issue, field by field in the
      schema's order. */
  function Issues(data: FormData, isEmail: string -> bool): (issues: seq<Issue>)
    ensures Name in FieldsOf(issues) <==> !(2 <= |data.name| <= 100)
    ensures Email in FieldsOf(issues) <==> !(isEmail(data.email) && |data.email| <= 255)
    ensures Attendance in FieldsOf(issues) <==> !IsChoice(data.attendance)
    ensures GuestCount !in FieldsOf(issues)
    ensures DietaryRestrictions in FieldsOf(issues) <==>
      data.dietaryRestrictions.Some? && |data.dietaryRestrictions.value| > 500
    ensures Message in FieldsOf(issues) <==> data.message.Some? && |data.message.value| > 1000
  {
    var name := LengthIssues(Name, data.name, 2, 100);
    var email := EmailIssues(data.email, isEmail);
    var attendance := AttendanceIssues(data.attendance);
    var dietary := OptionalMaxIssues(DietaryRestrictions, data.dietaryRestrictions, 500);
    var message := OptionalMaxIssues(Message, data.message, 1000);
    FieldsOfFive(name, email, attendance, dietary, message);
    name + email + attendance + dietary + message
  }

  lemma FieldsOfAtMostOne(r: seq<Issue>)
    requires |r| <= 1
    ensures FieldsOf(r) == if r == [] then {} else {r[0].field}
  {
    if r != [] {
      assert r[0].field in FieldsOf(r);
    }
  }

  lemma FieldsOfFive(a: seq<Issue>, b: seq<Issue>, c: seq<Issue>, d: seq<Issue>, e: seq<Issue>)
    ensures FieldsOf(a + b + c + d + e) == FieldsOf(a) + FieldsOf(b) + FieldsOf(c) + FieldsOf(d) + FieldsOf(e)
  {
    FieldsOfAppend(a, b);
    FieldsOfAppend(a + b, c);
    FieldsOfAppend(a + b + c, d);
    FieldsOfAppend(a + b + c + d, e);
  }

  lemma FieldsOfAppend(a: seq<Issue>, b: seq<Issue>)
    ensures FieldsOf(a + b) == FieldsOf(a) + FieldsOf(b)
  {
    var ab := a + b;
    forall f | f in FieldsOf(ab) ensures f in FieldsOf(a) + FieldsOf(b) {
      var i :| 0 <= i < |ab| && ab[i].field == f;
      if i >= |a| {
        assert b[i - |a|].field == f;
      }
    }
    forall f | f in FieldsOf(a) + FieldsOf(b) ensures f in FieldsOf(ab) {
      if f in FieldsOf(a) {
        var i :| 0 <= i < |a| && a[i].field == f;
        assert ab[i].field == f;
      } else {
        var i :| 0 <= i < |b| && b[i].field == f;
        assert ab[|a| + i].field == f;
      }
    }
  }

  /** The schema accepts the data: there is no issue at all. */
  predicate Accepts(data: FormData, isEmail: string -> bool) {
    Issues(data, isEmail) == []
  }

  /** The schema accepts exactly the data that meets every field's rule: a
      name of 2 to 100 characters, a well-formed email of at most 255, an
      attendance of "yes" or "no", at most 500 characters of dietary
      restrictions and 1000 of message; the guest count is free. */
  lemma {:induction false} AcceptsIff(data: FormData, isEmail: string -> bool)
    ensures Accepts(data, isEmail) <==>
      2 <= |data.name| <= 100 &&
      isEmail(data.email) && |data.email| <= 255 &&
      (data.attendance == Some("yes") || data.attendance == Some("no")) &&
      (data.dietaryRestrictions.Some? ==> |data.dietaryRestrictions.value| <= 500) &&
      (data.message.Some? ==> |data.message.value| <= 1000)
  {
    var issues := Issues(data, isEmail);
    if issues != [] {
      assert issues[0].field in FieldsOf(issues);
    }
  }

  /** A name of one character is refused with the schema's own message. */
  lemma {:induction false} OneLetterNameRefused(data: FormData, isEmail: string -> bool)
    requires |data.name| == 1
    ensures !Accepts(data, isEmail)
    ensures Issues(data, isEmail)[0] == Issue(Name, TooSmall(2))
    ensures CustomMessage(Issues(data, isEmail)[0]) == Some("Please enter your full name")
  {
  }

  // ---------------------------------------------------------------------------
  // The message sent
  // ---------------------------------------------------------------------------

  /** The parameters handed to the mail service. */
  datatype Payload = Payload(
    name: string,
    email: string,
    attendance: string,
    guestCount: string,
    dietaryRestrictions: string,
    message: string)

  /** `value || fallback` on an optional string: an unset or empty answer
      gives the fallback. */
  function OrDefault(v: Option<string>, fallback: string): (r: string)
    ensures v.Some? && v.value != "" ==> r == v.value
    ensures v.None? || v.value == "" ==> r == fallback
  {
    if v.Some? && v.value != "" then v.value else fallback
  }

  /** The payload `onSubmit` builds from accepted data. */
  function BuildPayload(data: FormData): (p: Payload)
    requires data.attendance.Some?
    ensures p.name == data.name && p.email == data.email && p.attendance == data.attendance.value
    ensures p.guestCount != "" && p.dietaryRestrictions != "" && p.message != ""
    ensures data.guestCount.Some? && data.guestCount.value != "" ==> p.guestCount == data.guestCount.value
    ensures data.dietaryRestrictions.Some? && data.dietaryRestrictions.value != "" ==>
      p.dietaryRestrictions == data.dietaryRestrictions.value
    ensures data.message.Some? && data.message.value != "" ==> p.message == data.message.value
  {
    Payload(data.name, data.email, data.attendance.value,
            OrDefault(data.guestCount, "N/A"),
            OrDefault(data.dietaryRestrictions, "None"),
            OrDefault(data.message, "No message"))
  }

  /** An answer left unset or empty is sent as the fallback; any other answer
      is sent as written. */
  lemma {:induction false} PayloadDefaults(data: FormData)
    requires data.attendance.Some?
    ensures (data.guestCount.None? || data.guestCount.value == "") <==>
      BuildPayload(data).guestCount == "N/A" && data.guestCount != Some("N/A")
    ensures (data.dietaryRestrictions.None? || data.dietaryRestrictions.value == "") <==>
      BuildPayload(data).dietaryRestrictions == "None" && data.dietaryRestrictions != Some("None")
    ensures (data.message.None? || data.message.value == "") <==>
      BuildPayload(data).message == "No message" && data.message != Some("No message")
  {
  }

  /** Two submissions that differ only in leaving an optional answer unset or
      empty send the same payload. */
  lemma {:induction false} EmptyIsUnset(data: FormData)
    requires data.attendance.Some?
    ensures BuildPayload(data.(guestCount := Some(""), dietaryRestrictions := Some(""), message := Some(""))) ==
            BuildPayload(data.(guestCount := None, dietaryRestrictions := None, message := None))
  {
  }

  // ---------------------------------------------------------------------------
  // Toasts and the confirmation card
  // ---------------------------------------------------------------------------

  /** `rsvp.success.<k>`: the key of a text of the success group. */
  function SuccessKey(k: string): string {
    "rsvp.success." + k
  }

  const TitleKey := SuccessKey("title")
  const MessageKey := SuccessKey("message")
  const DeclinedKey := SuccessKey("declined")

  /** A notification: its title, its description and whether it is styled as
      an error. Translated texts are the nodes `t` returns. */
  datatype Toast = Toast(title: Node, description: Node, destructive: bool)

  /** The toast after a successful send: the success title, and the text for
      a guest who comes or for one who declines (SuccessToastTexts). */
  function SuccessToast(language: string, attendance: string): (t: Toast)
    ensures !t.destructive
  {
    Toast(Translate(language, TitleKey),
          Translate(language, if attendance == "yes" then MessageKey else DeclinedKey),
          false)
  }

  /** The success toast's title is `t("rsvp.success.title")`, and its text is
      `t("rsvp.success.message")` for a guest who comes and
      `t("rsvp.success.declined")` for any other answer. */
  lemma SuccessToastTexts(language: string, attendance: string)
    ensures SuccessToast(language, attendance).title == Translate(language, TitleKey)
    ensures attendance == "yes" ==> SuccessToast(language, attendance).description == Translate(language, MessageKey)
    ensures attendance != "yes" ==> SuccessToast(language, attendance).description == Translate(language, DeclinedKey)
  {
  }

  /** The toast after a failed send: fixed English text, styled as an error. */
  function ErrorToast(): (t: Toast)
    ensures t.destructive
    ensures t.title == Leaf("Error") && t.description == Leaf("Failed to send RSVP. Please try again.")
  {
    Toast(Leaf("Error"), Leaf("Failed to send RSVP. Please try again."), true)
  }

  /** What the section shows in place of the form. */
  datatype View = FormView | Confirmation(title: Node, message: Node)

  /** The confirmation card once submitted, the form before. */
  function Render(isSubmitted: bool, language: string): (v: View)
    ensures v.Confirmation? <==> isSubmitted
    ensures isSubmitted ==> v.title == SuccessToast(language, "yes").title
    ensures isSubmitted ==> v.message == SuccessToast(language, "yes").description
  {
    if isSubmitted then Confirmation(Translate(language, TitleKey), Translate(language, MessageKey))
    else FormView
  }

  /** The section's state: whether a send has succeeded, the toasts raised so
      far, and the payloads handed to the mail service. */
  class RsvpForm {
    var isSubmitted: bool
    var toasts: seq<Toast>
    var sent: seq<Payload>

    constructor ()
      ensures !isSubmitted && toasts == [] && sent == []
    {
      isSubmitted := false;
      toasts := [];
      sent := [];
    }

    /** `onSubmit`: send the payload; on success mark the section submitted
        and thank the guest, on failure raise the error toast and leave the
        form as it was. The argument's type admits only the two attendance
        values. */
    method OnSubmit(data: FormData, sendSucceeds: bool, language: string)
      requires data.attendance == Some("yes") || data.attendance == Some("no")
      modifies this
      ensures sent == old(sent) + [BuildPayload(data)]
      ensures isSubmitted == (old(isSubmitted) || sendSucceeds)
      ensures sendSucceeds ==> toasts == old(toasts) + [SuccessToast(language, data.attendance.value)]
      ensures !sendSucceeds ==> toasts == old(toasts) + [ErrorToast()]
    {
      sent := sent + [BuildPayload(data)];
      if sendSucceeds {
        isSubmitted := true;
        toasts := toasts + [SuccessToast(language, data.attendance.value)];
      } else {
        toasts := toasts + [ErrorToast()];
      }
    }

    /** `handleSubmit(onSubmit)`: run the handler only when the schema accepts
        the data; otherwise nothing is sent and the state stays. */
    method HandleSubmit(data: FormData, isEmail: string -> bool, sendSucceeds: bool, language: string)
      modifies this
      ensures !Accepts(data, isEmail) ==> isSubmitted == old(isSubmitted) && toasts == old(toasts) && sent == old(sent)
      ensures Accepts(data, isEmail) ==> sent == old(sent) + [BuildPayload(data)]
      ensures Accepts(data, isEmail) ==> isSubmitted == (old(isSubmitted) || sendSucceeds)
      ensures Accepts(data, isEmail) && sendSucceeds ==>
        toasts == old(toasts) + [SuccessToast(language, data.attendance.value)]
      ensures Accepts(data, isEmail) && !sendSucceeds ==> toasts == old(toasts) + [ErrorToast()]
    {
      if Issues(data, isEmail) == [] {
        AcceptsIff(data, isEmail);
        OnSubmit(data, sendSucceeds, language);
      }
    }
  }

  // ---------------------------------------------------------------------------
  // The texts involved
  // ---------------------------------------------------------------------------

  lemma RsvpSections()
    ensures EnglishSection("rsvp") == EnRsvp() && ArabicSection("rsvp") == ArRsvp()
    ensures "rsvp" in EnglishSections()
    ensures EnRsvpPart("success") == EnRsvpSuccess() && ArRsvpPart("success") == ArRsvpSuccess()
    ensures "success" in EnRsvpKeys() && "success" in ArRsvpKeys()
  {
  }

  /** The key of a text of the success group splits into `rsvp`,
      `success` and the text's own key. */
  lemma {:induction false} SuccessKeySplits(k: string)
    requires '.' !in k
    ensures Split(SuccessKey(k), '.') == ["rsvp", "success", k]
  {
    assert "rsvp.success." == "rsvp" + ['.'] + "success" + ['.'];
    SplitThree("rsvp", "success", k, '.');
  }

  /** The first two steps of such a key reach the success group. */
  lemma SuccessGroup()
    ensures Step(Step(TableOf("en"), "rsvp"), "success") == Some(EnRsvpSuccess())
    ensures Step(Step(TableOf("ar"), "rsvp"), "success") == Some(ArRsvpSuccess())
  {
    RsvpSections();
    SectionStep("rsvp");
  }

  /** The last step picks a text of the success group; its keys hold no dot. */
  lemma SuccessStep(k: string)
    ensures k in EnRsvpSuccessKeys() ==>
      '.' !in k && Step(Some(EnRsvpSuccess()), k) == Some(Leaf(EnRsvpSuccessText(k)))
    ensures k in ArRsvpSuccessKeys() ==>
      '.' !in k && Step(Some(ArRsvpSuccess()), k) == Some(Leaf(ArRsvpSuccessText(k)))
  {
  }

  lemma {:induction false} EnglishSuccessWalk(k: string)
    requires k in EnRsvpSuccessKeys()
    ensures Walk(TableOf("en"), Split(SuccessKey(k), '.')) == Some(Leaf(EnRsvpSuccessText(k)))
  {
    SuccessStep(k);
    SuccessKeySplits(k);
    SuccessGroup();
    WalkThree(TableOf("en"), "rsvp", "success", k);
  }

  lemma {:induction false} ArabicSuccessWalk(k: string)
    requires k in ArRsvpSuccessKeys()
    ensures Walk(TableOf("ar"), Split(SuccessKey(k), '.')) == Some(Leaf(ArRsvpSuccessText(k)))
  {
    SuccessStep(k);
    SuccessKeySplits(k);
    SuccessGroup();
    WalkThree(TableOf("ar"), "rsvp", "success", k);
  }

  /** `t` of a success key for the three texts of the success group,
      in English. */
  lemma {:induction false} EnglishSuccessText(k: string)
    requires k in EnRsvpSuccessKeys()
    ensures Translate("en", SuccessKey(k)) == Leaf(EnRsvpSuccessText(k))
  {
    EnglishSuccessWalk(k);
    EnRsvpSuccessTextNonEmpty(k);
  }

  /** The same three texts in Arabic. */
  lemma {:induction false} ArabicSuccessText(k: string)
    requires k in ArRsvpSuccessKeys()
    ensures Translate("ar", SuccessKey(k)) == Leaf(ArRsvpSuccessText(k))
  {
    ArabicSuccessWalk(k);
    ArRsvpSuccessTextNonEmpty(k);
  }

  /** A guest who declines is told in the toast that they are missed, but the
      card that replaces the form then shows the text meant for a guest who
      comes, in both languages. */
  lemma {:induction false} DeclinedCardShowsAttendingText(language: string)
    requires language == "en" || language == "ar"
    ensures Render(true, language).message != SuccessToast(language, "no").description
    ensures Render(true, language).title == SuccessToast(language, "no").title
  {
    MessageIsNotDeclined(language);
  }

  /** In both languages the attending text and the declined text differ. */
  lemma {:induction false} MessageIsNotDeclined(language: string)
    requires language == "en" || language == "ar"
    ensures Translate(language, MessageKey) != Translate(language, DeclinedKey)
  {
    if language == "en" {
      EnglishSuccessText("message");
      EnglishSuccessText("declined");
    } else {
      ArabicSuccessText("message");
      ArabicSuccessText("declined");
    }
    SuccessTextsDiffer();
  }

  lemma SuccessTextsDiffer()
    ensures EnRsvpSuccessText("message") != EnRsvpSuccessText("declined")
    ensures ArRsvpSuccessText("message") != ArRsvpSuccessText("declined")
  {
    assert EnRsvpSuccessText("message")[0] != EnRsvpSuccessText("declined")[0];
    assert ArRsvpSuccessText("message")[0] != ArRsvpSuccessText("declined")[0];
  }
}
