/** The contact section: a four-field form whose submission goes to a hosted email
    relay, a one-line status readout, and a "typing" headline that grows one character
    per timer tick. The relay call itself is not modelled: its settling is an abstract
    boolean outcome handed to the state machine. */
module ContactSection {

  /** The four inputs of the form, named as their `name` attributes. */
  datatype Field = Name | Email | Subject | Message

  /** The `formData` record. */
  datatype FormData = FormData(name: string, email: string, subject: string, message: string)
  {
    /** The value the input named `field` shows. */
    function Get(field: Field): string {
      match field
      case Name => name
      case Email => email
      case Subject => subject
      case Message => message
    }

    /** The record with one field replaced, as `{...formData, [name]: value}` builds it. */
    function With(field: Field, value: string): (r: FormData)
      ensures r.Get(field) == value
      ensures forall g :: g != field ==> r.Get(g) == Get(g)
    {
      match field
      case Name => this.(name := value)
      case Email => this.(email := value)
      case Subject => this.(subject := value)
      case Message => this.(message := value)
    }
  }

  const EmptyForm := FormData("", "", "", "")

  /** The fixed recipient and the relay's service and template ids. */
  const Recipient := "tanzeelfaiz@gmail.com"
  const ServiceId := "service_qr1z0yp"
  const TemplateId := "template_3a4eqdr"

  const SuccessMessage := "Message sent successfully! \U{1F680}"
  const FailureMessage := "Failed to send message. Please try again."
  const WaitingMessage := "Waiting for message..."
  const SendingLabel := "sending..."
  const IdleLabel := "sendMessage()"

  /** The template parameters sent to the relay (`from_name`, `from_email`, `subject`,
      `message`, `to_email`). */
  datatype TemplateParams =
    TemplateParams(fromName: string, fromEmail: string, subject: string, message: string, toEmail: string)

  /** One call to the relay: service id, template id and parameters. */
  datatype SendRequest = SendRequest(serviceId: string, templateId: string, params: TemplateParams)

  /** The form fields a set of template parameters carries. */
  function FormOf(p: TemplateParams): FormData {
    FormData(p.fromName, p.fromEmail, p.subject, p.message)
  }

  /** The parameters built from the form: the four fields and the fixed recipient. */
  function ParamsOf(f: FormData): (p: TemplateParams)
    ensures FormOf(p) == f
    ensures p.toEmail == Recipient
  {
    TemplateParams(f.name, f.email, f.subject, f.message, Recipient)
  }

  // The status readout

  /** `sub` occurs in `s` starting at offset `i`. */
  predicate OccursAt(s: string, sub: string, i: int) {
    0 <= i <= |s| - |sub| && s[i..i + |sub|] == sub
  }

  /** JavaScript's `s.includes(sub)`: `sub` occurs in `s` at some offset. */
  predicate Includes(s: string, sub: string)
    ensures Includes(s, sub) ==> |sub| <= |s|
    ensures sub == [] ==> Includes(s, sub)
  {
    assert sub == [] ==> OccursAt(s, sub, 0);
    exists i | 0 <= i <= |s| - |sub| :: OccursAt(s, sub, i)
  }

  /** Every character of an included string occurs in the including one. */
  lemma IncludedCharsOccur(s: string, sub: string, k: nat)
    requires Includes(s, sub) && k < |sub|
    ensures sub[k] in s
  {
    var i :| 0 <= i <= |s| - |sub| && OccursAt(s, sub, i);
    assert s[i..i + |sub|][k] == s[i + k];
  }

  datatype Colour = Green | Cyan

  /** What the status line shows and in which colour. */
  datatype StatusLine = StatusLine(text: string, colour: Colour)

  /** The status line for a status message: a placeholder while the message is empty,
      green exactly when the message contains "successfully". */
  function StatusLineOf(msg: string): (r: StatusLine)
    ensures msg == "" ==> r.text == WaitingMessage
    ensures msg != "" ==> r.text == msg
    ensures r.colour == Green <==> Includes(msg, "successfully")
  {
    StatusLine(if msg == "" then WaitingMessage else msg,
               if Includes(msg, "successfully") then Green else Cyan)
  }

  /** After a successful send the readout shows the success message in green. */
  lemma SuccessShownGreen()
    ensures StatusLineOf(SuccessMessage) == StatusLine(SuccessMessage, Green)
  {
    assert OccursAt(SuccessMessage, "successfully", 13);
  }

  /** After a failed send the readout shows the failure message, not in green. */
  lemma FailureShownCyan()
    ensures StatusLineOf(FailureMessage) == StatusLine(FailureMessage, Cyan)
  {
    if Includes(FailureMessage, "successfully") {
      IncludedCharsOccur(FailureMessage, "successfully", 1);
      assert false;
    }
  }

  // The typing headline

  const FullText := "// Let's create something extraordinary together"

  /** The typing effect's state: `typedText` and `isTyping`. */
  datatype Typing = Typing(text: string, typing: bool)

  /** The text typed so far is a prefix of the full text, and typing stops only once
      the text is complete. */
  predicate TypingValid(t: Typing) {
    |t.text| <= |FullText| && t.text == FullText[..|t.text|] && (!t.typing ==> t.text == FullText)
  }

  /** One timer firing of the typing effect. */
  function TypeTick(t: Typing): (r: Typing)
    ensures TypingValid(t) ==> TypingValid(r) && r.text == FullText[..|r.text|]
    ensures TypingValid(t) ==> t.text <= r.text
    ensures t.typing && |t.text| < |FullText| ==> r.typing && |r.text| == |t.text| + 1
    ensures TypingValid(t) && r.typing != t.typing ==> !r.typing && r.text == FullText
    ensures !t.typing ==> r == t
  {
    if t.typing && |t.text| < |FullText| then Typing(FullText[..|t.text| + 1], true)
    else if |t.text| == |FullText| then Typing(t.text, false)
    else t
  }

  /** The state after `n` timer firings. */
  function Run(t: Typing, n: nat): Typing
    decreases n
  {
    if n == 0 then t else Run(TypeTick(t), n - 1)
  }

  /** Typing only ever extends the text and keeps it a prefix of the full text. */
  lemma {:induction false} RunExtends(t: Typing, n: nat)
    requires TypingValid(t)
    ensures TypingValid(Run(t, n)) && t.text <= Run(t, n).text
    decreases n
  {
    if n > 0 {
      RunExtends(TypeTick(t), n - 1);
    }
  }

  /** From any valid state, one firing per missing character and one more complete the
      text and stop the typing; from then on nothing changes. */
  lemma {:induction false} RunCompletes(t: Typing)
    requires TypingValid(t)
    ensures Run(t, |FullText| - |t.text| + 1) == Typing(FullText, false)
    decreases |FullText| - |t.text|
  {
    if |t.text| < |FullText| {
      RunCompletes(TypeTick(t));
    }
  }

  /** The headline starts empty and is complete after one tick per character plus one. */
  lemma HeadlineTypesOut()
    ensures Run(Typing("", true), |FullText| + 1) == Typing(FullText, false)
  {
    RunCompletes(Typing("", true));
  }

  /** The state of the contact section. */
  class ContactForm {
    var formData: FormData
    var isLoading: bool
    var statusMessage: string
    var typedText: string
    var isTyping: bool

    ghost predicate Valid()
      reads this
    {
      TypingValid(Typing(typedText, isTyping))
    }

    constructor ()
      ensures Valid()
      ensures formData == EmptyForm && !isLoading && statusMessage == ""
      ensures typedText == "" && isTyping
    {
      formData := EmptyForm;
      isLoading := false;
      statusMessage := "";
      typedText := "";
      isTyping := true;
    }

    /** The submit button is disabled and reads "sending..." exactly while loading. */
    function SubmitDisabled(): (r: bool)
      reads this
      ensures r <==> ButtonLabel() == SendingLabel
    {
      isLoading
    }

    function ButtonLabel(): (r: string)
      reads this
      ensures r == SendingLabel <==> isLoading
      ensures r == SendingLabel || r == IdleLabel
    {
      if isLoading then SendingLabel else IdleLabel
    }

    /** `handleInputChange`: the input named `field` now holds `value`. */
    method HandleInputChange(field: Field, value: string)
      requires Valid()
      modifies this
      ensures Valid()
      ensures formData == old(formData).With(field, value)
      ensures isLoading == old(isLoading) && statusMessage == old(statusMessage)
      ensures typedText == old(typedText) && isTyping == old(isTyping)
    {
      formData := formData.With(field, value);
    }

    /** `handleSubmit` up to the relay call: loading starts, the status is cleared and
        the request built from the current fields is returned. No field is checked
        here; the inputs' `required` attributes are the browser's business. */
    method BeginSubmit() returns (request: SendRequest)
      requires Valid()
      modifies this
      ensures Valid()
      ensures isLoading && statusMessage == ""
      ensures request == SendRequest(ServiceId, TemplateId, ParamsOf(old(formData)))
      ensures formData == old(formData)
      ensures typedText == old(typedText) && isTyping == old(isTyping)
    {
      isLoading := true;
      statusMessage := "";
      var templateParams := TemplateParams(formData.name, formData.email, formData.subject,
                                           formData.message, Recipient);
      request := SendRequest(ServiceId, TemplateId, templateParams);
    }

    /** `handleSubmit` once the relay call settles: `sent` is whether it resolved. */
    method FinishSubmit(sent: bool)
      requires Valid()
      modifies this
      ensures Valid()
      ensures !isLoading
      ensures sent ==> statusMessage == SuccessMessage && formData == EmptyForm
      ensures !sent ==> statusMessage == FailureMessage && formData == old(formData)
      ensures typedText == old(typedText) && isTyping == old(isTyping)
    {
      if sent {
        statusMessage := SuccessMessage;
        formData := EmptyForm;
      } else {
        statusMessage := FailureMessage;
      }
      isLoading := false;
    }

    /** One firing of the typing effect's timer. */
    method Tick()
      requires Valid()
      modifies this
      ensures Valid()
      ensures Typing(typedText, isTyping) == TypeTick(Typing(old(typedText), old(isTyping)))
      ensures formData == old(formData) && isLoading == old(isLoading)
      ensures statusMessage == old(statusMessage)
    {
      if isTyping && |typedText| < |FullText| {
        typedText := FullText[..|typedText| + 1];
      } else if |typedText| == |FullText| {
        isTyping := false;
      }
    }
  }
}
