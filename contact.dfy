/**
 * The contact form (components/Contact.tsx).
 *
 * Three text fields and a status.  Typing replaces one field; a submit shows
 * `Sending`, posts the form to the relay service and, depending on the
 * reply, shows `Success` (and clears the form) or `Error` (and keeps it);
 * either way a 5 s timer puts the status back to `Idle`.  The HTTP call is
 * an outcome handed in by the caller.
 */
module Contact {
  import opened Wrappers

  // ---------------------------------------------------------------------
  // Form data and `handleChange`

  /** The `name` attribute of the three inputs. */
  datatype Field = Name | Email | Message

  datatype FormData = FormData(name: string, email: string, message: string)

  const EmptyForm := FormData("", "", "")

  function Get(form: FormData, f: Field): string
  {
    match f
    case Name => form.name
    case Email => form.email
    case Message => form.message
  }

  /** `{...formData, [e.target.name]: e.target.value}`. */
  function HandleChange(form: FormData, f: Field, value: string): (r: FormData)
    ensures Get(r, f) == value
    ensures forall g: Field :: g != f ==> Get(r, g) == Get(form, g)
  {
    match f
    case Name => form.(name := value)
    case Email => form.(email := value)
    case Message => form.(message := value)
  }

  /** Two values are equal when all three fields read the same. */
  lemma FormExtensional(a: FormData, b: FormData)
    requires forall g: Field :: Get(a, g) == Get(b, g)
    ensures a == b
  {
    assert Get(a, Name) == Get(b, Name);
    assert Get(a, Email) == Get(b, Email);
    assert Get(a, Message) == Get(b, Message);
  }

  /** Typing into a field twice keeps only the last value. */
  lemma ChangeLastWins(form: FormData, f: Field, v: string, w: string)
    ensures HandleChange(HandleChange(form, f, v), f, w) == HandleChange(form, f, w)
  {
  }

  /** Edits to different fields do not interfere. */
  lemma ChangesCommute(form: FormData, f: Field, v: string, g: Field, w: string)
    requires f != g
    ensures HandleChange(HandleChange(form, f, v), g, w) == HandleChange(HandleChange(form, g, w), f, v)
  {
  }

  /** Writing back the value a field already holds changes nothing. */
  lemma ChangeToSameIsNoop(form: FormData, f: Field)
    ensures HandleChange(form, f, Get(form, f)) == form
  {
  }

  // ---------------------------------------------------------------------
  // The request body

  const SubjectPrefix := "New message from "
  const SubjectSuffix := " - Portfolio Contact"

  /** The subject line of the relayed mail names the sender. */
  function Subject(name: string): (r: string)
    ensures |r| == |SubjectPrefix| + |name| + |SubjectSuffix|
    ensures r[..|SubjectPrefix|] == SubjectPrefix
    ensures r[|SubjectPrefix|..|SubjectPrefix| + |name|] == name
    ensures r[|SubjectPrefix| + |name|..] == SubjectSuffix
  {
    SubjectPrefix + name + SubjectSuffix
  }

  /** Reads the sender's name back out of a subject line. */
  function SenderOf(subject: string): (r: Option<string>)
    ensures r.Some? ==> |subject| >= |SubjectPrefix| + |SubjectSuffix|
    ensures r.Some? ==> subject == Subject(r.value)
  {
    var p, s := |SubjectPrefix|, |SubjectSuffix|;
    if |subject| >= p + s && subject[..p] == SubjectPrefix && subject[|subject| - s..] == SubjectSuffix then
      var name := subject[p..|subject| - s];
      assert subject == subject[..p] + name + subject[|subject| - s..];
      Some(name)
    else
      None
  }

  /** The sender's name can always be recovered from the subject. */
  lemma SenderOfSubject(name: string)
    ensures SenderOf(Subject(name)) == Some(name)
  {
  }

  /** Different senders give different subjects. */
  lemma SubjectInjective(a: string, b: string)
    requires Subject(a) == Subject(b)
    ensures a == b
  {
  }

  /** The JSON body posted to the relay; the access key comes from the environment. */
  datatype Request = Request(accessKey: string, name: string, email: string, message: string, subject: string)

  function BuildRequest(accessKey: string, form: FormData): (r: Request)
    ensures r.accessKey == accessKey
    ensures r.name == form.name && r.email == form.email && r.message == form.message
    ensures SenderOf(r.subject) == Some(form.name)
  {
    SenderOfSubject(form.name);
    Request(accessKey, form.name, form.email, form.message, Subject(form.name))
  }

  // ---------------------------------------------------------------------
  // Status and the submit button

  datatype Status = Idle | Sending | Success | Error

  datatype Button = Button(disabled: bool, caption: string)

  function SubmitButton(s: Status): (b: Button)
    ensures b.disabled <==> s == Sending
  {
    match s
    case Sending => Button(true, "Sending...")
    case Success => Button(false, "\U{2713} Sent!")
    case Error => Button(false, "Error - Try Again")
    case Idle => Button(false, "Send Message")
  }

  /** The caption tells all four statuses apart. */
  lemma LabelsDistinct(s: Status, t: Status)
    requires SubmitButton(s).caption == SubmitButton(t).caption
    ensures s == t
  {
  }

  /** What the relay did: answered with a `success` flag, or the fetch or its JSON threw. */
  datatype Outcome = Responded(success: bool) | Threw

  datatype Settled = Settled(status: Status, form: FormData)

  /** Status and form once the request has finished. */
  function Settle(form: FormData, outcome: Outcome): (r: Settled)
    ensures r.status == Success <==> outcome == Responded(true)
    ensures r.status == Error <==> outcome != Responded(true)
    ensures r.status == Success ==> r.form == EmptyForm
    ensures r.status == Error ==> r.form == form
  {
    match outcome
    case Responded(true) => Settled(Success, EmptyForm)
    case Responded(false) => Settled(Error, form)
    case Threw => Settled(Error, form)
  }

  // ---------------------------------------------------------------------
  // The component

  class ContactForm {
    var status: Status
    var form: FormData
    /** Submits whose reply has not arrived yet. */
    var inFlight: nat
    /** 5 s reset timers scheduled and not yet fired. */
    var pendingResets: nat
    /** Every request posted so far. */
    var sent: seq<Request>

    /**
     * `Sending` is shown only while a reply is awaited, and a result shown
     * to the user always has a reset timer that will clear it.  No method
     * needs it to do its work; every method is proved to preserve it.
     */
    ghost predicate Valid()
      reads this
    {
      && (status == Sending ==> inFlight > 0)
      && (status == Success || status == Error ==> pendingResets > 0)
    }

    constructor ()
      ensures Valid()
      ensures status == Idle && form == EmptyForm
      ensures inFlight == 0 && pendingResets == 0 && sent == []
    {
      status := Idle;
      form := EmptyForm;
      inFlight := 0;
      pendingResets := 0;
      sent := [];
    }

    /** `handleChange` on the input named `f`. */
    method Change(f: Field, value: string)
      requires Valid()
      modifies this
      ensures Valid()
      ensures form == HandleChange(old(form), f, value)
      ensures status == old(status) && inFlight == old(inFlight)
      ensures pendingResets == old(pendingResets) && sent == old(sent)
    {
      form := HandleChange(form, f, value);
    }

    /**
     * `handleSubmit` up to the `await`: the status becomes `Sending` and the
     * current form is posted.  The button is disabled while `Sending`.
     */
    method BeginSubmit(accessKey: string) returns (req: Request)
      requires Valid() && !SubmitButton(status).disabled
      modifies this
      ensures Valid()
      ensures status == Sending && inFlight == old(inFlight) + 1
      ensures req == BuildRequest(accessKey, old(form)) && sent == old(sent) + [req]
      ensures form == old(form) && pendingResets == old(pendingResets)
    {
      status := Sending;
      req := BuildRequest(accessKey, form);
      sent := sent + [req];
      inFlight := inFlight + 1;
    }

    /** `handleSubmit` after the `await`: settle and schedule one reset. */
    method CompleteSubmit(outcome: Outcome)
      requires Valid() && inFlight > 0
      modifies this
      ensures Valid()
      ensures status == Settle(old(form), outcome).status
      ensures form == Settle(old(form), outcome).form
      ensures pendingResets == old(pendingResets) + 1 && inFlight == old(inFlight) - 1
      ensures sent == old(sent)
    {
      var settled := Settle(form, outcome);
      status := settled.status;
      form := settled.form;
      pendingResets := pendingResets + 1;
      inFlight := inFlight - 1;
    }

    /** A 5 s reset timer fires. */
    method FireReset()
      requires Valid() && pendingResets > 0
      modifies this
      ensures Valid()
      ensures status == Idle && pendingResets == old(pendingResets) - 1
      ensures form == old(form) && inFlight == old(inFlight) && sent == old(sent)
    {
      status := Idle;
      pendingResets := pendingResets - 1;
    }
  }

  /**
   * One visitor fills in the three fields and submits once: the statuses
   * shown, the request posted and the form left behind.
   */
  method SubmitOnce(accessKey: string, name: string, email: string, message: string, outcome: Outcome)
    returns (trace: seq<Status>, req: Request, left: FormData)
    ensures trace == [Idle, Sending, if outcome == Responded(true) then Success else Error, Idle]
    ensures req.name == name && req.email == email && req.message == message
    ensures SenderOf(req.subject) == Some(name)
    ensures left == if outcome == Responded(true) then EmptyForm else FormData(name, email, message)
  {
    var c := new ContactForm();
    c.Change(Name, name);
    c.Change(Email, email);
    c.Change(Message, message);
    FormExtensional(c.form, FormData(name, email, message));
    trace := [c.status];
    req := c.BeginSubmit(accessKey);
    trace := trace + [c.status];
    c.CompleteSubmit(outcome);
    trace := trace + [c.status];
    c.FireReset();
    trace := trace + [c.status];
    left := c.form;
  }

  /**
   * The result status leaves the button enabled, so a second submit can
   * start before the first reset timer fires; that timer then shows `Idle`
   * while the second request is still awaited.
   */
  method ResubmitBeforeReset(accessKey: string, first: Outcome)
    returns (shown: Status, awaited: nat)
    ensures shown == Idle && awaited == 1
  {
    var c := new ContactForm();
    var _ := c.BeginSubmit(accessKey);
    c.CompleteSubmit(first);
    var _ := c.BeginSubmit(accessKey);
    c.FireReset();
    shown, awaited := c.status, c.inFlight;
  }
}
