/** components/PublicCheckIn.tsx: the attendee-facing check-in. One session
    runs `idle -> verifying -> processing -> success | error` and back to
    `idle`. Geolocation, template composition, the text-generation service
    and mail dispatch are inputs to the steps; `onVerify` is recorded as the
    sequence of its calls. */
module PublicCheckIn {
  import opened Types
  import opened Text
  import opened Registry

  datatype Status = Idle | Verifying | Processing | Success | Error

  /** Geolocation answers with a position or fails (denied, timed out). */
  datatype GeoOutcome = Located | LocationFailed

  /** Template composition gives an image or rejects/throws. */
  datatype RenderOutcome = Rendered(dataUrl: string) | RenderFailed

  /** Mail dispatch succeeds or throws. */
  datatype MailOutcome = MailSent | MailFailed

  /** One call `onVerify(email, isVerified)`. */
  datatype Verification = Verification(email: string, isVerified: bool)

  /** The message line of the form. */
  datatype Notice = NoNotice | NotFound | AutomationFailed | CheckedIn(email: string)

  /** The text shown for each notice. */
  function NoticeText(n: Notice): string {
    match n
    case NoNotice => []
    case NotFound =>
      "Registration Not Found: Please use the email address you provided in the Google Form."
    case AutomationFailed =>
      "Automation failed during certificate generation. Please try again or contact the admin."
    case CheckedIn(email) =>
      "Check-in Successful! Your certificate has been automated and sent to " + email + "."
  }

  /** The canned thank-you note, which names the event. */
  function FallbackNote(eventName: string): (note: string)
    ensures |note| > 24 + |eventName| && note[24..24 + |eventName|] == eventName
  {
    "Thank you for attending " + eventName + "! Your certificate is ready."
  }

  /** The note handed to the mail: the service's reply when it answered with
      some text, otherwise the canned note. It is never empty. */
  function ThankYouNote(eventName: string, reply: AiReply): (note: string)
    ensures note != []
    ensures reply.AiText? && reply.text != [] ==> note == reply.text
    ensures reply.AiFailed? || reply.text == [] ==> note == FallbackNote(eventName)
  {
    var fallback := FallbackNote(eventName);
    match reply
    case AiText(t) => if t != [] then t else fallback
    case AiFailed => fallback
  }

  /** The first index at or after `from` whose lower-cased email is `key`. */
  function FindKey(attendees: seq<Attendee>, key: string, from: nat): (r: Option<nat>)
    requires from <= |attendees|
    ensures r.Some? ==> from <= r.value < |attendees| && Lower(attendees[r.value].email) == key
    ensures r.Some? ==> forall j :: from <= j < r.value ==> Lower(attendees[j].email) != key
    ensures r.None? ==> forall j :: from <= j < |attendees| ==> Lower(attendees[j].email) != key
    decreases |attendees| - from
  {
    if from == |attendees| then None
    else if Lower(attendees[from].email) == key then Some(from)
    else FindKey(attendees, key, from + 1)
  }

  /** `handleProcess`'s lookup: the first record whose lower-cased email equals
      the trimmed, lower-cased typed text. */
  function Lookup(attendees: seq<Attendee>, typed: string): (r: Option<nat>)
    ensures r.Some? ==> r.value < |attendees| && MatchesLower(attendees[r.value], Trim(typed))
    ensures r.Some? ==> forall j :: 0 <= j < r.value ==> !MatchesLower(attendees[j], Trim(typed))
    ensures r.None? <==> forall j :: 0 <= j < |attendees| ==> !MatchesLower(attendees[j], Trim(typed))
  {
    LowerIdempotent(Trim(typed));
    FindKey(attendees, Lower(Trim(typed)), 0)
  }

  /** The case in which the email is typed does not change what is found. */
  lemma LookupIgnoresCase(attendees: seq<Attendee>, typed: string)
    ensures Lookup(attendees, Lower(typed)) == Lookup(attendees, typed)
  {
    TrimLower(typed);
    LowerIdempotent(Trim(typed));
  }

  class Session {
    /** The props of the render on which the current attempt was submitted:
        `handleProcess` and the `runAutomation` it calls read that render's
        `config` and `attendees`. */
    var config: EventConfig
    var attendees: seq<Attendee>
    /** The hidden canvas is mounted. */
    const hasCanvas: bool

    var email: string
    var status: Status
    var message: Notice
    var certUrl: Option<string>
    /** The attendee the running attempt is for. */
    var current: Option<Attendee>
    /** The note prepared for the last mail. */
    var note: string
    /** The calls of `onVerify`, in order. */
    var verifyLog: seq<Verification>
    /** The emails of the records that lookups have found so far. */
    ghost var foundEmails: set<string>

    /** While an attempt runs it is for an attendee of its props, found by
        the lookup; `onVerify` is only ever called with a found email and
        `true`; success ends with the call for the current attendee; the
        message matches the outcome. */
    ghost predicate Valid()
      reads this
    {
      && ((status == Verifying || status == Processing) ==> 
           current.Some? && current.value in attendees && current.value.email in foundEmails)
      && LogValid()
      && (status == Success ==>
            current.Some? && |verifyLog| > 0
            && verifyLog[|verifyLog| - 1] == Verification(current.value.email, true)
            && message == CheckedIn(current.value.email))
      && (status == Error ==> message == NotFound || message == AutomationFailed)
    }

    /** Every `onVerify` call so far confirmed the email of a record some
        lookup found. */
    ghost predicate LogValid()
      reads this`verifyLog, this`foundEmails
    {
      forall k :: 0 <= k < |verifyLog| ==>
        verifyLog[k].isVerified && verifyLog[k].email in foundEmails
    }

    constructor (config: EventConfig, attendees: seq<Attendee>, hasCanvas: bool)
      ensures Valid()
      ensures this.config == config && this.attendees == attendees && this.hasCanvas == hasCanvas
      ensures email == [] && status == Idle && message == NoNotice && certUrl == None
      ensures current == None && note == [] && verifyLog == [] && foundEmails == {}
    {
      this.config := config;
      this.attendees := attendees;
      this.hasCanvas := hasCanvas;
      email, status, message, certUrl := [], Idle, NoNotice, None;
      current, note, verifyLog := None, [], [];
      foundEmails := {};
    }

    /** The submit button is shown (only in `idle`) and enabled (the email
        contains '@'). */
    predicate CanSubmit()
      reads this
    {
      status == Idle && '@' in email
    }

    /** The session draws a certificate: a non-empty template and a canvas. */
    predicate RendersCertificate()
      reads this
    {
      config.certificateTemplate.Some? && config.certificateTemplate.value != [] && hasCanvas
    }

    /** Typing into the email field, which exists only in `idle`. */
    method TypeEmail(e: string)
      requires Valid()
      modifies this`email
      ensures Valid()
      ensures email == if status == Idle then e else old(email)
    {
      if status == Idle {
        email := e;
      }
    }

    /** The submit button on a render with props `config` and `attendees`,
        running that render's `handleProcess`: an unknown email ends the
        attempt in `error` without calling `onVerify`; a known one starts
        verification for the first matching record. The attempt keeps the
        props it was submitted with. */
    method Submit(config: EventConfig, attendees: seq<Attendee>)
      requires Valid()
      modifies this`status, this`message, this`current, this`config, this`attendees, this`foundEmails
      ensures Valid()
      ensures !old(CanSubmit()) ==>
        && status == old(status) && message == old(message) && current == old(current)
        && this.config == old(this.config) && this.attendees == old(this.attendees)
      ensures old(CanSubmit()) ==> this.config == config && this.attendees == attendees
      ensures old(CanSubmit()) ==> match Lookup(attendees, email)
        case None => status == Error && message == NotFound && current == old(current)
        case Some(i) => status == Verifying && message == old(message) && current == Some(attendees[i])
    {
      if !CanSubmit() {
        return;
      }
      var found := Lookup(attendees, email);
      Resolve(config, attendees, found);
    }

    /** The attempt takes its props, and the outcome of the lookup: the
        first matching record, if any. */
    method Resolve(config: EventConfig, attendees: seq<Attendee>, found: Option<nat>)
      requires Valid() && status == Idle
      requires found.Some? ==> found.value < |attendees|
      modifies this`status, this`message, this`current, this`foundEmails, this`config, this`attendees
      ensures Valid()
      ensures this.config == config && this.attendees == attendees
      ensures found.None? ==> status == Error && message == NotFound && current == old(current)
      ensures found.Some? ==>
        status == Verifying && message == old(message) && current == Some(attendees[found.value])
    {
      this.config, this.attendees := config, attendees;
      if found.None? {
        status := Error;
        message := NotFound;
        return;
      }
      var i := found.value;
      assert attendees[i] in attendees;
      status := Verifying;
      current := Some(attendees[i]);
      foundEmails := foundEmails + {attendees[i].email};
    }

    /** The geolocation callback, success or failure alike, entering
        `runAutomation`: `verifying` becomes `processing`. */
    method LocationSettled(geo: GeoOutcome)
      requires Valid()
      modifies this`status
      ensures Valid()
      ensures status == if old(status) == Verifying then Processing else old(status)
    {
      if status == Verifying {
        status := Processing;
      }
    }

    /** The rest of `runAutomation`. A failed composition ends in `error`
        without calling `onVerify`. Otherwise the note is prepared (with the
        canned fallback), a mail failure is swallowed, `onVerify(email, true)`
        is called once for the current attendee and the session succeeds. */
    method FinishAutomation(render: RenderOutcome, ai: AiReply, mail: MailOutcome)
      requires Valid()
      modifies this`status, this`message, this`certUrl, this`note, this`verifyLog
      ensures Valid()
      ensures old(status) != Processing ==>
        && status == old(status) && message == old(message) && certUrl == old(certUrl)
        && note == old(note) && verifyLog == old(verifyLog)
      ensures old(status) == Processing && RendersCertificate() && render.RenderFailed? ==>
        && status == Error && message == AutomationFailed && certUrl == old(certUrl)
        && note == old(note) && verifyLog == old(verifyLog)
      ensures old(status) == Processing && !(RendersCertificate() && render.RenderFailed?) ==>
        && status == Success
        && verifyLog == old(verifyLog) + [Verification(current.value.email, true)]
        && message == CheckedIn(current.value.email)
        && note == ThankYouNote(config.eventName, ai)
        && certUrl == (if RendersCertificate() then Some(render.dataUrl) else old(certUrl))
    {
      if status != Processing {
        return;
      }
      if RendersCertificate() && render.RenderFailed? {
        status, message := Error, AutomationFailed;
        return;
      }
      Compose(render, ai);
      // a failed dispatch is logged and ignored: `mail` does not matter
      Confirm();
    }

    /** The certificate image (when one is drawn) and the thank-you note. */
    method Compose(render: RenderOutcome, ai: AiReply)
      requires Valid()
      requires RendersCertificate() ==> render.Rendered?
      modifies this`certUrl, this`note
      ensures Valid()
      ensures note == ThankYouNote(config.eventName, ai)
      ensures certUrl == (if RendersCertificate() then Some(render.dataUrl) else old(certUrl))
    {
      if RendersCertificate() {
        certUrl := Some(render.dataUrl);
      }
      note := ThankYouNote(config.eventName, ai);
    }

    /** `onVerify(attendee.email, true)` and the success screen. */
    method Confirm()
      requires Valid() && status == Processing
      modifies this`status, this`message, this`verifyLog
      ensures Valid()
      ensures status == Success && message == CheckedIn(current.value.email)
      ensures verifyLog == old(verifyLog) + [Verification(current.value.email, true)]
    {
      var attendee := current.value;
      ghost var log := verifyLog;
      verifyLog := verifyLog + [Verification(attendee.email, true)];
      assert forall k :: 0 <= k < |log| ==> verifyLog[k] == log[k];
      status, message := Success, CheckedIn(attendee.email);
    }

    /** "Back" on success and "Try Again" on error return to `idle`; no other
        state has a way back. */
    method Reset()
      requires Valid()
      modifies this`status
      ensures Valid()
      ensures status == if old(status) == Success || old(status) == Error then Idle else old(status)
    {
      if status == Success || status == Error {
        status := Idle;
      }
    }
  }
}
