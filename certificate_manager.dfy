/** components/CertificateManager.tsx without its drawing: the eligibility
    filter, the sent count, the organizer's single and bulk send, and the
    guards on the send buttons. The `onSent` callback is recorded as the
    sequence of emails it receives; what the registry does with them is up to
    the App that supplies the callback (RootApp.AfterSends, AdminApp.AfterSends). */
module CertificateManager {
  import opened Types
  import opened Lists
  import opened Registry

  /** Scanned, located and not yet sent: ready for a certificate. */
  predicate IsEligible(a: Attendee) {
    a.qrScanned && a.locationVerified && !a.certificateSent
  }

  /** The certificate was sent; the "Sent Today" filter. */
  predicate IsSent(a: Attendee) { a.certificateSent }

  /** `eligibleAttendees`: the eligible records of the registry, in registry order. */
  function Eligible(attendees: seq<Attendee>): (r: seq<Attendee>)
    ensures forall a :: a in r <==> a in attendees && IsEligible(a)
    ensures |r| <= |attendees|
  {
    Filter(IsEligible, attendees)
  }

  /** The eligible list is an order-preserving selection of the registry. */
  lemma EligibleKeepsOrder(attendees: seq<Attendee>)
    ensures IsSubsequence(Eligible(attendees), attendees)
  {
    FilterIsSubsequence(IsEligible, attendees);
  }

  /** The eligible list keeps every eligible record as many times as the
      registry holds it, and no other record. */
  lemma EligibleMultiset(attendees: seq<Attendee>)
    ensures forall x :: multiset(Eligible(attendees))[x] == if IsEligible(x) then multiset(attendees)[x] else 0
  {
    FilterMultiset(IsEligible, attendees);
  }

  /** The "Sent Today" figure: how many records have their certificate sent. */
  function SentCount(attendees: seq<Attendee>): (n: nat)
    ensures n <= |attendees|
    ensures n == 0 <==> forall i :: 0 <= i < |attendees| ==> !attendees[i].certificateSent
  {
    var sent := Filter(IsSent, attendees);
    FilterAllOrNone(IsSent, attendees);
    assert forall i :: 0 <= i < |attendees| && attendees[i].certificateSent ==> attendees[i] in sent;
    |sent|
  }

  /** The sent count counts records one at a time: none in the empty list,
      and one more for each appended record whose certificate was sent. */
  lemma {:induction false} SentCountSnoc(s: seq<Attendee>, a: Attendee)
    ensures SentCount([]) == 0
    ensures SentCount(s + [a]) == SentCount(s) + (if a.certificateSent then 1 else 0)
  {
    FilterConcat(IsSent, s, [a]);
    assert [a][1..] == [];
  }

  class Manager {
    /** The uploaded template image, if any (`templateFile`). */
    var templateFile: Option<string>
    /** The hidden canvas is mounted (`canvasRef.current`). */
    const hasCanvas: bool
    /** The canvas yields a 2D drawing context (`getContext('2d')`). */
    const hasContext: bool
    /** A bulk send is running (`isProcessing`). */
    var isProcessing: bool
    /** The emails passed to `onSent`, in call order. */
    var sentLog: seq<string>

    constructor (hasCanvas: bool, hasContext: bool)
      ensures this.hasCanvas == hasCanvas && this.hasContext == hasContext
      ensures templateFile == None && !isProcessing && sentLog == []
    {
      this.hasCanvas := hasCanvas;
      this.hasContext := hasContext;
      templateFile := None;
      isProcessing := false;
      sentLog := [];
    }

    /** `templateFile` is truthy: a template was uploaded and its data URL is
        not the empty string. */
    predicate HasTemplate()
      reads this`templateFile
    {
      templateFile.Some? && templateFile.value != []
    }

    /** A certificate can be drawn: a template, a canvas and a context. */
    predicate CanRender()
      reads this`templateFile
    {
      HasTemplate() && hasCanvas && hasContext
    }

    /** "Send All Certificates" is enabled: a template, someone eligible and
        no send in progress. */
    predicate BulkSendEnabled(attendees: seq<Attendee>)
      reads this`templateFile, this`isProcessing
    {
      HasTemplate() && |Eligible(attendees)| > 0 && !isProcessing
    }

    /** "Send Individually" is enabled: a template and no send in progress. */
    predicate IndividualSendEnabled()
      reads this`templateFile, this`isProcessing
    {
      HasTemplate() && !isProcessing
    }

    /** The bulk button is enabled exactly when there is a template, no send
        is running and some record of the registry is eligible. */
    lemma BulkSendEnabledWhenSomeoneEligible(attendees: seq<Attendee>)
      ensures BulkSendEnabled(attendees) <==>
        HasTemplate() && !isProcessing && exists i :: 0 <= i < |attendees| && IsEligible(attendees[i])
    {
      var el := Eligible(attendees);
      if exists i :: 0 <= i < |attendees| && IsEligible(attendees[i]) {
        var i :| 0 <= i < |attendees| && IsEligible(attendees[i]);
        assert attendees[i] in el;
      }
      if |el| > 0 {
        assert el[0] in attendees;
      }
    }

    /** Uploading or removing the template. */
    method SetTemplate(t: Option<string>)
      modifies this`templateFile
      ensures templateFile == t
    {
      templateFile := t;
    }

    /** `generateAndSend`: without a template, canvas or context nothing
        happens; otherwise `onSent(attendee.email)` is called exactly once,
        whether the AI request answers or fails. */
    method GenerateAndSend(attendee: Attendee, ai: AiReply)
      modifies this`sentLog
      ensures sentLog == old(sentLog) + (if CanRender() then [attendee.email] else [])
    {
      if !HasTemplate() || !hasCanvas {
        return;
      }
      if !hasContext {
        return;
      }
      match ai {
        case AiText(_) =>
          sentLog := sentLog + [attendee.email];
        case AiFailed =>
          sentLog := sentLog + [attendee.email];
      }
    }

    /** `handleBulkSend`: nothing when no one is eligible; otherwise one
        `generateAndSend` per attendee of the eligible snapshot, strictly in
        order (the `i`-th AI request answers `ai(i)`), with `isProcessing`
        raised for the duration and lowered at the end. */
    method HandleBulkSend(attendees: seq<Attendee>, ai: nat -> AiReply)
      modifies this`sentLog, this`isProcessing
      ensures Eligible(attendees) == [] ==> sentLog == old(sentLog) && isProcessing == old(isProcessing)
      ensures Eligible(attendees) != [] ==> !isProcessing
      ensures sentLog == old(sentLog) + (if CanRender() then Emails(Eligible(attendees)) else [])
    {
      var snapshot := Eligible(attendees);
      if |snapshot| == 0 {
        return;
      }
      isProcessing := true;
      SendEach(snapshot, ai);
      isProcessing := false;
    }

    /** The loop of `handleBulkSend`: `generateAndSend` for each attendee of
        the snapshot in turn. */
    method SendEach(snapshot: seq<Attendee>, ai: nat -> AiReply)
      modifies this`sentLog
      ensures sentLog == old(sentLog) + (if CanRender() then Emails(snapshot) else [])
    {
      ghost var render, log0 := CanRender(), sentLog;
      var i := 0;
      while i < |snapshot|
        invariant 0 <= i <= |snapshot|
        invariant render ==> sentLog == log0 + Emails(snapshot[..i])
        invariant !render ==> sentLog == log0
      {
        GenerateAndSend(snapshot[i], ai(i));
        EmailsSnoc(snapshot, i);
        i := i + 1;
      }
      assert snapshot[..i] == snapshot;
    }
  }

  lemma EmailsSnoc(s: seq<Attendee>, i: nat)
    requires i < |s|
    ensures Emails(s[..i + 1]) == Emails(s[..i]) + [s[i].email]
  {
    var a, b := Emails(s[..i + 1]), Emails(s[..i]) + [s[i].email];
    assert |a| == |b|;
    forall k | 0 <= k < |a| ensures a[k] == b[k] {
      assert s[..i + 1][k] == s[k];
    }
  }
}
