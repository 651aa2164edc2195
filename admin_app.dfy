/** components/App.tsx: the admin App variant. Its `markAttendance` checks
    for a match first, and the organizer's certificate sends go through the
    separate, case-sensitive `markCertificateSent`. */
module AdminApp {
  import opened Types
  import opened Registry
  import opened Registration
  import opened CertificateManager

  /** The configuration this variant starts with. */
  const DefaultConfig: EventConfig := EventConfig("Summer Tech Workshop 2024", 0.0, 0.0, 20.0, None)

  /** The registry after `onSent` has been called with each of `emails` in
      turn, as this variant routes it: `markCertificateSent(email)`. */
  function AfterSends(prev: seq<Attendee>, emails: seq<string>): (r: seq<Attendee>)
    ensures |r| == |prev|
    ensures forall i :: 0 <= i < |prev| ==> SameIdentity(r[i], prev[i])
    decreases |emails|
  {
    if emails == [] then prev else AfterSends(Registry.MarkCertificateSent(prev, emails[0]), emails[1..])
  }

  /** After a run of sends, a record has its certificate flagged exactly when
      its email is one of the emails, character for character; otherwise it
      is as before. */
  lemma {:induction false} AfterSendsPointwise(prev: seq<Attendee>, emails: seq<string>)
    decreases |emails|
    ensures |AfterSends(prev, emails)| == |prev|
    ensures forall i :: 0 <= i < |prev| ==>
      AfterSends(prev, emails)[i] == if prev[i].email in emails then prev[i].(certificateSent := true) else prev[i]
  {
    if emails != [] {
      var once := Registry.MarkCertificateSent(prev, emails[0]);
      AfterSendsPointwise(once, emails[1..]);
      forall i | 0 <= i < |prev|
        ensures AfterSends(prev, emails)[i] == if prev[i].email in emails then prev[i].(certificateSent := true) else prev[i]
      {
        assert once[i].email == prev[i].email;
        assert prev[i].email in emails <==> prev[i].email == emails[0] || prev[i].email in emails[1..];
      }
    }
  }

  /** A bulk send over the eligible list leaves no one eligible. */
  lemma BulkSendDrainsEligible(prev: seq<Attendee>)
    ensures Eligible(AfterSends(prev, Emails(Eligible(prev)))) == []
  {
    var el := Eligible(prev);
    var emails := Emails(el);
    var after := AfterSends(prev, emails);
    AfterSendsPointwise(prev, emails);
    forall i | 0 <= i < |after| ensures !IsEligible(after[i]) {
      if IsEligible(prev[i]) {
        assert prev[i] in prev;
        assert prev[i] in el;
        var k :| 0 <= k < |el| && el[k] == prev[i];
        assert emails[k] == prev[i].email;
        assert prev[i].email in emails;
        assert after[i] == prev[i].(certificateSent := true);
      }
    }
    Lists.FilterAllOrNone(IsEligible, after);
  }

  /** A bulk send touches only the records whose email is, exactly, that of
      an eligible record; those keep their scan and location flags. */
  lemma BulkSendTouchesOnlyEligibleEmails(prev: seq<Attendee>, i: nat)
    requires i < |prev|
    ensures var after := AfterSends(prev, Emails(Eligible(prev)));
      && |after| == |prev|
      && SameIdentity(after[i], prev[i])
      && after[i].qrScanned == prev[i].qrScanned && after[i].locationVerified == prev[i].locationVerified
      && ((forall a :: a in Eligible(prev) ==> a.email != prev[i].email) ==> after[i] == prev[i])
  {
    var el := Eligible(prev);
    AfterSendsPointwise(prev, Emails(el));
    if prev[i].email in Emails(el) {
      var k :| 0 <= k < |el| && Emails(el)[k] == prev[i].email;
      assert el[k] in el;
    }
  }

  /** On an eligible record addressed by its exact email, the organizer's
      send and the public check-in give the same record. */
  lemma PathsAgreeOnEligible(prev: seq<Attendee>, i: nat)
    requires i < |prev| && IsEligible(prev[i])
    ensures Registry.MarkCertificateSent(prev, prev[i].email)[i]
         == MarkAttendanceChecked(prev, prev[i].email, true)[i]
  {
    assert MatchesLower(prev[i], prev[i].email);
  }

  class App {
    var attendees: seq<Attendee>
    var config: EventConfig

    constructor ()
      ensures attendees == [] && config == DefaultConfig
    {
      attendees := [];
      config := DefaultConfig;
    }

    /** `addAttendees`: append the batch candidates that are new to the
        current registry. */
    method AddAttendees(batch: seq<Attendee>)
      modifies this`attendees
      ensures attendees == Merge(old(attendees), batch)
    {
      attendees := Merge(attendees, batch);
    }

    /** The Registration screen's import: parse the pasted text and hand the
        whole list to `addAttendees`. */
    method ImportRoster(text: string, idOf: nat -> string, stampOf: nat -> string)
      modifies this`attendees
      ensures attendees == Merge(old(attendees), ParseRoster(text, idOf, stampOf))
    {
      AddAttendees(ParseRoster(text, idOf, stampOf));
    }

    /** `markAttendance`, the public check-in's `onVerify`: keeps the list
        when no record matches. */
    method MarkAttendance(email: string, isVerified: bool)
      modifies this`attendees
      ensures attendees == MarkAttendanceChecked(old(attendees), email, isVerified)
      ensures !AnyMatch(old(attendees), email) ==> attendees == old(attendees)
    {
      attendees := MarkAttendanceChecked(attendees, email, isVerified);
    }

    /** `markCertificateSent`, the certificate manager's `onSent`. */
    method MarkCertificateSent(email: string)
      modifies this`attendees
      ensures attendees == Registry.MarkCertificateSent(old(attendees), email)
    {
      attendees := Registry.MarkCertificateSent(attendees, email);
    }

    /** "Send All Certificates" on the certificate screen, with this App's
        `onSent`: after it no one is eligible when a certificate can be drawn. */
    method SendAllCertificates(m: Manager, ai: nat -> AiReply)
      modifies this`attendees, m`sentLog, m`isProcessing
      ensures attendees == AfterSends(old(attendees),
        if m.CanRender() then Emails(Eligible(old(attendees))) else [])
      ensures m.CanRender() ==> Eligible(attendees) == []
      ensures m.sentLog == old(m.sentLog) + (if m.CanRender() then Emails(Eligible(old(attendees))) else [])
      ensures Eligible(old(attendees)) == [] ==> m.isProcessing == old(m.isProcessing)
      ensures Eligible(old(attendees)) != [] ==> !m.isProcessing
    {
      var before := |m.sentLog|;
      m.HandleBulkSend(attendees, ai);
      attendees := AfterSends(attendees, m.sentLog[before..]);
      if m.CanRender() {
        BulkSendDrainsEligible(old(attendees));
      }
    }
  }
}
