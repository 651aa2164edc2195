/** App.tsx: the registry state of the root App and its handlers. The
    organizer's certificate sends go through the same `markAttendance(email, true)`
    as the public check-in. Every handler replaces `attendees` with a pure
    function of the previous list. */
module RootApp {
  import opened Types
  import opened Text
  import opened Registry
  import opened Registration
  import opened CertificateManager
  import PublicCheckIn

  /** The storage key whose change events replace the attendee list. */
  const AttendeesKey: string := "certiflow_attendees"

  /** The configuration the App starts with. */
  const DefaultConfig: EventConfig := EventConfig("My Tech Event", 0.0, 0.0, 50.0, None)

  /** Some email of `emails` matches `a` case-insensitively. */
  predicate SentTo(a: Attendee, emails: seq<string>) {
    emails != [] && (MatchesLower(a, emails[0]) || SentTo(a, emails[1..]))
  }

  /** The registry after `onSent` has been called with each of `emails` in
      turn, as App.tsx routes it: `markAttendance(email, true)`. */
  function AfterSends(prev: seq<Attendee>, emails: seq<string>): (r: seq<Attendee>)
    ensures |r| == |prev|
    ensures forall i :: 0 <= i < |prev| ==> SameIdentity(r[i], prev[i])
    decreases |emails|
  {
    if emails == [] then prev else AfterSends(Registry.MarkAttendance(prev, emails[0], true), emails[1..])
  }

  /** After a run of sends, a record is attended exactly when one of the
      emails matched it case-insensitively; otherwise it is as before. */
  lemma {:induction false} AfterSendsPointwise(prev: seq<Attendee>, emails: seq<string>)
    decreases |emails|
    ensures |AfterSends(prev, emails)| == |prev|
    ensures forall i :: 0 <= i < |prev| ==>
      AfterSends(prev, emails)[i] == if SentTo(prev[i], emails) then Attended(prev[i], true) else prev[i]
  {
    if emails != [] {
      var once := Registry.MarkAttendance(prev, emails[0], true);
      AfterSendsPointwise(once, emails[1..]);
      forall i | 0 <= i < |prev|
        ensures AfterSends(prev, emails)[i] == if SentTo(prev[i], emails) then Attended(prev[i], true) else prev[i]
      {
        assert once[i].email == prev[i].email;
        if MatchesLower(prev[i], emails[0]) {
          assert Attended(once[i], true) == once[i];
        }
      }
    }
  }

  /** Every record of `s` is matched by the list of emails of `s`. */
  lemma {:induction false} SentToOwnEmail(a: Attendee, s: seq<Attendee>)
    requires a in s
    ensures SentTo(a, Emails(s))
  {
    if s[0] != a {
      SentToOwnEmail(a, s[1..]);
      assert Emails(s)[1..] == Emails(s[1..]);
    }
  }

  /** A bulk send over the eligible list leaves no one eligible. */
  lemma BulkSendDrainsEligible(prev: seq<Attendee>)
    ensures Eligible(AfterSends(prev, Emails(Eligible(prev)))) == []
  {
    var emails := Emails(Eligible(prev));
    var after := AfterSends(prev, emails);
    AfterSendsPointwise(prev, emails);
    forall i | 0 <= i < |after| ensures !IsEligible(after[i]) {
      if IsEligible(prev[i]) {
        SentToOwnEmail(prev[i], Eligible(prev));
      }
    }
    Lists.FilterAllOrNone(IsEligible, after);
  }

  /** The organizer's send and the public check-in reach the same registry:
      both are `markAttendance(email, true)`. */
  lemma OrganizerAndCheckInConverge(prev: seq<Attendee>, email: string)
    ensures AfterSends(prev, [email]) == Registry.MarkAttendance(prev, email, true)
  {
    assert [email][1..] == [];
  }

  /** The public check-in confirms the stored email of the record it found,
      so `markAttendance` attends that record and every other record sharing
      its case-insensitive key, and none of them is left eligible. */
  lemma CheckInMarksFoundRecord(prev: seq<Attendee>, typed: string)
    requires PublicCheckIn.Lookup(prev, typed).Some?
    ensures var i := PublicCheckIn.Lookup(prev, typed).value;
      var next := Registry.MarkAttendance(prev, prev[i].email, true);
      && next[i] == Attended(prev[i], true)
      && forall j :: 0 <= j < |prev| && MatchesLower(prev[j], Trim(typed)) ==>
           next[j] == Attended(prev[j], true) && !IsEligible(next[j])
  {
    var i := PublicCheckIn.Lookup(prev, typed).value;
    var next := Registry.MarkAttendance(prev, prev[i].email, true);
    assert MatchesLower(prev[i], prev[i].email);
    forall j | 0 <= j < |prev| && MatchesLower(prev[j], Trim(typed))
      ensures next[j] == Attended(prev[j], true)
    {
      assert MatchesLower(prev[j], prev[i].email);
    }
  }

  class App {
    var attendees: seq<Attendee>
    var config: EventConfig

    constructor ()
      ensures attendees == [] && config == DefaultConfig
    {
      attendees := [];
      config := DefaultConfig;
    }

    /** `addAttendees`: append the batch candidates that are new to the
        current registry. */
    method AddAttendees(batch: seq<Attendee>)
      modifies this`attendees
      ensures attendees == Merge(old(attendees), batch)
    {
      attendees := Merge(attendees, batch);
    }

    /** The Registration screen's import: parse the pasted text and hand the
        whole list to `addAttendees`. */
    method ImportRoster(text: string, idOf: nat -> string, stampOf: nat -> string)
      modifies this`attendees
      ensures attendees == Merge(old(attendees), ParseRoster(text, idOf, stampOf))
    {
      AddAttendees(ParseRoster(text, idOf, stampOf));
    }

    /** `markAttendance`, the public check-in's `onVerify`. */
    method MarkAttendance(email: string, isVerified: bool)
      modifies this`attendees
      ensures attendees == Registry.MarkAttendance(old(attendees), email, isVerified)
    {
      attendees := Registry.MarkAttendance(attendees, email, isVerified);
    }

    /** The certificate manager's `onSent`. */
    method OnSent(email: string)
      modifies this`attendees
      ensures attendees == Registry.MarkAttendance(old(attendees), email, true)
    {
      MarkAttendance(email, true);
    }

    /** `handleSync`: a storage change of the attendee key with a value
        replaces the whole list; any other event changes nothing. */
    method HandleSync(key: Option<string>, newValue: Option<seq<Attendee>>)
      modifies this`attendees
      ensures key == Some(AttendeesKey) && newValue.Some? ==> attendees == newValue.value
      ensures !(key == Some(AttendeesKey) && newValue.Some?) ==> attendees == old(attendees)
    {
      if key == Some(AttendeesKey) && newValue.Some? {
        attendees := newValue.value;
      }
    }

    /** "Send All Certificates" on the certificate screen, with this App's
        `onSent`: after it no one is eligible when a certificate can be drawn. */
    method SendAllCertificates(m: Manager, ai: nat -> AiReply)
      modifies this`attendees, m`sentLog, m`isProcessing
      ensures attendees == AfterSends(old(attendees),
        if m.CanRender() then Emails(Eligible(old(attendees))) else [])
      ensures m.CanRender() ==> Eligible(attendees) == []
      ensures m.sentLog == old(m.sentLog) + (if m.CanRender() then Emails(Eligible(old(attendees))) else [])
      ensures Eligible(old(attendees)) == [] ==> m.isProcessing == old(m.isProcessing)
      ensures Eligible(old(attendees)) != [] ==> !m.isProcessing
    {
      var before := |m.sentLog|;
      m.HandleBulkSend(attendees, ai);
      attendees := AfterSends(attendees, m.sentLog[before..]);
      if m.CanRender() {
        BulkSendDrainsEligible(old(attendees));
      }
    }
  }
}
