/** components/Dashboard.tsx: the registered / verified / certificates-sent
    figures of the organizer's dashboard. */
module Dashboard {
  import opened Types
  import opened Lists
  import opened Registry
  import CertificateManager

  datatype Stats = Stats(registered: nat, verified: nat, certsSent: nat)

  predicate IsVerified(a: Attendee) { a.locationVerified }

  /** Dashboard.tsx:21 runs its own filter on `certificateSent` rather than
      reusing the certificate screen's count; this predicate mirrors that
      separate filter, and `Counts` proves it agrees with `CertificateManager.SentCount`. */
  predicate HasCertificate(a: Attendee) { a.certificateSent }

  /** The three figures: the list length, the located records and the
      records whose certificate was sent. Neither count exceeds the number of
      records, and the sent figure is the certificate screen's "Sent Today". */
  function Counts(attendees: seq<Attendee>): (c: Stats)
    ensures c.registered == |attendees|
    ensures c.verified <= c.registered && c.certsSent <= c.registered
    ensures c.certsSent == CertificateManager.SentCount(attendees)
  {
    FilterSamePredicate(HasCertificate, CertificateManager.IsSent, attendees);
    Stats(|attendees|, |Filter(IsVerified, attendees)|, |Filter(HasCertificate, attendees)|)
  }

  /** The figures count records one at a time: all zero for the empty list;
      an appended record adds one to `registered`, one to `verified` when it
      is located and one to `certsSent` when its certificate was sent. */
  lemma {:induction false} CountsSnoc(s: seq<Attendee>, a: Attendee)
    ensures Counts([]) == Stats(0, 0, 0)
    ensures Counts(s + [a]).registered == Counts(s).registered + 1
    ensures Counts(s + [a]).verified == Counts(s).verified + (if a.locationVerified then 1 else 0)
    ensures Counts(s + [a]).certsSent == Counts(s).certsSent + (if a.certificateSent then 1 else 0)
  {
    FilterConcat(IsVerified, s, [a]);
    FilterConcat(HasCertificate, s, [a]);
    assert [a][1..] == [];
  }

  /** Pointwise monotone `certificateSent` flags give a monotone sent count. */
  lemma SentCountMonotone(prev: seq<Attendee>, next: seq<Attendee>)
    requires |prev| <= |next|
    requires forall i :: 0 <= i < |prev| && prev[i].certificateSent ==> next[i].certificateSent
    ensures Counts(prev).certsSent <= Counts(next).certsSent
  {
    FilterLengthMonotone(HasCertificate, HasCertificate, prev, next[..|prev|]);
    assert next == next[..|prev|] + next[|prev|..];
    FilterConcat(HasCertificate, next[..|prev|], next[|prev|..]);
  }

  /** No registry operation lowers the registered or the sent figure. */
  lemma FiguresNeverDecrease(prev: seq<Attendee>, batch: seq<Attendee>, email: string, isVerified: bool)
    ensures Counts(prev).registered <= Counts(Merge(prev, batch)).registered
    ensures Counts(prev).certsSent <= Counts(Merge(prev, batch)).certsSent
    ensures Counts(prev).certsSent <= Counts(Registry.MarkAttendance(prev, email, isVerified)).certsSent
    ensures Counts(prev).certsSent <= Counts(MarkAttendanceChecked(prev, email, isVerified)).certsSent
    ensures Counts(prev).certsSent <= Counts(Registry.MarkCertificateSent(prev, email)).certsSent
  {
    CertificateSentMonotone(prev, batch, email, isVerified);
    SentCountMonotone(prev, Merge(prev, batch));
    SentCountMonotone(prev, Registry.MarkAttendance(prev, email, isVerified));
    SentCountMonotone(prev, MarkAttendanceChecked(prev, email, isVerified));
    SentCountMonotone(prev, Registry.MarkCertificateSent(prev, email));
  }
}
