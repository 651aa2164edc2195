/** The attendee list transforms shared by the two App variants (App.tsx and
    components/App.tsx): roster merge, the case-insensitive attendance
    transition and the case-sensitive certificate flag. Each is a pure function
    of the previous list, which the App classes assign back to their state. */
module Registry {
  import opened Types
  import opened Text
  import opened Lists

  /** The lower-cased emails already in the registry (`existingEmails`). */
  function EmailKeys(prev: seq<Attendee>): set<string> {
    set a | a in prev :: Lower(a.email)
  }

  /** A batch candidate survives the merge filter when its lower-cased email
      is not among the keys of `prev`; the batch itself is not consulted. */
  predicate IsNew(prev: seq<Attendee>, c: Attendee) {
    Lower(c.email) !in EmailKeys(prev)
  }

  /** `addAttendees`: `prev` followed by the batch candidates whose lower-cased
      email is not in `prev`, in batch order. */
  function Merge(prev: seq<Attendee>, batch: seq<Attendee>): (r: seq<Attendee>)
    ensures |prev| <= |r| <= |prev| + |batch|
    ensures r[..|prev|] == prev
    ensures forall c :: c in r[|prev|..] <==> c in batch && IsNew(prev, c)
  {
    prev + Filter((c: Attendee) => IsNew(prev, c), batch)
  }

  /** The appended part of a merge keeps the batch order. */
  lemma MergeKeepsBatchOrder(prev: seq<Attendee>, batch: seq<Attendee>)
    ensures IsSubsequence(Merge(prev, batch)[|prev|..], batch)
  {
    var f := (c: Attendee) => IsNew(prev, c);
    assert Merge(prev, batch)[|prev|..] == Filter(f, batch);
    FilterIsSubsequence(f, batch);
  }

  /** The appended part of a merge keeps every new candidate as many times as
      the batch holds it, and no other candidate. */
  lemma MergeMultiset(prev: seq<Attendee>, batch: seq<Attendee>)
    ensures forall x ::
              multiset(Merge(prev, batch)[|prev|..])[x] == if IsNew(prev, x) then multiset(batch)[x] else 0
  {
    var f := (c: Attendee) => IsNew(prev, c);
    assert Merge(prev, batch)[|prev|..] == Filter(f, batch);
    FilterMultiset(f, batch);
  }

  /** Every lower-cased email of the batch is a key of the merged registry. */
  lemma MergeCoversBatch(prev: seq<Attendee>, batch: seq<Attendee>)
    ensures forall c :: c in batch ==> Lower(c.email) in EmailKeys(Merge(prev, batch))
  {
    var m := Merge(prev, batch);
    forall c | c in batch ensures Lower(c.email) in EmailKeys(m) {
      if IsNew(prev, c) {
        assert c in m[|prev|..];
        assert c in m;
      } else {
        var a :| a in prev && Lower(a.email) == Lower(c.email);
        assert m[..|prev|] == prev;
        assert a in m;
      }
    }
  }

  /** Importing the same batch a second time adds nothing. */
  lemma MergeIdempotent(prev: seq<Attendee>, batch: seq<Attendee>)
    ensures Merge(Merge(prev, batch), batch) == Merge(prev, batch)
  {
    var m := Merge(prev, batch);
    MergeCoversBatch(prev, batch);
    var f := (c: Attendee) => IsNew(m, c);
    FilterAllOrNone(f, batch);
    assert Filter(f, batch) == [];
    assert m + [] == m;
  }

  /** No two records of `s` share a lower-cased email. */
  predicate UniqueKeys(s: seq<Attendee>) {
    forall i, j :: 0 <= i < j < |s| ==> Lower(s[i].email) != Lower(s[j].email)
  }

  /** A merge keeps the registry free of duplicate emails as long as the
      batch has none among its own candidates. */
  lemma {:induction false} MergePreservesUniqueKeys(prev: seq<Attendee>, batch: seq<Attendee>)
    requires UniqueKeys(prev) && UniqueKeys(batch)
    ensures UniqueKeys(Merge(prev, batch))
  {
    var f := (c: Attendee) => IsNew(prev, c);
    UniqueFilter(f, prev, batch);
  }

  lemma {:induction false} UniqueFilter(f: Attendee -> bool, prev: seq<Attendee>, batch: seq<Attendee>)
    requires UniqueKeys(prev) && UniqueKeys(batch)
    requires forall c :: f(c) == IsNew(prev, c)
    ensures UniqueKeys(prev + Filter(f, batch))
  {
    if batch != [] {
      var c, rest := batch[0], batch[1..];
      UniqueTail(batch);
      UniqueFilter(f, prev, rest);
      var tail := Filter(f, rest);
      if f(c) {
        assert Filter(f, batch) == [c] + tail;
        NewKeyDiffers(prev, c);
        FilterAvoids(f, rest, c);
        UniqueInsert(prev, c, tail);
        assert prev + Filter(f, batch) == prev + [c] + tail;
      } else {
        assert Filter(f, batch) == tail;
      }
    }
  }

  /** Dropping the head of a duplicate-free list keeps it duplicate-free, and
      the head's key is not among the rest. */
  lemma UniqueTail(batch: seq<Attendee>)
    requires UniqueKeys(batch) && batch != []
    ensures UniqueKeys(batch[1..])
    ensures forall i :: 0 <= i < |batch[1..]| ==> Lower(batch[1..][i].email) != Lower(batch[0].email)
  {
    var rest := batch[1..];
    assert forall i :: 0 <= i < |rest| ==> rest[i] == batch[i + 1];
  }

  /** A candidate that passes the merge filter differs in key from every
      record already present. */
  lemma NewKeyDiffers(prev: seq<Attendee>, c: Attendee)
    requires IsNew(prev, c)
    ensures forall i :: 0 <= i < |prev| ==> Lower(prev[i].email) != Lower(c.email)
  {
    forall i | 0 <= i < |prev| ensures Lower(prev[i].email) != Lower(c.email) {
      assert Lower(prev[i].email) in EmailKeys(prev);
    }
  }

  /** A key absent from a list is absent from any filtering of it. */
  lemma FilterAvoids(f: Attendee -> bool, rest: seq<Attendee>, c: Attendee)
    requires forall i :: 0 <= i < |rest| ==> Lower(rest[i].email) != Lower(c.email)
    ensures forall i :: 0 <= i < |Filter(f, rest)| ==> Lower(Filter(f, rest)[i].email) != Lower(c.email)
  {
    var tail := Filter(f, rest);
    forall i | 0 <= i < |tail| ensures Lower(tail[i].email) != Lower(c.email) {
      assert tail[i] in rest;
    }
  }

  /** A record whose key differs from every other key can be placed between
      two parts of a duplicate-free list. */
  lemma UniqueInsert(prev: seq<Attendee>, c: Attendee, tail: seq<Attendee>)
    requires UniqueKeys(prev + tail)
    requires forall i :: 0 <= i < |prev| ==> Lower(prev[i].email) != Lower(c.email)
    requires forall i :: 0 <= i < |tail| ==> Lower(tail[i].email) != Lower(c.email)
    ensures UniqueKeys(prev + [c] + tail)
  {
    var r, s := prev + [c] + tail, prev + tail;
    var n := |prev|;
    assert forall i :: 0 <= i < n ==> r[i] == s[i] == prev[i];
    assert r[n] == c;
    assert forall i :: n < i < |r| ==> r[i] == s[i - 1] == tail[i - n - 1];
  }

  /** The import defect kept from the source: two batch candidates sharing a
      lower-cased email that `prev` does not have are both appended, so the
      registry then holds a duplicate email. */
  lemma BatchDuplicatesBothAppended(prev: seq<Attendee>, c1: Attendee, c2: Attendee)
    requires IsNew(prev, c1) && Lower(c1.email) == Lower(c2.email)
    ensures Merge(prev, [c1, c2]) == prev + [c1, c2]
    ensures !UniqueKeys(Merge(prev, [c1, c2]))
  {
    var f := (c: Attendee) => IsNew(prev, c);
    assert [c1, c2][1..] == [c2] && [c2][1..] == [];
    assert Filter(f, [c1, c2]) == [c1, c2];
    var m := prev + [c1, c2];
    assert m[|prev|] == c1 && m[|prev| + 1] == c2;
  }

  /** Case-insensitive email match (`a.email.toLowerCase() === email.toLowerCase()`). */
  predicate MatchesLower(a: Attendee, email: string) {
    Lower(a.email) == Lower(email)
  }

  /** The attended record: scanned, located as given and certificate sent. */
  function Attended(a: Attendee, isVerified: bool): (r: Attendee)
    ensures SameIdentity(r, a)
    ensures r.qrScanned && r.locationVerified == isVerified && r.certificateSent
  {
    a.(qrScanned := true, locationVerified := isVerified, certificateSent := true)
  }

  /** `markAttendance` of App.tsx: every record whose lower-cased email equals
      that of `email` becomes attended; every other record is kept. */
  function MarkAttendance(prev: seq<Attendee>, email: string, isVerified: bool): (r: seq<Attendee>)
    ensures |r| == |prev|
    ensures forall i :: 0 <= i < |prev| && !MatchesLower(prev[i], email) ==> r[i] == prev[i]
    ensures forall i :: 0 <= i < |prev| && MatchesLower(prev[i], email) ==>
      SameIdentity(r[i], prev[i]) && r[i].qrScanned && r[i].locationVerified == isVerified && r[i].certificateSent
  {
    seq(|prev|, i requires 0 <= i < |prev| =>
      if MatchesLower(prev[i], email) then Attended(prev[i], isVerified) else prev[i])
  }

  /** A mark whose email matches no record leaves the list as it was. */
  lemma MarkAttendanceNoMatch(prev: seq<Attendee>, email: string, isVerified: bool)
    requires forall i :: 0 <= i < |prev| ==> !MatchesLower(prev[i], email)
    ensures MarkAttendance(prev, email, isVerified) == prev
  {
  }

  /** Marking twice with the same arguments is marking once. */
  lemma MarkAttendanceIdempotent(prev: seq<Attendee>, email: string, isVerified: bool)
    ensures MarkAttendance(MarkAttendance(prev, email, isVerified), email, isVerified)
         == MarkAttendance(prev, email, isVerified)
  {
    var once := MarkAttendance(prev, email, isVerified);
    var twice := MarkAttendance(once, email, isVerified);
    forall i | 0 <= i < |prev| ensures twice[i] == once[i] {
      assert once[i].email == prev[i].email;
    }
  }

  /** Some record matches `email` case-insensitively (`prev.some(...)`). */
  predicate AnyMatch(prev: seq<Attendee>, email: string) {
    exists i :: 0 <= i < |prev| && MatchesLower(prev[i], email)
  }

  /** `markAttendance` of components/App.tsx: `prev` itself when nothing
      matches, the attendance transition otherwise. */
  function MarkAttendanceChecked(prev: seq<Attendee>, email: string, isVerified: bool): (r: seq<Attendee>)
    ensures !AnyMatch(prev, email) ==> r == prev
    ensures AnyMatch(prev, email) ==> r == MarkAttendance(prev, email, isVerified)
  {
    if AnyMatch(prev, email) then MarkAttendance(prev, email, isVerified) else prev
  }

  /** The existence check of components/App.tsx does not change the resulting
      list: both variants of `markAttendance` agree on every input. */
  lemma MarkAttendanceVariantsAgree(prev: seq<Attendee>, email: string, isVerified: bool)
    ensures MarkAttendanceChecked(prev, email, isVerified) == MarkAttendance(prev, email, isVerified)
  {
    if !AnyMatch(prev, email) {
      MarkAttendanceNoMatch(prev, email, isVerified);
    }
  }

  /** `markCertificateSent`: the records whose email equals `email` exactly
      get `certificateSent` and nothing else; all others are kept. */
  function MarkCertificateSent(prev: seq<Attendee>, email: string): (r: seq<Attendee>)
    ensures |r| == |prev|
    ensures forall i :: 0 <= i < |prev| && prev[i].email != email ==> r[i] == prev[i]
    ensures forall i :: 0 <= i < |prev| && prev[i].email == email ==>
      SameIdentity(r[i], prev[i]) && r[i].certificateSent
      && r[i].qrScanned == prev[i].qrScanned && r[i].locationVerified == prev[i].locationVerified
  {
    seq(|prev|, i requires 0 <= i < |prev| =>
      if prev[i].email == email then prev[i].(certificateSent := true) else prev[i])
  }

  /** Matching in `markCertificateSent` is case-sensitive: a record whose email
      differs from the argument only in case is flagged by `markAttendance`
      but left alone by `markCertificateSent`. */
  lemma CertificateMatchIsCaseSensitive(prev: seq<Attendee>, i: nat, email: string)
    requires i < |prev| && prev[i].email != email && MatchesLower(prev[i], email)
    requires !prev[i].certificateSent
    ensures MarkCertificateSent(prev, email)[i] == prev[i]
    ensures MarkAttendance(prev, email, true)[i] != prev[i]
  {
  }

  /** No operation ever turns `certificateSent` from true back to false. */
  lemma CertificateSentMonotone(prev: seq<Attendee>, batch: seq<Attendee>, email: string, isVerified: bool)
    ensures forall i :: 0 <= i < |prev| && prev[i].certificateSent ==>
      && Merge(prev, batch)[i].certificateSent
      && MarkAttendance(prev, email, isVerified)[i].certificateSent
      && MarkAttendanceChecked(prev, email, isVerified)[i].certificateSent
      && MarkCertificateSent(prev, email)[i].certificateSent
  {
  }

  /** The emails of a list, in order (the `email` passed to each `onSent`). */
  function Emails(s: seq<Attendee>): (r: seq<string>)
    ensures |r| == |s|
    ensures forall i :: 0 <= i < |s| ==> r[i] == s[i].email
  {
    if s == [] then [] else [s[0].email] + Emails(s[1..])
  }
}
