/** The roster import of components/Registration.tsx: pasted "Name, Email"
    text (comma- or tab-separated, one attendee per line) becomes fresh
    attendee records. Random ids and creation times are parameters. */
module Registration {
  import opened Types
  import opened Text
  import opened Lists

  const DefaultName: string := "Attendee"
  const DefaultEmail: string := "no-email@example.com"

  /** A line that is not white space only, that is, whose trim is not empty
      (`ContentLineTrim`). */
  predicate IsContentLine(l: string) { !Blank(l) }

  lemma ContentLineTrim(l: string)
    ensures IsContentLine(l) <==> Trim(l) != []
  {
  }

  /** The lines of the pasted text that survive the blank-line filter, in order. */
  function Lines(text: string): (ls: seq<string>)
    ensures forall k :: 0 <= k < |ls| ==> IsContentLine(ls[k]) && '\n' !in ls[k]
    ensures forall l :: l in ls <==> l in Split(text, '\n') && IsContentLine(l)
    ensures forall l :: multiset(ls)[l] == if IsContentLine(l) then multiset(Split(text, '\n'))[l] else 0
  {
    FilterMultiset(IsContentLine, Split(text, '\n'));
    Filter(IsContentLine, Split(text, '\n'))
  }

  /** The content lines keep the order they have in the text. */
  lemma LinesKeepOrder(text: string)
    ensures IsSubsequence(Lines(text), Split(text, '\n'))
  {
    FilterIsSubsequence(IsContentLine, Split(text, '\n'));
  }

  /** The fields of one line: split on ',', and only when that gives fewer than
      two pieces, on '\t' instead. */
  function Fields(line: string): (parts: seq<string>)
    ensures |parts| >= 1
    ensures ',' in line ==> parts == Split(line, ',') && |parts| >= 2
    ensures ',' !in line ==> parts == Split(line, '\t')
  {
    SplitPieces(line, ',');
    var parts := Split(line, ',');
    if |parts| < 2 then Split(line, '\t') else parts
  }

  /** The record built from one line: trimmed first field as name (or the
      default name), trimmed second field as email (or the default email),
      registered and not yet verified. */
  function ParseLine(line: string, id: string, stamp: string): (a: Attendee)
    ensures a.id == id && a.timestamp == Some(stamp)
    ensures a.formFilled && !a.qrScanned && !a.locationVerified && !a.certificateSent
    ensures a.name != [] && a.email != []
  {
    var parts := Fields(line);
    var name := if Trim(parts[0]) != [] then Trim(parts[0]) else DefaultName;
    var email := if |parts| >= 2 && Trim(parts[1]) != [] then Trim(parts[1]) else DefaultEmail;
    Attendee(id, name, email, true, false, false, false, Some(stamp))
  }

  /** The records built from the content lines, one per line in order;
      record `i` gets id `idOf(i)` and timestamp `stampOf(i)`. */
  function Records(ls: seq<string>, idOf: nat -> string, stampOf: nat -> string): (r: seq<Attendee>)
    ensures |r| == |ls|
    ensures forall i :: 0 <= i < |r| ==> r[i] == ParseLine(ls[i], idOf(i), stampOf(i))
  {
    seq(|ls|, i requires 0 <= i < |ls| => ParseLine(ls[i], idOf(i), stampOf(i)))
  }

  /** `handleImport`'s parse: one record per content line of the text, every
      one registered and not yet verified. The whole list is what goes to
      `onAddAttendees` in one call. */
  function ParseRoster(text: string, idOf: nat -> string, stampOf: nat -> string): (r: seq<Attendee>)
    ensures |r| == |Lines(text)|
    ensures forall i :: 0 <= i < |r| ==> r[i] == ParseLine(Lines(text)[i], idOf(i), stampOf(i))
    ensures forall i :: 0 <= i < |r| ==>
      r[i].formFilled && !r[i].qrScanned && !r[i].locationVerified && !r[i].certificateSent
  {
    Records(Lines(text), idOf, stampOf)
  }

  /** A line joined from at least two comma-free fields has those fields. */
  lemma CommaFields(line: string, parts: seq<string>)
    requires |parts| >= 2 && line == Join(parts, ',')
    requires forall k :: 0 <= k < |parts| ==> ',' !in parts[k]
    ensures Fields(line) == parts
  {
    SplitJoin(parts, ',');
    SplitPieces(line, ',');
  }

  /** A comma-separated line `name,email[,more...]` yields the trimmed name and
      email (or their defaults when blank); the fields after the second are
      ignored. */
  lemma CommaLine(name: string, email: string, more: seq<string>, id: string, stamp: string)
    requires ',' !in name && ',' !in email
    requires forall k :: 0 <= k < |more| ==> ',' !in more[k]
    ensures var a := ParseLine(Join([name, email] + more, ','), id, stamp);
      && a.name == (if Trim(name) != [] then Trim(name) else DefaultName)
      && a.email == (if Trim(email) != [] then Trim(email) else DefaultEmail)
  {
    var parts := [name, email] + more;
    CommaFreeFields(name, email, more);
    var line := Join(parts, ',');
    CommaFields(line, parts);
    FieldsDecide(line, parts, id, stamp);
  }

  lemma CommaFreeFields(name: string, email: string, more: seq<string>)
    requires ',' !in name && ',' !in email
    requires forall k :: 0 <= k < |more| ==> ',' !in more[k]
    ensures var parts := [name, email] + more; forall k :: 0 <= k < |parts| ==> ',' !in parts[k]
  {
    var parts := [name, email] + more;
    assert forall k :: 2 <= k < |parts| ==> parts[k] == more[k - 2];
  }

  /** The name and email of a record are decided by the first two fields. */
  lemma FieldsDecide(line: string, parts: seq<string>, id: string, stamp: string)
    requires |parts| >= 2 && Fields(line) == parts
    ensures ParseLine(line, id, stamp).name == (if Trim(parts[0]) != [] then Trim(parts[0]) else DefaultName)
    ensures ParseLine(line, id, stamp).email == (if Trim(parts[1]) != [] then Trim(parts[1]) else DefaultEmail)
  {
  }

  /** A line without a comma but with a tab is read as `name<TAB>email`. */
  lemma TabLine(name: string, email: string, id: string, stamp: string)
    requires ',' !in name && ',' !in email && '\t' !in name && '\t' !in email
    ensures var a := ParseLine(name + "\t" + email, id, stamp);
      && a.name == (if Trim(name) != [] then Trim(name) else DefaultName)
      && a.email == (if Trim(email) != [] then Trim(email) else DefaultEmail)
  {
    var line := name + "\t" + email;
    assert Join([name, email], '\t') == line;
    SplitJoin([name, email], '\t');
    assert forall k :: 0 <= k < |line| ==> line[k] == (if k < |name| then name[k] else if k == |name| then '\t' else email[k - |name| - 1]);
    assert ',' !in line;
  }

  /** A line with neither separator is a name alone; the email is the default. */
  lemma NameOnlyLine(line: string, id: string, stamp: string)
    requires ',' !in line && '\t' !in line
    ensures ParseLine(line, id, stamp).email == DefaultEmail
    ensures ParseLine(line, id, stamp).name == (if Trim(line) != [] then Trim(line) else DefaultName)
  {
    SplitPieces(line, '\t');
  }

  /** Text that is white space only imports nothing. */
  lemma BlankTextImportsNothing(text: string, idOf: nat -> string, stampOf: nat -> string)
    requires forall k :: 0 <= k < |text| ==> IsSpace(text[k])
    ensures ParseRoster(text, idOf, stampOf) == []
  {
    var parts := Split(text, '\n');
    JoinSplit(text, '\n');
    forall l | l in parts ensures !IsContentLine(l) {
      BlankPieces(parts, '\n', l);
    }
    FilterAllOrNone(IsContentLine, parts);
  }

  /** Every character of a piece of a join is a character of the join. */
  lemma {:induction false} BlankPieces(parts: seq<string>, sep: char, l: string)
    requires |parts| >= 1 && l in parts
    requires forall k :: 0 <= k < |Join(parts, sep)| ==> IsSpace(Join(parts, sep)[k])
    ensures forall k :: 0 <= k < |l| ==> IsSpace(l[k])
  {
    var j := Join(parts, sep);
    if |parts| > 1 {
      var rest := Join(parts[1..], sep);
      assert j == parts[0] + [sep] + rest;
      assert forall k :: 0 <= k < |parts[0]| ==> parts[0][k] == j[k];
      assert forall k :: 0 <= k < |rest| ==> rest[k] == j[k + |parts[0]| + 1];
      if l != parts[0] {
        assert l in parts[1..];
        BlankPieces(parts[1..], sep, l);
      }
    }
  }

  /** Two content lines joined by a newline are read as exactly those lines. */
  lemma TwoLines(l1: string, l2: string)
    requires '\n' !in l1 && '\n' !in l2 && IsContentLine(l1) && IsContentLine(l2)
    ensures Lines(l1 + "\n" + l2) == [l1, l2]
  {
    var parts := [l1, l2];
    SplitTwo(l1, l2, '\n');
    assert forall i :: 0 <= i < |parts| ==> IsContentLine(parts[i]);
    FilterAllOrNone(IsContentLine, parts);
    assert Lines(l1 + "\n" + l2) == Filter(IsContentLine, parts);
  }

  /** Two separator-free pieces with one separator between them split back
      into those two pieces. */
  lemma SplitTwo(a: string, b: string, sep: char)
    requires sep !in a && sep !in b
    ensures Split(a + [sep] + b, sep) == [a, b]
  {
    assert [a, b][1..] == [b];
    assert Join([a, b], sep) == a + [sep] + b;
    SplitJoin([a, b], sep);
  }

  /** A line `name,email` with both fields already trimmed and non-empty
      yields exactly that name and email. */
  lemma PlainCommaLine(name: string, email: string, id: string, stamp: string)
    requires ',' !in name && ',' !in email
    requires Trim(name) == name != [] && Trim(email) == email != []
    ensures ParseLine(name + "," + email, id, stamp).name == name
    ensures ParseLine(name + "," + email, id, stamp).email == email
  {
    assert Join([name, email] + [], ',') == name + "," + email;
    CommaLine(name, email, [], id, stamp);
  }

  /** A field with no separator or newline, already trimmed and non-empty. */
  predicate PlainField(f: string) {
    ',' !in f && '\t' !in f && '\n' !in f && f != [] && Trim(f) == f
  }

  /** A two-line roster `n1,e1` / `n2,e2` of plain fields gives two
      registered, unverified records with those names and emails, in that
      order (for instance "Alice,alice@x.com" / "Bob,bob@x.com"). */
  lemma TwoLineRoster(n1: string, e1: string, n2: string, e2: string, idOf: nat -> string, stampOf: nat -> string)
    requires PlainField(n1) && PlainField(e1) && PlainField(n2) && PlainField(e2)
    ensures var r := ParseRoster(n1 + "," + e1 + "\n" + n2 + "," + e2, idOf, stampOf);
      && |r| == 2
      && r[0].name == n1 && r[0].email == e1
      && r[1].name == n2 && r[1].email == e2
      && forall i :: 0 <= i < 2 ==> !r[i].qrScanned && !r[i].locationVerified && !r[i].certificateSent
  {
    var l1, l2 := n1 + "," + e1, n2 + "," + e2;
    var text := n1 + "," + e1 + "\n" + n2 + "," + e2;
    ContentLine(n1, e1);
    ContentLine(n2, e2);
    assert text == l1 + "\n" + l2;
    TwoLines(l1, l2);
    var r := ParseRoster(text, idOf, stampOf);
    assert r == Records([l1, l2], idOf, stampOf);
    PlainCommaLine(n1, e1, idOf(0), stampOf(0));
    PlainCommaLine(n2, e2, idOf(1), stampOf(1));
    assert r[0] == ParseLine(l1, idOf(0), stampOf(0));
    assert r[1] == ParseLine(l2, idOf(1), stampOf(1));
  }

  /** `name,email` with a non-blank name and no newline is a content line
      without a newline. */
  lemma ContentLine(name: string, email: string)
    requires '\n' !in name && '\n' !in email && Trim(name) == name != []
    ensures '\n' !in name + "," + email && IsContentLine(name + "," + email)
  {
    var line := name + "," + email;
    assert forall k :: 0 <= k < |line| ==> line[k] == (if k < |name| then name[k] else if k == |name| then ',' else email[k - |name| - 1]);
    assert line[0] == name[0];
  }
}
