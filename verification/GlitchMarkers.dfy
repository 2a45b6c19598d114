/** Fault-injection markers in a document, `[OCR-GLITCH:<field>=<value>]`: finding them, and
    removing them from the text. */
module GlitchMarkers {
  import opened Schemas

  const MARKER: string := "[OCR-GLITCH:"

  /** The field name in a marker, the value it gives, and where the marker ends. */
  datatype Marker = Marker(name: string, value: string, end: nat)

  /** What a marker says: this field has this value. */
  datatype Claim = Claim(field: Field, value: string)

  predicate IsFieldChar(c: char) {
    'a' <= c <= 'z' || c == '_'
  }

  /** End of the run of field characters from `i` on. */
  function FieldEnd(t: string, i: nat): (k: nat)
    requires i <= |t|
    ensures i <= k <= |t|
    decreases |t| - i
  {
    if i < |t| && IsFieldChar(t[i]) then FieldEnd(t, i + 1) else i
  }

  /** Position of the first `]` from `i` on, or the length. */
  function ValueEnd(t: string, i: nat): (k: nat)
    requires i <= |t|
    ensures i <= k <= |t|
    decreases |t| - i
  {
    if i < |t| && t[i] != ']' then ValueEnd(t, i + 1) else i
  }

  const FIELDS: seq<Field> := [
    FullName, DateOfBirth, DocumentNumber, ExpiryDate, Nationality, Address, IssueDate, Issuer, CompanyName,
    RegistrationNumber, RegistrationDate, LegalForm, RegisteredAddress, BeneficialOwners]

  /** How the documents spell a field. */
  function NameOf(f: Field): string {
    match f
    case FullName => "full_name"
    case DateOfBirth => "date_of_birth"
    case DocumentNumber => "document_number"
    case ExpiryDate => "expiry_date"
    case Nationality => "nationality"
    case Address => "address"
    case IssueDate => "issue_date"
    case Issuer => "issuer"
    case CompanyName => "company_name"
    case RegistrationNumber => "registration_number"
    case RegistrationDate => "registration_date"
    case LegalForm => "legal_form"
    case RegisteredAddress => "registered_address"
    case BeneficialOwners => "beneficial_owners"
    case OtherField(name) => name
  }

  /** The field a name stands for. */
  function FieldNamed(name: string): Field {
    Spelled(FIELDS, name)
  }

  function Spelled(fields: seq<Field>, name: string): Field {
    if fields == [] then OtherField(name)
    else if NameOf(fields[0]) == name then fields[0]
    else Spelled(fields[1..], name)
  }

  /** The rest of a marker, from its field name on. */
  function MarkerBody(t: string, f: nat): (m: Option<Marker>)
    requires f <= |t|
    ensures m.Some? ==> f < m.value.end <= |t|
  {
    var eq := FieldEnd(t, f);
    if eq == f || eq == |t| || t[eq] != '=' then None
    else
      var close := ValueEnd(t, eq + 1);
      if close == eq + 1 || close == |t| then None
      else Some(Marker(t[f..eq], t[eq + 1..close], close + 1))
  }

  predicate HeadAt(t: string, i: nat) {
    i + |MARKER| <= |t| && t[i..i + |MARKER|] == MARKER
  }

  /** The marker that starts at `i`, if one does. */
  function MarkerAt(t: string, i: nat): (m: Option<Marker>)
    ensures m.Some? ==> i < m.value.end <= |t|
  {
    if HeadAt(t, i) then MarkerBody(t, i + |MARKER|) else None
  }

  // --- replacing what is found ---

  /** Says what is found at a place of a text. */
  type Finder = (string, nat) -> Option<Marker>

  /** What a finder finds in a text from `i` on, left to right, not overlapping. */
  function Found(find: Finder, t: string, i: nat): seq<Marker>
    requires i <= |t|
    decreases |t| - i
  {
    if i == |t| then []
    else
      var m := find(t, i);
      if m.Some? && i < m.value.end <= |t| then [m.value] + Found(find, t, m.value.end) else Found(find, t, i + 1)
  }

  /** The text from `i` on with everything found replaced by a space. */
  function Replaced(find: Finder, t: string, i: nat): string
    requires i <= |t|
    decreases |t| - i
  {
    if i == |t| then ""
    else
      var m := find(t, i);
      if m.Some? && i < m.value.end <= |t| then " " + Replaced(find, t, m.value.end)
      else [t[i]] + Replaced(find, t, i + 1)
  }

  const MARKERS: Finder := (t: string, i: nat) => MarkerAt(t, i)

  /** The markers of a text. */
  function Markers(t: string): seq<Marker> {
    Found(MARKERS, t, 0)
  }

  /** A text without markers. */
  predicate Unmarked(t: string) {
    Markers(t) == []
  }

  /** What the markers of a text claim, in order. */
  function Claims(t: string): seq<Claim> {
    ClaimsOf(Markers(t))
  }

  function ClaimsOf(markers: seq<Marker>): seq<Claim> {
    if markers == [] then []
    else [Claim(FieldNamed(markers[0].name), markers[0].value)] + ClaimsOf(markers[1..])
  }

  /** A text with its markers removed. */
  function Remaining(t: string): string {
    Replaced(MARKERS, t, 0)
  }

  lemma {:induction false} NothingReplaced(find: Finder, t: string, i: nat)
    requires i <= |t| && Found(find, t, i) == []
    ensures Replaced(find, t, i) == t[i..]
    decreases |t| - i
  {
    if i < |t| {
      NothingReplaced(find, t, i + 1);
      assert t[i..] == [t[i]] + t[i + 1..];
    }
  }

  lemma UnmarkedRemains(t: string)
    requires Unmarked(t)
    ensures Remaining(t) == t
  {
    NothingReplaced(MARKERS, t, 0);
    assert t[0..] == t;
  }

  // --- what a marker is, written out ---

  lemma {:induction false} SpelledExact(fields: seq<Field>, name: string)
    ensures NameOf(Spelled(fields, name)) == name
    ensures Spelled(fields, name) in fields || Spelled(fields, name) == OtherField(name)
    ensures forall f :: f in fields && NameOf(f) == name ==> Spelled(fields, name) in fields
  {
    if fields != [] {
      SpelledExact(fields[1..], name);
      assert fields == [fields[0]] + fields[1..];
    }
  }

  /** A name stands for the field it spells, and for one of the schemas' if it spells one. */
  lemma FieldNamedExact(name: string)
    ensures NameOf(FieldNamed(name)) == name
    ensures (exists f :: f in FIELDS && NameOf(f) == name) ==> FieldNamed(name) in FIELDS
  {
    SpelledExact(FIELDS, name);
  }

  /** The names the schemas use: a name in one of them stands for that field. */
  ghost predicate SchemaName(name: string, f: Field) {
    || (name == "full_name" && f == FullName)
    || (name == "date_of_birth" && f == DateOfBirth)
    || (name == "document_number" && f == DocumentNumber)
    || (name == "expiry_date" && f == ExpiryDate)
    || (name == "nationality" && f == Nationality)
    || (name == "address" && f == Address)
    || (name == "issue_date" && f == IssueDate)
    || (name == "issuer" && f == Issuer)
    || (name == "company_name" && f == CompanyName)
    || (name == "registration_number" && f == RegistrationNumber)
    || (name == "registration_date" && f == RegistrationDate)
    || (name == "legal_form" && f == LegalForm)
    || (name == "registered_address" && f == RegisteredAddress)
    || (name == "beneficial_owners" && f == BeneficialOwners)
  }

  lemma SchemaNamesExact(name: string, f: Field)
    requires SchemaName(name, f)
    ensures NameOf(f) == name && f in FIELDS
  {
    var k := Position(f);
    assert FIELDS[k] == f;
  }

  function Position(f: Field): (k: nat)
    ensures k < |FIELDS|
  {
    match f
    case FullName => 0
    case DateOfBirth => 1
    case DocumentNumber => 2
    case ExpiryDate => 3
    case Nationality => 4
    case Address => 5
    case IssueDate => 6
    case Issuer => 7
    case CompanyName => 8
    case RegistrationNumber => 9
    case RegistrationDate => 10
    case LegalForm => 11
    case RegisteredAddress => 12
    case BeneficialOwners => 13
    case OtherField(_) => 0
  }

  /** A field name and a value that make up a marker. */
  ghost predicate IsMarker(name: string, value: string) {
    && name != "" && (forall i :: 0 <= i < |name| ==> 'a' <= name[i] <= 'z' || name[i] == '_')
    && value != "" && (forall i :: 0 <= i < |value| ==> value[i] != ']')
  }

  function MarkerText(name: string, value: string): string {
    MARKER + name + "=" + value + "]"
  }

  lemma {:induction false} FieldEndAt(t: string, i: nat, k: nat)
    requires i <= k <= |t|
    requires forall j :: i <= j < k ==> 'a' <= t[j] <= 'z' || t[j] == '_'
    requires k < |t| ==> t[k] == '='
    ensures FieldEnd(t, i) == k
    decreases k - i
  {
    if i < k { FieldEndAt(t, i + 1, k); }
  }

  lemma {:induction false} ValueEndAt(t: string, i: nat, k: nat)
    requires i <= k < |t| && t[k] == ']'
    requires forall j :: i <= j < k ==> t[j] != ']'
    ensures ValueEnd(t, i) == k
    decreases k - i
  {
    if i < k { ValueEndAt(t, i + 1, k); }
  }

  lemma BodyFound(t: string, f: nat, name: string, value: string)
    requires IsMarker(name, value) && f + |name| + |value| + 2 <= |t|
    requires t[f..f + |name|] == name && t[f + |name|] == '='
    requires t[f + |name| + 1..f + |name| + 1 + |value|] == value && t[f + |name| + 1 + |value|] == ']'
    ensures MarkerBody(t, f) == Some(Marker(name, value, f + |name| + |value| + 2))
  {
    var eq := f + |name|;
    var close := eq + 1 + |value|;
    assert forall j :: f <= j < eq ==> t[j] == name[j - f];
    assert forall j :: eq + 1 <= j < close ==> t[j] == value[j - (eq + 1)];
    FieldEndAt(t, f, eq);
    ValueEndAt(t, eq + 1, close);
  }

  /** The parts of a text that has a marker in it. */
  lemma MarkerParts(head: string, a: string, name: string, value: string, b: string)
    ensures var t, f := a + (head + name + "=" + value + "]") + b, |a| + |head|;
            && |t| == |a| + |head| + 2 + |name| + |value| + |b|
            && t[|a|..f] == head
            && t[f..f + |name|] == name && t[f + |name|] == '='
            && t[f + |name| + 1..f + |name| + 1 + |value|] == value && t[f + |name| + 1 + |value|] == ']'
  {
  }

  /** A marker is found where it stands, up to its closing bracket. */
  lemma MarkerFound(a: string, name: string, value: string, b: string)
    requires IsMarker(name, value)
    ensures var t := a + MarkerText(name, value) + b;
            MarkerAt(t, |a|) == Some(Marker(name, value, |a| + |MarkerText(name, value)|))
  {
    var t := a + MarkerText(name, value) + b;
    MarkerParts(MARKER, a, name, value, b);
    FoundAt(t, |a|, name, value);
  }

  lemma FoundAt(t: string, i: nat, name: string, value: string)
    requires IsMarker(name, value) && i + |MARKER| + |name| + |value| + 2 <= |t|
    requires HeadAt(t, i)
    requires var f := i + |MARKER|;
             && t[f..f + |name|] == name && t[f + |name|] == '='
             && t[f + |name| + 1..f + |name| + 1 + |value|] == value && t[f + |name| + 1 + |value|] == ']'
    ensures MarkerAt(t, i) == Some(Marker(name, value, i + |MARKER| + |name| + |value| + 2))
  {
    BodyFound(t, i + |MARKER|, name, value);
  }

  lemma {:induction false} FieldEndStops(t: string, i: nat)
    requires i <= |t|
    ensures forall j :: i <= j < FieldEnd(t, i) ==> 'a' <= t[j] <= 'z' || t[j] == '_'
    decreases |t| - i
  {
    if i < |t| && IsFieldChar(t[i]) { FieldEndStops(t, i + 1); }
  }

  lemma {:induction false} ValueEndStops(t: string, i: nat)
    requires i <= |t|
    ensures forall j :: i <= j < ValueEnd(t, i) ==> t[j] != ']'
    ensures ValueEnd(t, i) < |t| ==> t[ValueEnd(t, i)] == ']'
    decreases |t| - i
  {
    if i < |t| && t[i] != ']' { ValueEndStops(t, i + 1); }
  }

  lemma BodyShape(t: string, f: nat)
    requires f <= |t| && MarkerBody(t, f).Some?
    ensures var m := MarkerBody(t, f).value;
            IsMarker(m.name, m.value) && t[f..m.end] == m.name + "=" + m.value + "]"
  {
    var m := MarkerBody(t, f).value;
    var eq := FieldEnd(t, f);
    var close := ValueEnd(t, eq + 1);
    FieldEndStops(t, f);
    ValueEndStops(t, eq + 1);
    assert forall j :: 0 <= j < |m.name| ==> m.name[j] == t[f + j];
    assert forall j :: 0 <= j < |m.value| ==> m.value[j] == t[eq + 1 + j];
    assert t[f..m.end] == t[f..eq] + [t[eq]] + t[eq + 1..close] + [t[close]];
  }

  /** And what is found is a marker. */
  lemma MarkerShape(t: string, i: nat)
    requires MarkerAt(t, i).Some?
    ensures var m := MarkerAt(t, i).value;
            IsMarker(m.name, m.value) && HeadAt(t, i)
            && t[i + |MARKER|..m.end] == m.name + "=" + m.value + "]"
  {
    BodyShape(t, i + |MARKER|);
  }

  // --- what removing the markers leaves ---

  /** `b` is what `t` holds from `k` on. */
  ghost predicate EndsWith(t: string, k: nat, b: string) {
    |t| == k + |b| && forall i {:trigger b[i]} :: 0 <= i < |b| ==> b[i] == t[k + i]
  }

  lemma EndsWithAt(t: string, k: nat, b: string, i: nat, j: nat)
    requires EndsWith(t, k, b) && i <= j <= |b|
    ensures t[k + i..k + j] == b[i..j]
    ensures i < |b| ==> t[k + i] == b[i]
  {
    var whole, part := t[k + i..k + j], b[i..j];
    assert forall n :: 0 <= n < j - i ==> part[n] == b[i + n] && whole[n] == t[k + (i + n)];
  }

  lemma {:induction false} FieldEndSuffix(t: string, k: nat, b: string, i: nat)
    requires EndsWith(t, k, b) && i <= |b|
    ensures FieldEnd(t, k + i) == k + FieldEnd(b, i)
    decreases |b| - i
  {
    EndsWithAt(t, k, b, i, i);
    if i < |b| && IsFieldChar(b[i]) { FieldEndSuffix(t, k, b, i + 1); }
  }

  lemma {:induction false} ValueEndSuffix(t: string, k: nat, b: string, i: nat)
    requires EndsWith(t, k, b) && i <= |b|
    ensures ValueEnd(t, k + i) == k + ValueEnd(b, i)
    decreases |b| - i
  {
    EndsWithAt(t, k, b, i, i);
    if i < |b| && b[i] != ']' { ValueEndSuffix(t, k, b, i + 1); }
  }

  function Moved(m: Option<Marker>, shift: nat): Option<Marker> {
    if m.Some? then Some(m.value.(end := m.value.end + shift)) else None
  }

  lemma HeadSuffix(t: string, k: nat, b: string, i: nat)
    requires EndsWith(t, k, b)
    ensures HeadAt(t, k + i) <==> HeadAt(b, i)
  {
    if i + |MARKER| <= |b| {
      EndsWithAt(t, k, b, i, i + |MARKER|);
    }
  }

  lemma BodySuffix(t: string, k: nat, b: string, f: nat)
    requires EndsWith(t, k, b) && f <= |b|
    ensures MarkerBody(t, k + f) == Moved(MarkerBody(b, f), k)
  {
    FieldEndSuffix(t, k, b, f);
    var eq := FieldEnd(b, f);
    EndsWithAt(t, k, b, f, eq);
    EndsWithAt(t, k, b, eq, eq);
    if eq < |b| {
      ValueEndSuffix(t, k, b, eq + 1);
      EndsWithAt(t, k, b, eq + 1, ValueEnd(b, eq + 1));
    }
  }

  lemma MarkerAtSuffix(t: string, k: nat, b: string, i: nat)
    requires EndsWith(t, k, b)
    ensures MarkerAt(t, k + i) == Moved(MarkerAt(b, i), k)
  {
    HeadSuffix(t, k, b, i);
    if HeadAt(b, i) {
      BodySuffix(t, k, b, i + |MARKER|);
    }
  }

  /** A finder that does not look back: from position `i` of `b` on, which `t` repeats from `k`
      on, it finds the same in both, only further on. */
  ghost predicate LooksAhead(find: Finder, t: string, k: nat, b: string, i: nat)
    decreases |b| - i
  {
    && i <= |b| && |t| == k + |b|
    && (i < |b| ==>
          t[k + i] == b[i] && find(t, k + i) == Moved(find(b, i), k) && LooksAhead(find, t, k, b, i + 1))
  }

  lemma {:induction false} LaterOn(find: Finder, t: string, k: nat, b: string, i: nat, j: nat)
    requires LooksAhead(find, t, k, b, i) && i <= j <= |b|
    ensures LooksAhead(find, t, k, b, j)
    decreases j - i
  {
    if i < j {
      LaterOn(find, t, k, b, i + 1, j);
    }
  }

  lemma MarkersSame(t: string, k: nat, b: string, i: nat)
    requires EndsWith(t, k, b) && i < |b|
    ensures t[k + i] == b[i] && MARKERS(t, k + i) == Moved(MARKERS(b, i), k)
  {
    MarkerAtSuffix(t, k, b, i);
    EndsWithAt(t, k, b, i, i);
  }

  lemma {:induction false} MarkersLookAhead(t: string, k: nat, b: string, i: nat)
    requires EndsWith(t, k, b) && i <= |b|
    ensures LooksAhead(MARKERS, t, k, b, i)
    decreases |b| - i
  {
    if i < |b| {
      MarkersSame(t, k, b, i);
      MarkersLookAhead(t, k, b, i + 1);
    }
  }

  /** Markers as they come behind `shift` characters. */
  function AllMoved(markers: seq<Marker>, shift: nat): seq<Marker> {
    if markers == [] then []
    else [markers[0].(end := markers[0].end + shift)] + AllMoved(markers[1..], shift)
  }

  lemma {:induction false} ReplacedBehind(find: Finder, t: string, k: nat, b: string, i: nat)
    requires LooksAhead(find, t, k, b, i)
    ensures Replaced(find, t, k + i) == Replaced(find, b, i)
    decreases |b| - i
  {
    if i < |b| {
      var m := find(b, i);
      if m.Some? && i < m.value.end <= |b| {
        LaterOn(find, t, k, b, i, m.value.end);
        ReplacedBehind(find, t, k, b, m.value.end);
      } else {
        ReplacedBehind(find, t, k, b, i + 1);
      }
    }
  }

  lemma {:induction false} FoundBehind(find: Finder, t: string, k: nat, b: string, i: nat)
    requires LooksAhead(find, t, k, b, i)
    ensures Found(find, t, k + i) == AllMoved(Found(find, b, i), k)
    decreases |b| - i
  {
    if i < |b| {
      var m := find(b, i);
      if m.Some? && i < m.value.end <= |b| {
        LaterOn(find, t, k, b, i, m.value.end);
        FoundBehind(find, t, k, b, m.value.end);
      } else {
        FoundBehind(find, t, k, b, i + 1);
      }
    }
  }

  /** Nothing is found from `i` to before `k`. */
  ghost predicate NoneStarts(find: Finder, t: string, i: nat, k: nat)
    requires i <= k <= |t|
  {
    forall j :: i <= j < k ==> find(t, j).None?
  }

  lemma {:induction false} FrontKept(find: Finder, t: string, i: nat, k: nat)
    requires i <= k <= |t| && NoneStarts(find, t, i, k)
    ensures Replaced(find, t, i) == t[i..k] + Replaced(find, t, k)
    ensures Found(find, t, i) == Found(find, t, k)
    decreases k - i
  {
    if i < k {
      FrontKept(find, t, i + 1, k);
      assert t[i..k] == [t[i]] + t[i + 1..k];
      assert [t[i]] + (t[i + 1..k] + Replaced(find, t, k)) == t[i..k] + Replaced(find, t, k);
    } else {
      assert t[i..k] == "";
    }
  }

  /** The first thing found is replaced by a space; the text before it is kept; and what
      follows is treated as if it stood alone. */
  lemma FirstTreated(find: Finder, t: string, i: nat, m: Marker, b: string)
    requires i < m.end <= |t| && find(t, i) == Some(m)
    requires NoneStarts(find, t, 0, i) && LooksAhead(find, t, m.end, b, 0)
    ensures Replaced(find, t, 0) == t[..i] + (" " + Replaced(find, b, 0))
    ensures Found(find, t, 0) == [m] + AllMoved(Found(find, b, 0), m.end)
  {
    FrontKept(find, t, 0, i);
    ReplacedBehind(find, t, m.end, b, 0);
    FoundBehind(find, t, m.end, b, 0);
    assert t[0..i] == t[..i];
  }

  /** The text `a`, in front of a marker, begins no marker. */
  ghost predicate LeadsUpTo(a: string, name: string, value: string, b: string) {
    NoneStarts(MARKERS, a + MarkerText(name, value) + b, 0, |a|)
  }

  lemma {:induction false} ClaimsMoved(markers: seq<Marker>, shift: nat)
    ensures ClaimsOf(AllMoved(markers, shift)) == ClaimsOf(markers)
  {
    if markers != [] {
      ClaimsMoved(markers[1..], shift);
      assert AllMoved(markers, shift)[1..] == AllMoved(markers[1..], shift);
    }
  }

  lemma ClaimsAfter(m: Marker, markers: seq<Marker>, shift: nat)
    ensures ClaimsOf([m] + AllMoved(markers, shift)) == [Claim(FieldNamed(m.name), m.value)] + ClaimsOf(markers)
  {
    assert ([m] + AllMoved(markers, shift))[1..] == AllMoved(markers, shift);
    ClaimsMoved(markers, shift);
  }

  lemma FirstMarkerAt(t: string, i: nat, m: Marker, b: string)
    requires i < m.end <= |t| && NoneStarts(MARKERS, t, 0, i) && MarkerAt(t, i) == Some(m) && EndsWith(t, m.end, b)
    ensures Remaining(t) == t[..i] + (" " + Remaining(b))
    ensures Claims(t) == [Claim(FieldNamed(m.name), m.value)] + Claims(b)
  {
    MarkersLookAhead(t, m.end, b, 0);
    FirstTreated(MARKERS, t, i, m, b);
    ClaimsAfter(m, Markers(b), m.end);
  }

  lemma Concatenated(a: string, m: string, b: string)
    ensures (a + m + b)[..|a|] == a && EndsWith(a + m + b, |a + m|, b)
  {
  }

  /** What remains of a text is what is in front of its first marker, a space, and what
      remains of the text behind it; what it claims is what that marker says, and then what is
      claimed behind it. */
  lemma FirstMarker(a: string, name: string, value: string, b: string)
    requires IsMarker(name, value) && LeadsUpTo(a, name, value, b)
    ensures Remaining(a + MarkerText(name, value) + b) == a + (" " + Remaining(b))
    ensures Claims(a + MarkerText(name, value) + b) == [Claim(FieldNamed(name), value)] + Claims(b)
  {
    var t, m := a + MarkerText(name, value) + b, Marker(name, value, |a + MarkerText(name, value)|);
    MarkerFound(a, name, value, b);
    Concatenated(a, MarkerText(name, value), b);
    FirstMarkerAt(t, |a|, m, b);
  }
}
