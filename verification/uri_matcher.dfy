/** The provider's `UriMatcher`: two registered path patterns under the
    provider's authority, and the classification the operations switch on. */
module UriMatcher {
  import opened Results
  import opened Decimal
  import opened Uris
  import opened DatabaseDescription

  /** The code `UriMatcher.match` returns when nothing is registered for a URI. */
  const NO_MATCH: int := -1
  /** The code registered for one contact, `contacts/#`. */
  const ONE_CONTACT: int := 1
  /** The code registered for the whole table, `contacts`. */
  const CONTACTS: int := 2

  /** One `addURI(authority, path, code)` call, the path split at slashes. */
  datatype Registration = Registration(authority: string, pattern: seq<string>, code: int)

  /** The registrations made when the provider class is loaded. */
  const REGISTRATIONS: seq<Registration> := [
    Registration(AUTHORITY, [TABLE_NAME, "#"], ONE_CONTACT),
    Registration(AUTHORITY, [TABLE_NAME], CONTACTS)
  ]

  /** `#` accepts a run of digits, `*` any segment, anything else itself. */
  predicate SegmentMatches(pattern: string, segment: string) {
    if pattern == "#" then IsDigits(segment)
    else if pattern == "*" then true
    else pattern == segment
  }

  predicate Matches(r: Registration, u: Uri) {
    && r.authority == u.authority
    && |r.pattern| == |u.segments|
    && forall i :: 0 <= i < |u.segments| ==> SegmentMatches(r.pattern[i], u.segments[i])
  }

  /** The code of the first registration, in order, that accepts `u`, else
      `NO_MATCH`. Android's matcher instead descends a tree of registered
      segments without backtracking, so the two can differ for patterns that
      put a wildcard beside literal text at the same depth; for the provider's
      registrations, which share the `contacts` node and differ only in length,
      they give the same code. */
  function MatchCode(regs: seq<Registration>, u: Uri): (code: int)
    ensures code == NO_MATCH <==> forall r :: r in regs && r.code != NO_MATCH ==> !Matches(r, u)
    ensures code != NO_MATCH ==> exists r :: r in regs && Matches(r, u) && r.code == code
  {
    if |regs| == 0 then NO_MATCH
    else if Matches(regs[0], u) && regs[0].code != NO_MATCH then regs[0].code
    else MatchCode(regs[1..], u)
  }

  /** The tagged form of the matcher's answer: the whole table, one row by key,
      or a URI no operation accepts. */
  datatype Match = Collection | Item(id: nat) | NoMatch

  /** A URI naming the whole table under the provider's authority. */
  predicate IsTableUri(u: Uri) {
    u.authority == AUTHORITY && u.segments == [TABLE_NAME]
  }

  /** A URI naming one contact by a run of digits. */
  predicate IsContactUri(u: Uri) {
    u.authority == AUTHORITY && |u.segments| == 2 && u.segments[0] == TABLE_NAME && IsDigits(u.segments[1])
  }

  /** No URI is accepted by both registered patterns. */
  lemma RegistrationsDisjoint(u: Uri)
    ensures !(Matches(REGISTRATIONS[0], u) && Matches(REGISTRATIONS[1], u))
    ensures Matches(REGISTRATIONS[0], u) <==> IsContactUri(u)
    ensures Matches(REGISTRATIONS[1], u) <==> IsTableUri(u)
  {
    if IsContactUri(u) {
      assert SegmentMatches(TABLE_NAME, u.segments[0]);
    }
    if Matches(REGISTRATIONS[0], u) {
      assert SegmentMatches(TABLE_NAME, u.segments[0]);
      assert SegmentMatches("#", u.segments[1]);
    }
    if Matches(REGISTRATIONS[1], u) {
      assert SegmentMatches(TABLE_NAME, u.segments[0]);
    }
  }

  /** The classification each operation starts from: the matcher's code, and
      for one contact the key read from the last path segment. The table URI
      is a collection, a contact URI is the item whose key its digits spell,
      and every other URI is rejected. */
  function Classify(u: Uri): (m: Match)
    ensures m == Collection <==> IsTableUri(u)
    ensures m.Item? <==> IsContactUri(u)
    ensures m.Item? ==> m.id == ParseDecimal(u.segments[1])
    ensures m == NoMatch <==> !IsTableUri(u) && !IsContactUri(u)
  {
    RegistrationsDisjoint(u);
    assert REGISTRATIONS[0] in REGISTRATIONS && REGISTRATIONS[1] in REGISTRATIONS;
    assert REGISTRATIONS[1..][1..] == [];
    var code := MatchCode(REGISTRATIONS, u);
    assert code == MatchCode(REGISTRATIONS[1..], u) || Matches(REGISTRATIONS[0], u);
    if code == ONE_CONTACT then
      Item(ParseDecimal(LastPathSegment(u).value))
    else if code == CONTACTS then Collection
    else NoMatch
  }

  /** A single-contact classification carries the key the last path segment
      spells, which is what the provider puts in its `_id=` clause. */
  lemma ItemIdIsLastSegment(u: Uri)
    requires Classify(u).Item?
    ensures LastPathSegment(u).Some? && IsDigits(LastPathSegment(u).value)
    ensures Classify(u).id == ParseDecimal(LastPathSegment(u).value)
  {
  }

  /** The table URI classifies as the whole table. */
  lemma ContentUriIsCollection()
    ensures Classify(CONTENT_URI) == Collection
  {
  }

  /** Round trip: every non-negative id's contact URI classifies as that id. */
  lemma BuildContactUriRoundTrip(id: int)
    requires id >= 0
    ensures Classify(BuildContactUri(id)) == Item(id)
    ensures LastPathSegment(BuildContactUri(id)) == Some(DecimalString(id))
  {
    var u := BuildContactUri(id);
    ParseOfDecimalString(id);
  }

  /** A negative id's URI carries a minus sign, which the matcher rejects. */
  lemma NegativeContactUriRejected(id: int)
    requires id < 0
    ensures Classify(BuildContactUri(id)) == NoMatch
  {
  }

  /** Conversely, a `content` contact URI without leading zeros is exactly
      the one `BuildContactUri` makes for its id. */
  lemma ContactUriIsBuilt(u: Uri)
    requires Classify(u).Item? && u.scheme == "content" && Canonical(u.segments[1])
    ensures u == BuildContactUri(Classify(u).id)
  {
    DecimalStringOfParse(u.segments[1]);
  }

  /** A contact URI whose digits carry leading zeros names the same row as
      the canonical one: `contacts/007` classifies as key 7. */
  lemma PaddedContactUriClassifies(zeros: nat, id: nat)
    ensures Classify(AppendPath(CONTENT_URI, Zeros(zeros) + DecimalString(id))) == Item(id)
  {
    LeadingZerosIgnored(zeros, id);
  }
}
