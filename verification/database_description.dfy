/** The fixed description of the one table: provider authority, table name,
    content URIs and column names. */
module DatabaseDescription {
  import opened Decimal
  import opened Uris

  /** The name a resolver uses to find the provider. */
  const AUTHORITY: string := "com.deitel.addressbook.data"

  const TABLE_NAME: string := "contacts"

  /** The primary-key column `BaseColumns._ID`. */
  const ID_COLUMN: string := "_id"

  /** `content://` followed by the authority, with an empty path. */
  const BASE_CONTENT_URI: Uri := Uri("content", AUTHORITY, [])

  /** The URI of the whole contacts table. */
  const CONTENT_URI: Uri := AppendPath(BASE_CONTENT_URI, TABLE_NAME)

  /** The seven text columns of a contact besides its key. */
  datatype Column = Name | Phone | Email | Street | City | State | Zip

  function ColumnName(c: Column): string
  {
    match c
    case Name => "name"
    case Phone => "phone"
    case Email => "email"
    case Street => "street"
    case City => "city"
    case State => "state"
    case Zip => "zip"
  }

  /** The columns in declaration order. */
  const COLUMNS: seq<Column> := [Name, Phone, Email, Street, City, State, Zip]

  /** `ContentUris.withAppendedId(CONTENT_URI, id)`: the URI of one contact. */
  function BuildContactUri(id: int): (u: Uri)
    ensures u.scheme == CONTENT_URI.scheme && u.authority == CONTENT_URI.authority
    ensures u.segments == [TABLE_NAME, SignedDecimal(id)]
  {
    AppendPath(CONTENT_URI, SignedDecimal(id))
  }

  lemma ContentUriText()
    ensures Render(CONTENT_URI) == "content://" + AUTHORITY + "/" + TABLE_NAME
  {
    RenderAppendPath(BASE_CONTENT_URI, TABLE_NAME);
    assert PathText([]) == "";
    assert Render(BASE_CONTENT_URI) == "content" + "://" + AUTHORITY;
    assert "content" + "://" == "content://";
  }

  /** The row key and the seven text columns are eight distinct names. */
  lemma SchemaColumns()
    ensures |COLUMNS| == 7
    ensures forall c: Column :: c in COLUMNS
    ensures forall i, j :: 0 <= i < j < |COLUMNS| ==> ColumnName(COLUMNS[i]) != ColumnName(COLUMNS[j])
    ensures forall c: Column :: ColumnName(c) != ID_COLUMN
  {
    forall c: Column
      ensures c in COLUMNS
    {
      match c
      case Name => assert COLUMNS[0] == c;
      case Phone => assert COLUMNS[1] == c;
      case Email => assert COLUMNS[2] == c;
      case Street => assert COLUMNS[3] == c;
      case City => assert COLUMNS[4] == c;
      case State => assert COLUMNS[5] == c;
      case Zip => assert COLUMNS[6] == c;
    }
  }

  /** The text of a contact URI is the table URI, a slash and the id. */
  lemma BuildContactUriText(id: int)
    ensures Render(BuildContactUri(id)) == Render(CONTENT_URI) + "/" + SignedDecimal(id)
  {
    RenderAppendPath(CONTENT_URI, SignedDecimal(id));
  }

  /** The table URI's text is a proper prefix of every contact URI's text. */
  lemma ContentUriStrictPrefix(id: int)
    ensures Render(CONTENT_URI) < Render(BuildContactUri(id))
  {
    BuildContactUriText(id);
  }

  /** Distinct ids give distinct contact URIs, as values and as text. */
  lemma BuildContactUriInjective(a: int, b: int)
    ensures BuildContactUri(a) == BuildContactUri(b) ==> a == b
    ensures Render(BuildContactUri(a)) == Render(BuildContactUri(b)) ==> a == b
  {
    BuildContactUriText(a);
    BuildContactUriText(b);
    var prefix := Render(CONTENT_URI) + "/";
    if Render(BuildContactUri(a)) == Render(BuildContactUri(b)) {
      assert Render(BuildContactUri(a))[|prefix|..] == SignedDecimal(a);
      assert Render(BuildContactUri(b))[|prefix|..] == SignedDecimal(b);
    }
    if BuildContactUri(a) == BuildContactUri(b) {
      assert BuildContactUri(a).segments[1] == SignedDecimal(a);
    }
    SignedDecimalInjective(a, b);
  }
}
