# Address book content provider — Dafny model

This project models the data-access core of the AddressBook Android app: the
`AddressBookContentProvider` that serves the single `contacts` table, and the
`DatabaseDescription` constants and URI builder it relies on.

- **URIs** (`uris.dfy`) are values `Uri(scheme, authority, segments)`, with
  `getLastPathSegment`, `appendPath` and the textual form.
- **Row ids as text** (`decimal.dfy`): `String.valueOf(long)` for an id, and
  the value SQLite reads from the digits in `_id=<digits>`. Both directions are
  proved, and so is the one-to-one match between canonical digit strings and
  naturals.
- **DatabaseDescription** (`database_description.dfy`) covers the authority
  `com.deitel.addressbook.data`, the table `contacts`, `CONTENT_URI`, the seven
  text columns and `buildContactUri`.
- **The URI matcher** (`uri_matcher.dfy`) models the two `addURI`
  registrations (`contacts/#` as `ONE_CONTACT`, `contacts` as `CONTACTS`). It
  matches them as an ordered list, which gives the same codes as Android's
  tree walk for these two patterns (they share the `contacts` node). It also gives the tagged
  classification `Collection | Item(id) | NoMatch` that the operations switch
  on. The matcher compares the authority and the path segments, not the scheme.
- **Rows** (`contacts.dfy`): a `Record` with seven nullable text fields.
  `Values` stands for `ContentValues` restricted to the seven text columns:
  a column left out was not put.
- **The provider** (`content_provider.dfy`) has state `Provider(table, notifications)`:
  the table as `map<nat, Record>`, and every URI passed to `notifyChange`, in
  order. `Query`, `Insert`, `Update` and `Delete` are pure functions. Each
  returns `Success` with the new state and result, or `Failure` with the
  exception the call throws. That includes the `IllegalArgumentException`
  `SQLiteDatabase` raises when an update has no values, when an update or
  delete supplies `selectionArgs`, or when a query supplies them without a
  selection: the provider's own where clause (`_id=<n>`, or none) has no `?`
  placeholder for them.
- **Properties across calls** (`provider_properties.dfy`): round trips through
  the provider, deleting twice, the append-only notification log, the
  positive-key invariant, and a worked two-contact scenario.

The store's answer to an insert is a parameter, `rowId`. This is the raw
`long` the Java code tests with `rowId > 0`. When it is positive, `Insert`
requires it to be a key not already in the table. That is the store's
guarantee for a fresh row, not a demand the provider makes of its caller.

Two facts about the code are easy to miss:
- An update or delete notifies only the URI it was called with, not the table
  URI as well.
- The `#` wildcard accepts ids with leading zeros (`contacts/007` is row 7).
  Such a URI is notified in that spelling.

## Model

| member | source | states |
|---|---|---|
| Decimal.ParseDecimal | app/src/main/java/com/deitel/addressbook/data/AddressBookContentProvider.java:118 | the key SQLite reads from the digits of the last segment; a digit string with a non-zero first digit denotes a positive key |
| Decimal.DecimalString | app/src/main/java/com/deitel/addressbook/data/DatabaseDescription.java:58-63 | the decimal text of a non-negative id is a non-empty digit run with no redundant leading zero |
| Decimal.SignedDecimal | app/src/main/java/com/deitel/addressbook/data/DatabaseDescription.java:58-63 | `String.valueOf(long)`: pure digits exactly for non-negative ids, otherwise a minus sign before canonical digits |
| Decimal.ParseOfDecimalString | app/src/main/java/com/deitel/addressbook/data/DatabaseDescription.java:58-63 | reading back the text written for an id gives that id |
| Decimal.DecimalStringOfParse | app/src/main/java/com/deitel/addressbook/data/AddressBookContentProvider.java:118 | a canonical digit segment is exactly the text written for the key it denotes |
| Decimal.LeadingZeroIgnored | app/src/main/java/com/deitel/addressbook/data/AddressBookContentProvider.java:118 | a leading zero does not change the key a digit segment denotes, for every digit string |
| Decimal.LeadingZerosIgnored | app/src/main/java/com/deitel/addressbook/data/AddressBookContentProvider.java:118 | any number of zeros before an id's decimal text still gives a digit run denoting that id |
| Decimal.DecimalStringCharacterised | app/src/main/java/com/deitel/addressbook/data/DatabaseDescription.java:58-63 | a string is the decimal text of n if and only if it is canonical digits denoting n |
| Decimal.DecimalStringInjective | app/src/main/java/com/deitel/addressbook/data/DatabaseDescription.java:58-63 | distinct ids have distinct decimal texts |
| Decimal.SignedDecimalInjective | app/src/main/java/com/deitel/addressbook/data/DatabaseDescription.java:58-63 | distinct longs, negative ones included, have distinct texts |
| Uris.LastPathSegment | app/src/main/java/com/deitel/addressbook/data/AddressBookContentProvider.java:232 | the last path segment is null exactly for an empty path, and is otherwise one of the segments |
| Uris.AppendPath | app/src/main/java/com/deitel/addressbook/data/DatabaseDescription.java:42 | appending a path keeps scheme, authority and earlier segments, and the appended segment becomes the last one |
| Uris.Render | app/src/main/java/com/deitel/addressbook/data/DatabaseDescription.java:28 | a URI's text starts with the scheme, `://` and the authority, and is exactly that when the path is empty |
| Uris.RenderAppendPath | app/src/main/java/com/deitel/addressbook/data/DatabaseDescription.java:42 | appending a segment appends a slash and that segment to the URI text |
| DatabaseDescription.BuildContactUri | app/src/main/java/com/deitel/addressbook/data/DatabaseDescription.java:58-63 | a contact URI is the table URI's scheme and authority with the path `contacts/<id text>` |
| DatabaseDescription.ContentUriText | app/src/main/java/com/deitel/addressbook/data/DatabaseDescription.java:22-42 | the table URI's text is `content://`, then the authority `com.deitel.addressbook.data`, then `/contacts` |
| DatabaseDescription.SchemaColumns | app/src/main/java/com/deitel/addressbook/data/DatabaseDescription.java:47-53 | there are exactly seven text columns, every one listed once, with pairwise distinct names, none of them `_id` |
| DatabaseDescription.BuildContactUriText | app/src/main/java/com/deitel/addressbook/data/DatabaseDescription.java:58-63 | a contact URI's text is the table URI's text, a slash, and the id's decimal text |
| DatabaseDescription.ContentUriStrictPrefix | app/src/main/java/com/deitel/addressbook/data/DatabaseDescription.java:42-63 | the table URI's text is a proper prefix of every contact URI's text |
| DatabaseDescription.BuildContactUriInjective | app/src/main/java/com/deitel/addressbook/data/DatabaseDescription.java:58-63 | distinct ids give distinct contact URIs, both as values and as text |
| UriMatcher.MatchCode | app/src/main/java/com/deitel/addressbook/data/AddressBookContentProvider.java:27 | the matcher answers NO_MATCH exactly when no registration accepts the URI; otherwise it answers the code of an accepting registration |
| UriMatcher.RegistrationsDisjoint | app/src/main/java/com/deitel/addressbook/data/AddressBookContentProvider.java:47-56 | no URI is accepted by both patterns; `contacts/#` accepts exactly the contact URIs and `contacts` exactly the table URI |
| UriMatcher.Classify | app/src/main/java/com/deitel/addressbook/data/AddressBookContentProvider.java:111-128 | the switch every operation starts from. The table URI classifies as Collection, and a `contacts/<digits>` URI as Item of the digits' value. Every other URI is NoMatch. Each holds in both directions |
| UriMatcher.ItemIdIsLastSegment | app/src/main/java/com/deitel/addressbook/data/AddressBookContentProvider.java:118 | an Item's key is the value of the digits in the URI's last path segment |
| UriMatcher.ContentUriIsCollection | app/src/main/java/com/deitel/addressbook/data/AddressBookContentProvider.java:56 | CONTENT_URI classifies as the whole table |
| UriMatcher.BuildContactUriRoundTrip | app/src/main/java/com/deitel/addressbook/data/DatabaseDescription.java:58-63 | for every id >= 0 the contact URI classifies as Item(id), and its last segment is the id's decimal text |
| UriMatcher.NegativeContactUriRejected | app/src/main/java/com/deitel/addressbook/data/DatabaseDescription.java:58-63 | a URI built for a negative id is rejected by the matcher |
| UriMatcher.ContactUriIsBuilt | app/src/main/java/com/deitel/addressbook/data/AddressBookContentProvider.java:51 | a `content` contact URI whose digits have no leading zero is the URI buildContactUri makes for its key |
| UriMatcher.PaddedContactUriClassifies | app/src/main/java/com/deitel/addressbook/data/AddressBookContentProvider.java:51 | a contact URI whose digits carry any number of leading zeros classifies as the same key as the canonical one |
| Contacts.FromValues | app/src/main/java/com/deitel/addressbook/data/AddressBookContentProvider.java:187 | an inserted row holds each put column's value and NULL in the others |
| Contacts.Apply | app/src/main/java/com/deitel/addressbook/data/AddressBookContentProvider.java:237-238 | an updated row takes the put columns' new values and keeps the other columns |
| Contacts.ApplyIdempotent | app/src/main/java/com/deitel/addressbook/data/AddressBookContentProvider.java:237-238 | writing the same values twice leaves the row as one write does |
| Contacts.ApplyAllColumns | app/src/main/java/com/deitel/addressbook/AddEditFragment.java:199-235 | an update that puts all seven columns, as the edit form does, leaves the row an insert of those values would create |
| ContentProvider.RowsInScope | app/src/main/java/com/deitel/addressbook/data/AddressBookContentProvider.java:111-124 | with no scope every row of the table is admitted. With an id scope, exactly the row with that key is admitted if present, and nothing else. Rows come back unchanged |
| ContentProvider.StoreUpdate | app/src/main/java/com/deitel/addressbook/data/AddressBookContentProvider.java:237-238 | an update scoped to `_id=<id>` writes only that row, keeps the key set, and counts 1 exactly when the key exists |
| ContentProvider.StoreDelete | app/src/main/java/com/deitel/addressbook/data/AddressBookContentProvider.java:294-295 | a delete scoped to `_id=<id>` removes only that key and counts 1 exactly when it existed |
| ContentProvider.Query | app/src/main/java/com/deitel/addressbook/data/AddressBookContentProvider.java:95-154 | succeeds exactly for table and contact URIs without bind arguments that lack a selection. Any other URI throws UnsupportedOperation; such arguments make the store throw IllegalArgumentException. A contact URI restricts the rows to its key; the table URI restricts nothing. Projection, selection, arguments and order pass through unchanged |
| ContentProvider.Insert | app/src/main/java/com/deitel/addressbook/data/AddressBookContentProvider.java:169-206 | succeeds only for the table URI with at least one value put and a positive store id. It returns buildContactUri(id), adds exactly that row with the given values and notifies the table URI once. Any other URI gets UnsupportedOperation; no values or a non-positive id gets SQLException with no notification |
| ContentProvider.Update | app/src/main/java/com/deitel/addressbook/data/AddressBookContentProvider.java:220-258 | succeeds only for a contact URI with values to write and no bind arguments. Any other URI gets UnsupportedOperation. Empty values or bind arguments make the store refuse, with nothing written or notified. On success it writes only the row with the URI's key and returns 1 if that row exists, else 0. Other rows are unchanged. The URI is notified exactly when the count is non-zero |
| ContentProvider.Delete | app/src/main/java/com/deitel/addressbook/data/AddressBookContentProvider.java:274-312 | succeeds only for a contact URI with no bind arguments. Any other URI gets UnsupportedOperation. Bind arguments make the store refuse. On success it removes only the row with the URI's key and returns 1 if it existed, else 0. Other rows are unchanged. The URI is notified exactly when the count is non-zero |
| ProviderProperties.AllowedUriShapes | app/src/main/java/com/deitel/addressbook/data/AddressBookContentProvider.java:111-302 | insert accepts exactly the table URI, update and delete exactly contact URIs, query exactly either |
| ProviderProperties.UnmatchedUriRejected | app/src/main/java/com/deitel/addressbook/data/AddressBookContentProvider.java:126-301 | a URI that is neither shape makes every operation throw UnsupportedOperation; query never falls back to all contacts |
| ProviderProperties.WrongKindRejected | app/src/main/java/com/deitel/addressbook/data/AddressBookContentProvider.java:199-301 | insert rejects every contact URI, and update and delete reject the table URI |
| ProviderProperties.InsertThenQuery | app/src/main/java/com/deitel/addressbook/data/AddressBookContentProvider.java:169-206 | for an insert that puts at least one value, querying the URI it returns yields exactly the inserted row with the values put; the table URI is notified once |
| ProviderProperties.UpdateThenQuery | app/src/main/java/com/deitel/addressbook/data/AddressBookContentProvider.java:229-257 | after updating an existing contact with values and no bind arguments, re-querying it shows the put columns changed and the rest kept. The count is 1, the item URI is notified once, and no other row changes |
| ProviderProperties.UpdateMissingRow | app/src/main/java/com/deitel/addressbook/data/AddressBookContentProvider.java:237-253 | updating an absent key (with values, no bind arguments) returns 0 and leaves table and log unchanged |
| ProviderProperties.UpdateTwice | app/src/main/java/com/deitel/addressbook/data/AddressBookContentProvider.java:237-238 | repeating an update that has values leaves the same table and returns the same count |
| ProviderProperties.DeleteTwice | app/src/main/java/com/deitel/addressbook/data/AddressBookContentProvider.java:284-311 | deleting a key twice returns 1 (or 0 if absent) and then 0; only the first call can notify, and the second changes nothing |
| ProviderProperties.DeleteNotifiesIffChanged | app/src/main/java/com/deitel/addressbook/data/AddressBookContentProvider.java:294-308 | a delete appends to the log if and only if it changed the table |
| ProviderProperties.SelectionIgnored | app/src/main/java/com/deitel/addressbook/data/AddressBookContentProvider.java:237-295 | update and delete results do not depend on the caller's selection string |
| ProviderProperties.StoreRefusals | app/src/main/java/com/deitel/addressbook/data/AddressBookContentProvider.java:95-295 | on a contact URI, non-empty selectionArgs make update and delete fail before any write or notification. So does an update with no values, and an insert with no values on the table URI, whatever id the store would give. A query with no selection and non-empty selectionArgs fails on both URIs |
| ProviderProperties.NotificationLogAppendOnly | app/src/main/java/com/deitel/addressbook/data/AddressBookContentProvider.java:193-307 | every successful write leaves the log as it was or appends exactly the URI it was called with |
| ProviderProperties.WritesPreserveKeysPositive | app/src/main/java/com/deitel/addressbook/data/AddressBookContentProvider.java:191 | if every key is positive before a write, every key is positive after it |
| ProviderProperties.DeleteFirstOfTwo | app/src/main/java/com/deitel/addressbook/data/AddressBookContentProvider.java:284-308 | with keys 1 and 2 present, deleting contact 1 counts 1 and appends its URI. Deleting it again counts 0 and leaves the state as it was |
| ProviderProperties.AdaAndBob | app/src/main/java/com/deitel/addressbook/data/AddressBookContentProvider.java:169-312 | inserting two non-empty contacts and deleting the first twice gives the notifications [table, table, first contact]. The second delete returns 0 and the table keeps only the second contact |

## Left out

- SQLite itself is not modelled. A query's `selection`, `projection` and
  `sortOrder` (including `COLLATE NOCASE` in `ContactsFragment.java`) are
  passed through as data but not evaluated. `Query` returns the rows its id
  scope admits, before the store filters, projects and sorts them.
- Four store failures are modelled: an insert's non-positive row id, an
  insert or update with no values, and bind arguments for a where clause that
  has no placeholder (in a query, update or delete). Other SQLite failures of
  the four operations are not modelled, for example an I/O error or a locked
  database.
- ContentProvider.Query: a query that passes a selection succeeds whatever its
  text and bind arguments, so the store's refusal of a malformed selection, or
  of more arguments than the selection has `?` placeholders, is not modelled:
  counting placeholders needs SQL's lexer. Every loader passes a null
  selection and null arguments (`ContactsFragment.java`, `DetailFragment.java`,
  `AddEditFragment.java`).
- Observer propagation is not modelled. That covers what `notifyChange` does
  inside `ContentResolver`, and the cursor's `setNotificationUri`. Only the
  URIs passed to `notifyChange` are recorded.
- The loaders and the subscription state machine are not part of this model.
  They live in the framework and in the UI fragments.
- The UI and navigation (activities, fragments, adapter, dialogs) are not
  modelled, since they are not provider behaviour. That includes the edit
  form showing its save button only for a non-blank name, which is a caller
  precondition.
- `getType` (returns null) and `onCreate` (creates the helper, which opens the database lazily) carry no logic to
  model.
- The database helper's `CREATE TABLE` text and the empty `onUpgrade` are not
  modelled. The table's shape is the `Record` datatype.
- Each error carries the URI of the call, and the operation where the error kind does not imply it. Message text is
  not modelled.
- Values name only the seven text columns, so a `ContentValues`
  holding `_id` (which would move the updated row to another key) or an
  unknown column (which the store rejects) is not modelled. The edit form in
  `AddEditFragment.java`, the only caller that passes values, puts exactly
  those seven.
- Ids are unbounded integers. The 64-bit `long` range of row ids is not
  enforced. A digit segment too large for a `long` is read as its exact
  value rather than as SQLite's real-number comparison.
- Percent-encoding of path segments is not modelled. Segments are decoded
  strings without slashes.
