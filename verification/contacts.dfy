/** A contact row as the store holds it, and the column/value pairs
    (`ContentValues`) that inserts and updates carry. */
module Contacts {
  import opened Results
  import opened DatabaseDescription

  /** The seven TEXT columns of one row; `None` is SQL NULL. */
  datatype Record = Record(
    name: Option<string>,
    phone: Option<string>,
    email: Option<string>,
    street: Option<string>,
    city: Option<string>,
    state: Option<string>,
    zip: Option<string>)

  /** Column/value pairs over the seven text columns (`_id` and unknown
      column names cannot be put); a column absent from the map was not put. */
  type Values = map<Column, Option<string>>

  /** The table: rows by primary key. */
  type Table = map<nat, Record>

  function Field(r: Record, c: Column): Option<string>
  {
    match c
    case Name => r.name
    case Phone => r.phone
    case Email => r.email
    case Street => r.street
    case City => r.city
    case State => r.state
    case Zip => r.zip
  }

  /** The value a column ends up with when `values` is written over `previous`. */
  function Written(values: Values, previous: Option<string>, c: Column): Option<string>
  {
    if c in values then values[c] else previous
  }

  /** The row an insert creates: each column put gets its value, every other
      column is NULL. */
  function FromValues(values: Values): (r: Record)
    ensures forall c :: Field(r, c) == Written(values, None, c)
  {
    Record(
      Written(values, None, Name), Written(values, None, Phone), Written(values, None, Email),
      Written(values, None, Street), Written(values, None, City), Written(values, None, State),
      Written(values, None, Zip))
  }

  /** The row an update leaves: the columns put take their new values, the
      others keep theirs. */
  function Apply(r: Record, values: Values): (r': Record)
    ensures forall c :: Field(r', c) == Written(values, Field(r, c), c)
  {
    Record(
      Written(values, r.name, Name), Written(values, r.phone, Phone), Written(values, r.email, Email),
      Written(values, r.street, Street), Written(values, r.city, City), Written(values, r.state, State),
      Written(values, r.zip, Zip))
  }

  /** Two rows agreeing on every column are the same row. */
  lemma RecordExtensionality(a: Record, b: Record)
    requires forall c :: Field(a, c) == Field(b, c)
    ensures a == b
  {
    assert Field(a, Name) == Field(b, Name) && Field(a, Phone) == Field(b, Phone);
    assert Field(a, Email) == Field(b, Email) && Field(a, Street) == Field(b, Street);
    assert Field(a, City) == Field(b, City) && Field(a, State) == Field(b, State);
    assert Field(a, Zip) == Field(b, Zip);
  }

  /** Writing the same values twice leaves the row as writing them once. */
  lemma ApplyIdempotent(r: Record, values: Values)
    ensures Apply(Apply(r, values), values) == Apply(r, values)
  {
    RecordExtensionality(Apply(Apply(r, values), values), Apply(r, values));
  }

  /** Writing every column replaces the row by the one an insert would make. */
  lemma ApplyAllColumns(r: Record, values: Values)
    requires forall c: Column :: c in values
    ensures Apply(r, values) == FromValues(values)
  {
    RecordExtensionality(Apply(r, values), FromValues(values));
  }
}
