/** The content provider: query, insert, update and delete dispatched on the
    URI matcher's classification, single-row writes scoped to the key in the
    URI, and the URIs passed to `notifyChange` recorded in order. */
module ContentProvider {
  import opened Results
  import opened Uris
  import opened DatabaseDescription
  import opened UriMatcher
  import opened Contacts

  /** The provider's observable state: the contacts table and every URI
      handed to `notifyChange`, oldest first. */
  datatype Provider = Provider(table: Table, notifications: seq<Uri>)

  datatype Operation = QueryOp | InsertOp | UpdateOp | DeleteOp

  /** The exceptions the operations throw: `UnsupportedOperationException`
      for a URI the operation does not accept, `SQLException` for an insert
      the store refused, and the `IllegalArgumentException` with which
      `SQLiteDatabase` refuses an update or delete before writing anything.
      Each carries the URI the call was made with. */
  datatype ProviderError =
    | Unsupported(op: Operation, uri: Uri)
    | InsertFailed(uri: Uri)
    | StoreRejected(op: Operation, uri: Uri)

  /** A completed write: the provider afterwards and the value returned. */
  datatype Reply<T> = Reply(state: Provider, value: T)

  /** The query the builder hands to the store: the table, the `_id`
      restriction added for a single contact, and the caller's projection,
      selection, selection arguments and sort order. */
  datatype ScopedQuery = ScopedQuery(
    table: string,
    idScope: Option<nat>,
    projection: Option<seq<string>>,
    selection: Option<string>,
    selectionArgs: Option<seq<string>>,
    sortOrder: Option<string>)

  /** A query's answer: the scoped query, and the rows its id scope admits
      (the store then applies the caller's selection, projection and order). */
  datatype Cursor = Cursor(query: ScopedQuery, rows: Table)

  /** Which URI kinds each operation accepts. */
  predicate Allows(op: Operation, m: Match) {
    match op
    case QueryOp => m == Collection || m.Item?
    case InsertOp => m == Collection
    case UpdateOp => m.Item?
    case DeleteOp => m.Item?
  }

  /** Every row except the one keyed `id` is present in both tables alike. */
  ghost predicate OthersUnchanged(before: Table, after: Table, id: nat) {
    forall k :: k != id ==> (k in before <==> k in after) && (k in before ==> before[k] == after[k])
  }

  /** The rows a `WHERE` clause admits: all of them, or those whose `_id`
      equals the scope. */
  function RowsInScope(table: Table, scope: Option<nat>): (rows: Table)
    ensures rows.Keys <= table.Keys
    ensures forall k :: k in rows ==> rows[k] == table[k]
    ensures scope.None? ==> rows == table
    ensures scope.Some? ==> rows.Keys == table.Keys * {scope.value}
  {
    match scope
    case None => table
    case Some(id) => if id in table then map[id := table[id]] else map[]
  }

  /** `SQLiteDatabase.update` with `_id=<id>` as its where clause: the row
      with that key gets the new values; the count of rows written. */
  function StoreUpdate(table: Table, id: nat, values: Values): (result: (Table, nat))
    ensures result.1 <= 1 && (result.1 == 1 <==> id in table)
    ensures result.0.Keys == table.Keys && OthersUnchanged(table, result.0, id)
    ensures id in table ==> result.0[id] == Apply(table[id], values)
  {
    if id in table then (table[id := Apply(table[id], values)], 1) else (table, 0)
  }

  /** `SQLiteDatabase.delete` with `_id=<id>` as its where clause. */
  function StoreDelete(table: Table, id: nat): (result: (Table, nat))
    ensures result.1 <= 1 && (result.1 == 1 <==> id in table)
    ensures id !in result.0 && OthersUnchanged(table, result.0, id)
  {
    if id in table then (table - {id}, 1) else (table, 0)
  }

  /** Bind arguments for the where clause `_id=<n>`, which has no `?`
      placeholder: `SQLiteDatabase` refuses any that are supplied. */
  predicate SurplusBindArgs(selectionArgs: Option<seq<string>>) {
    selectionArgs.Some? && |selectionArgs.value| > 0
  }

  /** A query whose where clause is the provider's own (`_id=<n>`, or none)
      because the caller gave no selection, so there is no `?` for the bind
      arguments to fill: `SQLiteQueryBuilder.query` refuses any supplied. */
  predicate UnplacedQueryArgs(selection: Option<string>, selectionArgs: Option<seq<string>>) {
    selection.None? && SurplusBindArgs(selectionArgs)
  }

  /** `query`: a single-contact URI restricts the rows to that key, the table
      URI adds no restriction, any other URI throws before the store is read.
      The caller's projection, selection, arguments and order pass through;
      the store refuses bind arguments when there is no selection to hold them. */
  function Query(p: Provider, uri: Uri, projection: Option<seq<string>>, selection: Option<string>,
                 selectionArgs: Option<seq<string>>, sortOrder: Option<string>): (r: Result<Cursor, ProviderError>)
    ensures r.Success? <==> Allows(QueryOp, Classify(uri)) && !UnplacedQueryArgs(selection, selectionArgs)
    ensures !Allows(QueryOp, Classify(uri)) ==> r == Failure(Unsupported(QueryOp, uri))
    ensures Allows(QueryOp, Classify(uri)) && UnplacedQueryArgs(selection, selectionArgs) ==>
      r == Failure(StoreRejected(QueryOp, uri))
    ensures r.Success? ==>
      && r.value.query.table == TABLE_NAME
      && r.value.query.projection == projection && r.value.query.selection == selection
      && r.value.query.selectionArgs == selectionArgs && r.value.query.sortOrder == sortOrder
    ensures Classify(uri) == Collection && !UnplacedQueryArgs(selection, selectionArgs) ==>
      r.Success? && r.value.query.idScope == None && r.value.rows == p.table
    ensures Classify(uri).Item? && !UnplacedQueryArgs(selection, selectionArgs) ==>
      var id := Classify(uri).id;
      && r.Success? && r.value.query.idScope == Some(id)
      && r.value.rows.Keys == p.table.Keys * {id}
      && (id in p.table ==> r.value.rows[id] == p.table[id])
  {
    var scope :=
      match Classify(uri)
      case Item(id) => Success(Some(id))
      case Collection => Success(None)
      case NoMatch => Failure(Unsupported(QueryOp, uri));
    if scope.Failure? then Failure(scope.error)
    else if UnplacedQueryArgs(selection, selectionArgs) then Failure(StoreRejected(QueryOp, uri))
    else
      var q := ScopedQuery(TABLE_NAME, scope.value, projection, selection, selectionArgs, sortOrder);
      Success(Cursor(q, RowsInScope(p.table, q.idScope)))
  }

  /** `insert`: only the table URI is accepted. The store's answer `rowId`
      is the new key, or zero or less when it refused the row; with no
      values and no null-column hack the store always refuses, since
      `INSERT INTO contacts(null) VALUES (NULL)` is not valid SQL. On success
      the new contact's URI is returned and the table URI notified once. */
  function Insert(p: Provider, uri: Uri, values: Values, rowId: int): (r: Result<Reply<Uri>, ProviderError>)
    requires rowId > 0 ==> rowId as nat !in p.table
    ensures r.Success? <==> Classify(uri) == Collection && rowId > 0 && |values| > 0
    ensures Classify(uri) != Collection ==> r == Failure(Unsupported(InsertOp, uri))
    ensures Classify(uri) == Collection && (rowId <= 0 || |values| == 0) ==> r == Failure(InsertFailed(uri))
    ensures r.Success? ==>
      var after := r.value.state;
      && r.value.value == BuildContactUri(rowId)
      && rowId as nat in after.table && after.table[rowId as nat] == FromValues(values)
      && after.table.Keys == p.table.Keys + {rowId as nat}
      && OthersUnchanged(p.table, after.table, rowId as nat)
      && after.notifications == p.notifications + [uri]
  {
    if Classify(uri) != Collection then Failure(Unsupported(InsertOp, uri))
    else if rowId <= 0 || |values| == 0 then Failure(InsertFailed(uri))
    else
      var key: nat := rowId;
      Success(Reply(Provider(p.table[key := FromValues(values)], p.notifications + [uri]), BuildContactUri(rowId)))
  }

  /** `update`: only a single-contact URI is accepted. The write is scoped to
      the key in the URI whatever `selection` says; the URI is notified
      exactly when a row was written. The store refuses an update with no
      values, or with bind arguments the where clause has no place for. */
  function Update(p: Provider, uri: Uri, values: Values, selection: Option<string>,
                  selectionArgs: Option<seq<string>>): (r: Result<Reply<nat>, ProviderError>)
    ensures r.Success? <==> Allows(UpdateOp, Classify(uri)) && |values| > 0 && !SurplusBindArgs(selectionArgs)
    ensures !Allows(UpdateOp, Classify(uri)) ==> r == Failure(Unsupported(UpdateOp, uri))
    ensures Allows(UpdateOp, Classify(uri)) && (|values| == 0 || SurplusBindArgs(selectionArgs)) ==>
      r == Failure(StoreRejected(UpdateOp, uri))
    ensures r.Success? ==>
      var id := Classify(uri).id;
      var after := r.value.state;
      && r.value.value == (if id in p.table then 1 else 0)
      && after.table.Keys == p.table.Keys
      && OthersUnchanged(p.table, after.table, id)
      && (id in p.table ==> after.table[id] == Apply(p.table[id], values))
      && after.notifications == p.notifications + (if r.value.value != 0 then [uri] else [])
  {
    match Classify(uri)
    case Item(id) =>
      if |values| == 0 || SurplusBindArgs(selectionArgs) then Failure(StoreRejected(UpdateOp, uri))
      else
        var (table, count) := StoreUpdate(p.table, id, values);
        Success(Reply(Provider(table, if count != 0 then p.notifications + [uri] else p.notifications), count))
    case _ => Failure(Unsupported(UpdateOp, uri))
  }

  /** `delete`: only a single-contact URI is accepted. The row with the key
      in the URI is removed whatever `selection` says; 1 if it existed, else
      0, and the URI is notified exactly when the count is non-zero. The
      store refuses bind arguments the where clause has no place for. */
  function Delete(p: Provider, uri: Uri, selection: Option<string>,
                  selectionArgs: Option<seq<string>>): (r: Result<Reply<nat>, ProviderError>)
    ensures r.Success? <==> Allows(DeleteOp, Classify(uri)) && !SurplusBindArgs(selectionArgs)
    ensures !Allows(DeleteOp, Classify(uri)) ==> r == Failure(Unsupported(DeleteOp, uri))
    ensures Allows(DeleteOp, Classify(uri)) && SurplusBindArgs(selectionArgs) ==>
      r == Failure(StoreRejected(DeleteOp, uri))
    ensures r.Success? ==>
      var id := Classify(uri).id;
      var after := r.value.state;
      && r.value.value == (if id in p.table then 1 else 0)
      && after.table.Keys == p.table.Keys - {id}
      && OthersUnchanged(p.table, after.table, id)
      && after.notifications == p.notifications + (if r.value.value != 0 then [uri] else [])
  {
    match Classify(uri)
    case Item(id) =>
      if SurplusBindArgs(selectionArgs) then Failure(StoreRejected(DeleteOp, uri))
      else
        var (table, count) := StoreDelete(p.table, id);
        Success(Reply(Provider(table, if count != 0 then p.notifications + [uri] else p.notifications), count))
    case _ => Failure(Unsupported(DeleteOp, uri))
  }
}
