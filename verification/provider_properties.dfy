/** Properties that relate several provider operations, or an operation and
    the URIs `DatabaseDescription` builds. */
module ProviderProperties {
  import opened Results
  import opened Uris
  import opened DatabaseDescription
  import opened UriMatcher
  import opened Contacts
  import opened ContentProvider

  /** The dispatch table in terms of URI shapes: insert takes the table URI
      only, update and delete a contact URI only, query either. */
  lemma AllowedUriShapes(u: Uri)
    ensures Allows(InsertOp, Classify(u)) <==> IsTableUri(u)
    ensures Allows(UpdateOp, Classify(u)) <==> IsContactUri(u)
    ensures Allows(DeleteOp, Classify(u)) <==> IsContactUri(u)
    ensures Allows(QueryOp, Classify(u)) <==> IsTableUri(u) || IsContactUri(u)
  {
  }

  /** A URI the matcher rejects is rejected by every operation and never
      reaches the store: in particular it is never read as "all contacts". */
  lemma UnmatchedUriRejected(p: Provider, uri: Uri, values: Values, rowId: int,
                             projection: Option<seq<string>>, selection: Option<string>,
                             selectionArgs: Option<seq<string>>, sortOrder: Option<string>)
    requires rowId > 0 ==> rowId as nat !in p.table
    requires !IsTableUri(uri) && !IsContactUri(uri)
    ensures Query(p, uri, projection, selection, selectionArgs, sortOrder) == Failure(Unsupported(QueryOp, uri))
    ensures Insert(p, uri, values, rowId) == Failure(Unsupported(InsertOp, uri))
    ensures Update(p, uri, values, selection, selectionArgs) == Failure(Unsupported(UpdateOp, uri))
    ensures Delete(p, uri, selection, selectionArgs) == Failure(Unsupported(DeleteOp, uri))
  {
  }

  /** Insert refuses every contact URI; update and delete refuse the table URI. */
  lemma WrongKindRejected(p: Provider, id: int, values: Values, rowId: int,
                          selection: Option<string>, selectionArgs: Option<seq<string>>)
    requires rowId > 0 ==> rowId as nat !in p.table
    ensures Insert(p, BuildContactUri(id), values, rowId) == Failure(Unsupported(InsertOp, BuildContactUri(id)))
    ensures Update(p, CONTENT_URI, values, selection, selectionArgs) == Failure(Unsupported(UpdateOp, CONTENT_URI))
    ensures Delete(p, CONTENT_URI, selection, selectionArgs) == Failure(Unsupported(DeleteOp, CONTENT_URI))
  {
    ContentUriIsCollection();
    if id >= 0 {
      BuildContactUriRoundTrip(id);
    } else {
      NegativeContactUriRejected(id);
    }
  }

  /** Insert then query the returned URI: exactly the inserted row comes
      back, each column holding the value put (NULL when none was), and the
      table URI was notified once. */
  lemma InsertThenQuery(p: Provider, values: Values, rowId: int)
    requires rowId > 0 && rowId as nat !in p.table && |values| > 0
    ensures
      var r := Insert(p, CONTENT_URI, values, rowId);
      && r.Success?
      && r.value.state.notifications == p.notifications + [CONTENT_URI]
      && var q := Query(r.value.state, r.value.value, None, None, None, None);
      && q.Success?
      && q.value.rows.Keys == {rowId as nat}
      && forall c :: Field(q.value.rows[rowId as nat], c) == (if c in values then values[c] else None)
  {
    ContentUriIsCollection();
    BuildContactUriRoundTrip(rowId);
  }

  /** Update a contact then query it, with values to write and no bind
      arguments as the edit form does: the columns put change, the others keep
      their values, and no other row is touched. */
  lemma UpdateThenQuery(p: Provider, id: nat, values: Values, selection: Option<string>)
    requires id in p.table && |values| > 0
    ensures
      var u := BuildContactUri(id);
      var r := Update(p, u, values, selection, None);
      && r.Success? && r.value.value == 1
      && r.value.state.notifications == p.notifications + [u]
      && OthersUnchanged(p.table, r.value.state.table, id)
      && var q := Query(r.value.state, u, None, None, None, None);
      && q.Success? && q.value.rows.Keys == {id}
      && forall c :: Field(q.value.rows[id], c) == (if c in values then values[c] else Field(p.table[id], c))
  {
    BuildContactUriRoundTrip(id);
  }

  /** Updating a key that is not in the table writes nothing, returns 0 and
      notifies no one. */
  lemma UpdateMissingRow(p: Provider, id: nat, values: Values, selection: Option<string>)
    requires id !in p.table && |values| > 0
    ensures Update(p, BuildContactUri(id), values, selection, None) == Success(Reply(p, 0))
  {
    BuildContactUriRoundTrip(id);
  }

  /** Repeating an update leaves the table as one update does; each call that
      finds the row notifies again. */
  lemma UpdateTwice(p: Provider, id: nat, values: Values, selection: Option<string>)
    requires |values| > 0
    ensures
      var u := BuildContactUri(id);
      var first := Update(p, u, values, selection, None);
      && first.Success?
      && var second := Update(first.value.state, u, values, selection, None);
      && second.Success?
      && second.value.state.table == first.value.state.table
      && second.value.value == first.value.value
  {
    BuildContactUriRoundTrip(id);
    if id in p.table {
      ApplyIdempotent(p.table[id], values);
    }
  }

  /** Deleting the same contact twice: the first call returns 1 and notifies
      when the row existed, the second returns 0, changes nothing and does not
      notify. */
  lemma DeleteTwice(p: Provider, id: nat, selection: Option<string>)
    ensures
      var u := BuildContactUri(id);
      var first := Delete(p, u, selection, None);
      && first.Success?
      && first.value.value == (if id in p.table then 1 else 0)
      && (|first.value.state.notifications| == |p.notifications| + 1 <==> id in p.table)
      && var second := Delete(first.value.state, u, selection, None);
      && second == Success(Reply(first.value.state, 0))
  {
    BuildContactUriRoundTrip(id);
  }

  /** A delete notifies exactly when it changed the table. */
  lemma DeleteNotifiesIffChanged(p: Provider, uri: Uri, selection: Option<string>,
                                 selectionArgs: Option<seq<string>>)
    requires Delete(p, uri, selection, selectionArgs).Success?
    ensures
      var after := Delete(p, uri, selection, selectionArgs).value.state;
      after.notifications != p.notifications <==> after.table != p.table
  {
    var id := Classify(uri).id;
    var after := Delete(p, uri, selection, selectionArgs).value.state;
    if id in p.table {
      assert id !in after.table;
      assert |after.notifications| == |p.notifications| + 1;
    }
  }

  /** The update and delete results do not depend on the caller's selection:
      the where clause is the URI's key alone. */
  lemma SelectionIgnored(p: Provider, uri: Uri, values: Values, selection1: Option<string>,
                         selection2: Option<string>, selectionArgs: Option<seq<string>>)
    ensures Update(p, uri, values, selection1, selectionArgs) == Update(p, uri, values, selection2, selectionArgs)
    ensures Delete(p, uri, selection1, selectionArgs) == Delete(p, uri, selection2, selectionArgs)
  {
  }

  /** Bind arguments make every update or delete of a contact URI fail
      before anything is written or notified, and so does an update or an
      insert that puts no values, whatever row id the store would give. A
      query without a selection refuses bind arguments on either URI. */
  lemma StoreRefusals(p: Provider, id: nat, values: Values, selection: Option<string>,
                      selectionArgs: seq<string>, rowId: int)
    requires |selectionArgs| > 0
    requires rowId > 0 ==> rowId as nat !in p.table
    ensures Update(p, BuildContactUri(id), values, selection, Some(selectionArgs))
      == Failure(StoreRejected(UpdateOp, BuildContactUri(id)))
    ensures Delete(p, BuildContactUri(id), selection, Some(selectionArgs))
      == Failure(StoreRejected(DeleteOp, BuildContactUri(id)))
    ensures Update(p, BuildContactUri(id), map[], selection, None)
      == Failure(StoreRejected(UpdateOp, BuildContactUri(id)))
    ensures Insert(p, CONTENT_URI, map[], rowId) == Failure(InsertFailed(CONTENT_URI))
    ensures Query(p, BuildContactUri(id), None, None, Some(selectionArgs), None)
      == Failure(StoreRejected(QueryOp, BuildContactUri(id)))
    ensures Query(p, CONTENT_URI, None, None, Some(selectionArgs), None)
      == Failure(StoreRejected(QueryOp, CONTENT_URI))
  {
    BuildContactUriRoundTrip(id);
    ContentUriIsCollection();
  }

  /** The notification log only grows, by at most one URI per write, and that
      URI is the one the write was called with. */
  lemma NotificationLogAppendOnly(p: Provider, uri: Uri, values: Values, rowId: int,
                                  selection: Option<string>, selectionArgs: Option<seq<string>>)
    requires rowId > 0 ==> rowId as nat !in p.table
    ensures var r := Insert(p, uri, values, rowId);
      r.Success? ==> LogExtendedBy(p.notifications, r.value.state.notifications, uri)
    ensures var r := Update(p, uri, values, selection, selectionArgs);
      r.Success? ==> LogExtendedBy(p.notifications, r.value.state.notifications, uri)
    ensures var r := Delete(p, uri, selection, selectionArgs);
      r.Success? ==> LogExtendedBy(p.notifications, r.value.state.notifications, uri)
  {
  }

  /** `after` is `before` with nothing or `uri` appended. */
  ghost predicate LogExtendedBy(before: seq<Uri>, after: seq<Uri>, uri: Uri) {
    after == before || after == before + [uri]
  }

  /** Every key in the table is positive: the store hands out only positive
      row ids, and the provider adds a row only for a positive one. */
  ghost predicate KeysPositive(p: Provider) {
    forall k :: k in p.table ==> k > 0
  }

  lemma WritesPreserveKeysPositive(p: Provider, uri: Uri, values: Values, rowId: int,
                                   selection: Option<string>, selectionArgs: Option<seq<string>>)
    requires KeysPositive(p)
    requires rowId > 0 ==> rowId as nat !in p.table
    ensures Insert(p, uri, values, rowId).Success? ==> KeysPositive(Insert(p, uri, values, rowId).value.state)
    ensures Update(p, uri, values, selection, selectionArgs).Success? ==>
      KeysPositive(Update(p, uri, values, selection, selectionArgs).value.state)
    ensures Delete(p, uri, selection, selectionArgs).Success? ==>
      KeysPositive(Delete(p, uri, selection, selectionArgs).value.state)
  {
  }

  /** The provider after inserting `ada` under key 1, then `bob` under key 2. */
  function WithTwoContacts(ada: Values, bob: Values): Provider
  {
    Provider(map[1 := FromValues(ada), 2 := FromValues(bob)], [CONTENT_URI, CONTENT_URI])
  }

  /** The deletes of the two-contact scenario: removing key 1 counts 1 and
      notifies its URI, removing it again counts 0 and changes nothing. */
  lemma DeleteFirstOfTwo(ada: Values, bob: Values)
    ensures Delete(WithTwoContacts(ada, bob), BuildContactUri(1), None, None)
      == Success(Reply(Provider(map[2 := FromValues(bob)], [CONTENT_URI, CONTENT_URI, BuildContactUri(1)]), 1))
    ensures Delete(Provider(map[2 := FromValues(bob)], [CONTENT_URI, CONTENT_URI, BuildContactUri(1)]), BuildContactUri(1), None, None)
      == Success(Reply(Provider(map[2 := FromValues(bob)], [CONTENT_URI, CONTENT_URI, BuildContactUri(1)]), 0))
  {
    BuildContactUriRoundTrip(1);
    var both := WithTwoContacts(ada, bob).table;
    assert both - {1} == map[2 := FromValues(bob)];
    var last := Provider(map[2 := FromValues(bob)], [CONTENT_URI, CONTENT_URI, BuildContactUri(1)]);
    assert StoreDelete(both, 1) == (map[2 := FromValues(bob)], 1);
    assert [CONTENT_URI, CONTENT_URI] + [BuildContactUri(1)] == last.notifications;
    assert StoreDelete(last.table, 1) == (last.table, 0);
  }

  /** Two contacts inserted with keys 1 and 2, the first deleted twice: one
      notification per insert, one for the first delete, none for the second,
      and the table is left holding the second contact. */
  lemma AdaAndBob(ada: Values, bob: Values)
    requires |ada| > 0 && |bob| > 0
    ensures Insert(Provider(map[], []), CONTENT_URI, ada, 1)
      == Success(Reply(Provider(map[1 := FromValues(ada)], [CONTENT_URI]), BuildContactUri(1)))
    ensures Insert(Provider(map[1 := FromValues(ada)], [CONTENT_URI]), CONTENT_URI, bob, 2)
      == Success(Reply(WithTwoContacts(ada, bob), BuildContactUri(2)))
    ensures Delete(WithTwoContacts(ada, bob), BuildContactUri(1), None, None)
      == Success(Reply(Provider(map[2 := FromValues(bob)], [CONTENT_URI, CONTENT_URI, BuildContactUri(1)]), 1))
    ensures Delete(Provider(map[2 := FromValues(bob)], [CONTENT_URI, CONTENT_URI, BuildContactUri(1)]), BuildContactUri(1), None, None)
      == Success(Reply(Provider(map[2 := FromValues(bob)], [CONTENT_URI, CONTENT_URI, BuildContactUri(1)]), 0))
    ensures Query(Provider(map[2 := FromValues(bob)], [CONTENT_URI, CONTENT_URI, BuildContactUri(1)]), CONTENT_URI, None, None, None, None).value.rows
      == map[2 := FromValues(bob)]
  {
    ContentUriIsCollection();
    var first := Provider(map[1 := FromValues(ada)], [CONTENT_URI]);
    var noRows: Table := map[];
    var noUris: seq<Uri> := [];
    assert noRows[1 := FromValues(ada)] == first.table;
    assert noUris + [CONTENT_URI] == first.notifications;
    assert first.notifications + [CONTENT_URI] == [CONTENT_URI, CONTENT_URI];
    assert first.table[2 := FromValues(bob)] == WithTwoContacts(ada, bob).table;
    DeleteFirstOfTwo(ada, bob);
  }
}
