/**
 The canonical document store of mailindex. The `documents` table decides what
 the search index should contain; every change of `index_state` is a
 compare-and-set on the hash of the raw message.
 */
module CanonicalStore {
  import opened Wrappers
  import opened Ordered
  import DocumentKey

  datatype IndexState = Pending | Indexed | Errored

  /** `content` stands for all columns and attachments derived from the message and its metadata. */
  datatype Doc = Doc(
    source: string,
    sourceId: string,
    hash: string,
    content: string,
    state: IndexState,
    error: Option<string>,
    attempts: nat)

  datatype Message = Message(source: string, sourceId: string, hash: string, content: string)

  /** Rows are never deleted, so `nextId` is one more than the largest id. */
  datatype Store = Store(rows: map<nat, Doc>, nextId: nat)

  function KeyOf(d: Doc): string {
    DocumentKey.Encode(d.source, d.sourceId)
  }

  predicate SameIdentity(a: Doc, b: Doc) {
    a.source == b.source && a.sourceId == b.sourceId
  }

  ghost predicate Valid(store: Store) {
    (forall id :: id in store.rows ==> 0 < id < store.nextId) && 0 < store.nextId &&
    (forall i, j {:trigger SameIdentity(store.rows[i], store.rows[j])} ::
      i in store.rows && j in store.rows && SameIdentity(store.rows[i], store.rows[j]) ==> i == j)
  }

  /** Different rows have different index keys. */
  lemma KeysAreDistinct(store: Store, i: nat, j: nat)
    requires Valid(store) && i in store.rows && j in store.rows && KeyOf(store.rows[i]) == KeyOf(store.rows[j])
    ensures i == j
  {
    var a, b := store.rows[i], store.rows[j];
    DocumentKey.Injective(a.source, a.sourceId, b.source, b.sourceId);
    assert SameIdentity(store.rows[i], store.rows[j]);
  }

  // ---------- statements ----------

  predicate IsRowOf(store: Store, id: nat, source: string, sourceId: string) {
    id in store.rows && store.rows[id].source == source && store.rows[id].sourceId == sourceId
  }

  function Find(store: Store, source: string, sourceId: string): set<nat> {
    set id | id in store.rows && IsRowOf(store, id, source, sourceId)
  }

  function PendingDoc(m: Message, attempts: nat): Doc {
    Doc(m.source, m.sourceId, m.hash, m.content, Pending, None, attempts)
  }

  /** An unchanged hash leaves the row alone, whatever else the message says. */
  function Upsert(store: Store, m: Message): Store {
    var found := Find(store, m.source, m.sourceId);
    if |found| == 0 then Store(store.rows[store.nextId := PendingDoc(m, 0)], store.nextId + 1)
    else
      var id := Min(found);
      if store.rows[id].hash == m.hash then store
      else store.(rows := store.rows[id := PendingDoc(m, store.rows[id].attempts)])
  }

  function SetState(store: Store, id: nat, state: IndexState, error: Option<string>, attempts: nat): Store
    requires id in store.rows
  {
    store.(rows := store.rows[id := store.rows[id].(state := state, error := error, attempts := attempts)])
  }

  predicate IsVersion(store: Store, id: nat, hash: string) {
    id in store.rows && store.rows[id].hash == hash
  }

  function MarkIndexed(store: Store, id: nat, hash: string): Store {
    if IsVersion(store, id, hash) && store.rows[id].state.Pending?
    then SetState(store, id, Indexed, None, store.rows[id].attempts) else store
  }

  function MarkError(store: Store, id: nat, hash: string, error: string): Store {
    if IsVersion(store, id, hash) && store.rows[id].state.Pending?
    then SetState(store, id, Errored, Some(error), store.rows[id].attempts + 1) else store
  }

  /** The rebuild's mark: the hash must match, the state may be anything. */
  function MarkVersion(store: Store, id: nat, hash: string): Store {
    if IsVersion(store, id, hash) then SetState(store, id, Indexed, None, store.rows[id].attempts) else store
  }

  function MarkVersions(store: Store, versions: seq<(nat, string)>): Store
    decreases |versions|
  {
    if |versions| == 0 then store
    else
      var last := versions[|versions| - 1];
      MarkVersion(MarkVersions(store, versions[..|versions| - 1]), last.0, last.1)
  }

  function Requeue(store: Store, source: string, sourceId: string): Store {
    var found := Find(store, source, sourceId);
    if |found| == 0 then store
    else SetState(store, Min(found), Pending, None, store.rows[Min(found)].attempts)
  }

  function PendingIds(store: Store): set<nat> {
    set id | id in store.rows && store.rows[id].state.Pending?
  }

  /** `WHERE index_state = 'pending' ORDER BY id LIMIT ?1` */
  function PendingScan(store: Store, limit: nat): seq<nat> {
    Limit(Sorted(PendingIds(store)), limit)
  }

  /** `WHERE id > ?1 ORDER BY id LIMIT ?2` */
  function ScanAfter(store: Store, after: nat, limit: nat): seq<nat> {
    Limit(Sorted(set id | id in store.rows && id > after), limit)
  }

  // ---------- what every statement keeps ----------

  /** Rows stay, keep their identity, and become indexed only through a mark. */
  ghost predicate Evolves(before: Store, after: Store) {
    Valid(after) && before.nextId <= after.nextId &&
    (forall id :: id in before.rows ==> id in after.rows && SameIdentity(before.rows[id], after.rows[id])) &&
    (forall id :: id in after.rows && id !in before.rows ==> before.nextId <= id)
  }

  /** Additionally nothing becomes indexed: an indexed row was indexed before, unchanged. */
  ghost predicate Unmarks(before: Store, after: Store) {
    Evolves(before, after) &&
    (forall id :: id in after.rows && after.rows[id].state.Indexed? ==>
      id in before.rows && before.rows[id] == after.rows[id])
  }

  lemma SetStateEvolves(store: Store, id: nat, state: IndexState, error: Option<string>, attempts: nat)
    requires Valid(store) && id in store.rows
    ensures Evolves(store, SetState(store, id, state, error, attempts))
    ensures !state.Indexed? ==> Unmarks(store, SetState(store, id, state, error, attempts))
  {
    var after := SetState(store, id, state, error, attempts);
    forall i, j | i in after.rows && j in after.rows && SameIdentity(after.rows[i], after.rows[j]) ensures i == j {
      assert SameIdentity(store.rows[i], store.rows[j]);
    }
  }

  lemma UpsertKeepsValid(store: Store, m: Message)
    requires Valid(store)
    ensures Valid(Upsert(store, m))
  {
    var after := Upsert(store, m);
    assert forall id :: id in store.rows && IsRowOf(store, id, m.source, m.sourceId) ==>
        id in Find(store, m.source, m.sourceId);
    forall i, j | i in after.rows && j in after.rows && SameIdentity(after.rows[i], after.rows[j]) ensures i == j {
      if i in store.rows && j in store.rows { assert SameIdentity(store.rows[i], store.rows[j]); }
    }
  }

  lemma UpsertEvolves(store: Store, m: Message)
    requires Valid(store)
    ensures Unmarks(store, Upsert(store, m))
  {
    UpsertKeepsValid(store, m);
    var found := Find(store, m.source, m.sourceId);
    assert |found| > 0 ==> Min(found) in found;
  }

  /**
   After an upload the row of the identity holds the uploaded version: the message's
   content under its hash, pending, or, if the hash is unchanged, the row as it was.
   */
  lemma UpsertStoresVersion(store: Store, m: Message)
    requires Valid(store)
    ensures exists id :: Uploaded(store, Upsert(store, m), m, id)
    ensures forall id :: id in store.rows && !IsRowOf(store, id, m.source, m.sourceId) ==>
                           Upsert(store, m).rows[id] == store.rows[id]
  {
    var found := Find(store, m.source, m.sourceId);
    var id := if |found| == 0 then store.nextId else Min(found);
    assert |found| > 0 ==> id in found;
    forall other | other in store.rows && IsRowOf(store, other, m.source, m.sourceId) ensures other in found {}
    assert Uploaded(store, Upsert(store, m), m, id);
    forall other | other in store.rows && !IsRowOf(store, other, m.source, m.sourceId)
      ensures Upsert(store, m).rows[other] == store.rows[other]
    {
      assert other !in found;
    }
  }

  /** What an upload leaves in row `id`. */
  ghost predicate Uploaded(before: Store, after: Store, m: Message, id: nat) {
    id in after.rows &&
    var row := after.rows[id];
    row.source == m.source && row.sourceId == m.sourceId && row.hash == m.hash &&
    if id in before.rows && before.rows[id].hash == m.hash then row == before.rows[id]
    else
      && row.content == m.content && row.state == Pending && row.error.None?
      && row.attempts == (if id in before.rows then before.rows[id].attempts else 0)
      && (id in before.rows ==> before.rows[id].source == m.source && before.rows[id].sourceId == m.sourceId)
      && (id !in before.rows ==> forall other :: other in before.rows ==> !IsRowOf(before, other, m.source, m.sourceId))
  }

  /** No mark and no requeue changes what a row holds. */
  ghost predicate KeepsVersions(before: Store, after: Store) {
    after.rows.Keys == before.rows.Keys && after.nextId == before.nextId &&
    forall id :: id in after.rows ==>
      && after.rows[id].hash == before.rows[id].hash && after.rows[id].content == before.rows[id].content
      && after.rows[id].source == before.rows[id].source && after.rows[id].sourceId == before.rows[id].sourceId
  }

  lemma SetStateKeepsVersions(store: Store, id: nat, state: IndexState, error: Option<string>, attempts: nat)
    requires id in store.rows
    ensures KeepsVersions(store, SetState(store, id, state, error, attempts))
  {
  }

  lemma StatementsKeepVersions(store: Store, id: nat, hash: string, error: string, source: string, sourceId: string)
    ensures KeepsVersions(store, MarkIndexed(store, id, hash))
            && KeepsVersions(store, MarkError(store, id, hash, error))
    ensures KeepsVersions(store, Requeue(store, source, sourceId))
  {
    if IsVersion(store, id, hash) && store.rows[id].state.Pending? {
      SetStateKeepsVersions(store, id, Indexed, None, store.rows[id].attempts);
      SetStateKeepsVersions(store, id, Errored, Some(error), store.rows[id].attempts + 1);
    }
    var found := Find(store, source, sourceId);
    if |found| > 0 { SetStateKeepsVersions(store, Min(found), Pending, None, store.rows[Min(found)].attempts); }
  }

  lemma {:induction false} MarksKeepVersions(store: Store, versions: seq<(nat, string)>)
    ensures KeepsVersions(store, MarkVersions(store, versions))
    decreases |versions|
  {
    if |versions| > 0 { MarksKeepVersions(store, versions[..|versions| - 1]); }
  }

  lemma RequeueEvolves(store: Store, source: string, sourceId: string)
    requires Valid(store)
    ensures Unmarks(store, Requeue(store, source, sourceId))
  {
    var found := Find(store, source, sourceId);
    if |found| > 0 {
      SetStateEvolves(store, Min(found), Pending, None, store.rows[Min(found)].attempts);
    }
  }

  // ---------- the table in place ----------

  class Repository {
    var rows: map<nat, Doc>
    var nextId: nat

    constructor (store: Store)
      ensures Contents() == store
    {
      rows, nextId := store.rows, store.nextId;
    }

    function Contents(): Store
      reads this
    {
      Store(rows, nextId)
    }

    method Upload(m: Message) returns (id: nat, changed: bool)
      modifies this
      ensures Contents() == Upsert(old(Contents()), m)
      ensures changed <==> Contents() != old(Contents())
      ensures Valid(old(Contents())) ==> Uploaded(old(Contents()), Contents(), m, id)
      ensures IsRowOf(Contents(), id, m.source, m.sourceId) && IsVersion(Contents(), id, m.hash)
      ensures changed ==>
                rows == old(rows)[id := rows[id]] && rows[id].content == m.content && rows[id].state == Pending
    {
      var found := Find(Contents(), m.source, m.sourceId);
      assert forall other :: other in rows && IsRowOf(Contents(), other, m.source, m.sourceId) ==> other in found;
      assert |found| > 0 ==> Min(found) in found;
      if |found| > 0 {
        id := Min(found);
        if rows[id].hash == m.hash {
          return id, false;
        }
        rows := rows[id := Doc(m.source, m.sourceId, m.hash, m.content, Pending, None, rows[id].attempts)];
        assert old(rows)[id] != rows[id];
      } else {
        id := nextId;
        rows := rows[id := Doc(m.source, m.sourceId, m.hash, m.content, Pending, None, 0)];
        nextId := nextId + 1;
      }
      changed := true;
    }

    method MarkAsIndexed(id: nat, hash: string)
      modifies this
      ensures Contents() == MarkIndexed(old(Contents()), id, hash)
      ensures rows == if id in old(rows) && old(rows)[id].hash == hash && old(rows)[id].state == Pending
                      then old(rows)[id := old(rows)[id].(state := Indexed, error := None)] else old(rows)
    {
      if id in rows && rows[id].hash == hash && rows[id].state == Pending {
        rows := rows[id := rows[id].(state := Indexed, error := None)];
      }
    }

    method MarkAsError(id: nat, hash: string, error: string)
      modifies this
      ensures Contents() == MarkError(old(Contents()), id, hash, error)
      ensures rows == if id in old(rows) && old(rows)[id].hash == hash && old(rows)[id].state == Pending
                      then old(rows)[id := old(rows)[id].(state := Errored, error := Some(error),
                                                         attempts := old(rows)[id].attempts + 1)]
                      else old(rows)
    {
      if id in rows && rows[id].hash == hash && rows[id].state == Pending {
        rows := rows[id := rows[id].(state := Errored, error := Some(error), attempts := rows[id].attempts + 1)];
      }
    }

    method MarkIndexedVersions(versions: seq<(nat, string)>)
      modifies this
      ensures Contents() == MarkVersions(old(Contents()), versions)
      ensures KeepsVersions(old(Contents()), Contents())
    {
      MarksKeepVersions(Contents(), versions);
      for i := 0 to |versions|
        invariant Contents() == MarkVersions(old(Contents()), versions[..i])
      {
        assert versions[..i + 1][..i] == versions[..i];
        var (id, hash) := versions[i];
        if id in rows && rows[id].hash == hash {
          rows := rows[id := rows[id].(state := Indexed, error := None)];
        }
      }
      assert versions[..|versions|] == versions;
    }

    method RequeueDocument(source: string, sourceId: string) returns (id: Option<nat>)
      modifies this
      ensures Contents() == Requeue(old(Contents()), source, sourceId)
      ensures id.None? <==> |Find(old(Contents()), source, sourceId)| == 0
      ensures id.Some? ==> IsRowOf(Contents(), id.value, source, sourceId)
      ensures id.Some? ==> rows == old(rows)[id.value := old(rows)[id.value].(state := Pending, error := None)]
    {
      var found := Find(Contents(), source, sourceId);
      if |found| == 0 {
        return None;
      }
      id := Some(Min(found));
      rows := rows[id.value := rows[id.value].(state := Pending, error := None)];
    }
  }
}
