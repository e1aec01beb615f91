/**
 * The match repository: save, delete and score update mapped onto the
 * `matches` collection of a Firestore document store, and the snapshot
 * listener that turns the collection into a list, newest first.
 *
 * The remote store is a map from document key to document. A remote failure
 * (network, permissions) is a `fault` parameter; the server's clock, which
 * resolves `serverTimestamp()`, is a `serverSeconds` parameter.
 */
module MatchService {
  import opened Wrappers
  import opened JsValue
  import JsArray

  /** The outcome of a store call: whether it succeeded, and the collection afterwards. */
  datatype Written = Written(ok: bool, docs: map<string, Doc>)

  /**
   * The document key `doc(db, 'matches', id)` addresses, or None where the
   * call fails: the id is not a string or is empty. Every id containing `/`
   * is refused: doc() splits it into segments, throws for an odd number of
   * extra segments, and otherwise addresses a nested document or, with
   * leading or trailing slashes only, a plain one; those cases are outside
   * this model.
   */
  function DocKey(id: Value): Option<string> {
    match id
    case Str(s) => if s != "" && '/' !in s then Some(s) else None
    case _ => None
  }

  // ---------------------------------------------------------------------
  // The store's own write semantics (Firestore setDoc, updateDoc, deleteDoc)
  // ---------------------------------------------------------------------

  /** setDoc: the document is replaced as a whole; undefined field values are refused. */
  function SetDocSpec(docs: map<string, Doc>, key: string, data: Doc, fault: bool): Written {
    if !fault && !HasUndefinedField(data) then Written(true, docs[key := data]) else Written(false, docs)
  }

  /** updateDoc: only the named fields are overwritten; a missing document is an error. */
  function UpdateDocSpec(docs: map<string, Doc>, key: string, fields: Doc, fault: bool): Written {
    if !fault && key in docs && !HasUndefinedField(fields) then Written(true, docs[key := docs[key] + fields])
    else Written(false, docs)
  }

  /** deleteDoc: the key is removed; deleting a missing document succeeds. */
  function DeleteDocSpec(docs: map<string, Doc>, key: string, fault: bool): Written {
    if !fault then Written(true, docs - {key}) else Written(false, docs)
  }

  /** The `matches` collection of the remote store. */
  class Firestore {
    var docs: map<string, Doc>

    constructor (initial: map<string, Doc>)
      ensures docs == initial
    {
      docs := initial;
    }

    method SetDoc(key: string, data: Doc, fault: bool) returns (ok: bool)
      modifies this
      ensures Written(ok, docs) == SetDocSpec(old(docs), key, data, fault)
    {
      var w := SetDocSpec(docs, key, data, fault);
      ok, docs := w.ok, w.docs;
    }

    method UpdateDoc(key: string, fields: Doc, fault: bool) returns (ok: bool)
      modifies this
      ensures Written(ok, docs) == UpdateDocSpec(old(docs), key, fields, fault)
    {
      var w := UpdateDocSpec(docs, key, fields, fault);
      ok, docs := w.ok, w.docs;
    }

    method DeleteDoc(key: string, fault: bool) returns (ok: bool)
      modifies this
      ensures Written(ok, docs) == DeleteDocSpec(old(docs), key, fault)
    {
      var w := DeleteDocSpec(docs, key, fault);
      ok, docs := w.ok, w.docs;
    }
  }

  // ---------------------------------------------------------------------
  // The repository operations
  // ---------------------------------------------------------------------

  /** `{ ...matchData, updatedAt: serverTimestamp(), createdAt: matchData.createdAt || serverTimestamp() }` */
  function ToSave(matchData: Doc, serverSeconds: int): Doc {
    matchData + map["updatedAt" := Stamp(serverSeconds),
                    "createdAt" := Or(Get(matchData, "createdAt"), Stamp(serverSeconds))]
  }

  /** The fields updateMatchScore writes. */
  function ScorePatch(score: Value, serverSeconds: int): Doc {
    map["score" := score, "updatedAt" := Stamp(serverSeconds)]
  }

  /** saveMatch: every exception, local or remote, becomes `false`. */
  function SaveMatchSpec(docs: map<string, Doc>, matchData: Doc, serverSeconds: int, fault: bool): Written {
    match DocKey(Get(matchData, "id"))
    case None => Written(false, docs)
    case Some(key) => SetDocSpec(docs, key, ToSave(matchData, serverSeconds), fault)
  }

  /** deleteMatch */
  function DeleteMatchSpec(docs: map<string, Doc>, matchId: Value, fault: bool): Written {
    match DocKey(matchId)
    case None => Written(false, docs)
    case Some(key) => DeleteDocSpec(docs, key, fault)
  }

  /** updateMatchScore */
  function UpdateMatchScoreSpec(docs: map<string, Doc>, matchId: Value, score: Value, serverSeconds: int, fault: bool): Written {
    match DocKey(matchId)
    case None => Written(false, docs)
    case Some(key) => UpdateDocSpec(docs, key, ScorePatch(score, serverSeconds), fault)
  }

  method SaveMatch(db: Firestore, matchData: Doc, serverSeconds: int, fault: bool) returns (ok: bool)
    modifies db
    ensures Written(ok, db.docs) == SaveMatchSpec(old(db.docs), matchData, serverSeconds, fault)
  {
    var key := DocKey(Get(matchData, "id"));
    if key.None? {
      return false;
    }
    var dataToSave := ToSave(matchData, serverSeconds);
    ok := db.SetDoc(key.value, dataToSave, fault);
  }

  method DeleteMatch(db: Firestore, matchId: Value, fault: bool) returns (ok: bool)
    modifies db
    ensures Written(ok, db.docs) == DeleteMatchSpec(old(db.docs), matchId, fault)
  {
    var key := DocKey(matchId);
    if key.None? {
      return false;
    }
    ok := db.DeleteDoc(key.value, fault);
  }

  method UpdateMatchScore(db: Firestore, matchId: Value, score: Value, serverSeconds: int, fault: bool) returns (ok: bool)
    modifies db
    ensures Written(ok, db.docs) == UpdateMatchScoreSpec(old(db.docs), matchId, score, serverSeconds, fault)
  {
    var key := DocKey(matchId);
    if key.None? {
      return false;
    }
    ok := db.UpdateDoc(key.value, ScorePatch(score, serverSeconds), fault);
  }

  /** The collection after saving `list[0]`, `list[1]`, ... in turn. */
  function SaveAll(docs: map<string, Doc>, list: seq<Doc>, seconds: seq<int>, faults: seq<bool>): map<string, Doc>
    requires |seconds| == |list| && |faults| == |list|
    decreases |list|
  {
    if list == [] then docs
    else SaveAll(SaveMatchSpec(docs, list[0], seconds[0], faults[0]).docs, list[1..], seconds[1..], faults[1..])
  }

  /**
   * saveMultipleMatches: every save is issued, in array order; since
   * saveMatch never rejects, the result is always `true`.
   */
  method SaveMultipleMatches(db: Firestore, list: seq<Doc>, seconds: seq<int>, faults: seq<bool>) returns (ok: bool)
    requires |seconds| == |list| && |faults| == |list|
    modifies db
    ensures ok
    ensures db.docs == SaveAll(old(db.docs), list, seconds, faults)
  {
    var i := 0;
    while i < |list|
      invariant 0 <= i <= |list|
      invariant SaveAll(old(db.docs), list, seconds, faults) == SaveAll(db.docs, list[i..], seconds[i..], faults[i..])
    {
      var _ := SaveMatch(db, list[i], seconds[i], faults[i]);
      assert list[i..][1..] == list[i + 1..];
      assert seconds[i..][1..] == seconds[i + 1..];
      assert faults[i..][1..] == faults[i + 1..];
      i := i + 1;
    }
    ok := true;
  }

  // ---------------------------------------------------------------------
  // Properties of the writes
  // ---------------------------------------------------------------------

  /**
   * A successful save stores the input's fields, a fresh `updatedAt`, and
   * `createdAt` taken from the input when truthy, else the fresh stamp; the
   * stored document has no other field, so whatever the old document held
   * beyond the input is gone.
   */
  lemma SaveStoresInputWithStamps(docs: map<string, Doc>, matchData: Doc, serverSeconds: int, fault: bool)
    ensures var w := SaveMatchSpec(docs, matchData, serverSeconds, fault);
      w.ok ==>
        var key := DocKey(Get(matchData, "id")).value;
        && key in w.docs
        && w.docs[key].Keys == matchData.Keys + {"updatedAt", "createdAt"}
        && (forall f :: f in matchData && f != "updatedAt" && f != "createdAt" ==> w.docs[key][f] == matchData[f])
        && w.docs[key]["updatedAt"] == Stamp(serverSeconds)
        && w.docs[key]["createdAt"] ==
             (if Truthy(Get(matchData, "createdAt")) then matchData["createdAt"] else Stamp(serverSeconds))
        && (forall k :: k in docs && k != key ==> k in w.docs && w.docs[k] == docs[k])
        && w.docs.Keys == docs.Keys + {key}
  {
    var w := SaveMatchSpec(docs, matchData, serverSeconds, fault);
    if w.ok {
      var key := DocKey(Get(matchData, "id")).value;
      assert w.docs == docs[key := ToSave(matchData, serverSeconds)];
      ToSaveFields(matchData, serverSeconds);
    }
  }

  /** The document saveMatch writes: the input's fields and the two stamps. */
  lemma ToSaveFields(matchData: Doc, serverSeconds: int)
    ensures var saved := ToSave(matchData, serverSeconds);
      && saved.Keys == matchData.Keys + {"updatedAt", "createdAt"}
      && (forall f :: f in matchData && f != "updatedAt" && f != "createdAt" ==> saved[f] == matchData[f])
      && saved["updatedAt"] == Stamp(serverSeconds)
      && saved["createdAt"] == (if Truthy(Get(matchData, "createdAt")) then matchData["createdAt"] else Stamp(serverSeconds))
  {
  }

  /**
   * A save succeeds exactly when the id addresses a document, the store
   * accepts the write and no field is undefined; otherwise it reports
   * `false` and the collection is untouched.
   */
  lemma SaveFailsOnlyAsFalse(docs: map<string, Doc>, matchData: Doc, serverSeconds: int, fault: bool)
    ensures var w := SaveMatchSpec(docs, matchData, serverSeconds, fault);
      && (w.ok <==> DocKey(Get(matchData, "id")).Some? && !fault && !HasUndefinedField(ToSave(matchData, serverSeconds)))
      && (!w.ok ==> w.docs == docs)
  {
  }

  /**
   * A successful score update sets `score` and `updatedAt` and nothing else:
   * every other field of that document, and every other document, is unchanged.
   */
  lemma ScoreUpdateTouchesOnlyScore(docs: map<string, Doc>, matchId: Value, score: Value, serverSeconds: int, fault: bool)
    ensures var w := UpdateMatchScoreSpec(docs, matchId, score, serverSeconds, fault);
      w.ok ==>
        var key := DocKey(matchId).value;
        && key in docs && key in w.docs
        && w.docs[key].Keys == docs[key].Keys + {"score", "updatedAt"}
        && w.docs[key]["score"] == score
        && w.docs[key]["updatedAt"] == Stamp(serverSeconds)
        && (forall f :: f in docs[key] && f != "score" && f != "updatedAt" ==> w.docs[key][f] == docs[key][f])
        && (forall k :: k in docs && k != key ==> k in w.docs && w.docs[k] == docs[k])
        && w.docs.Keys == docs.Keys
  {
  }

  /** A score update of a document that is not there fails and changes nothing. */
  lemma ScoreUpdateOfMissingDocumentFails(docs: map<string, Doc>, matchId: Value, score: Value, serverSeconds: int, fault: bool)
    requires DocKey(matchId).Some? && DocKey(matchId).value !in docs
    ensures UpdateMatchScoreSpec(docs, matchId, score, serverSeconds, fault) == Written(false, docs)
  {
  }

  /** A successful delete removes exactly that document; a failed one changes nothing. */
  lemma DeleteRemovesOnlyThatDocument(docs: map<string, Doc>, matchId: Value, fault: bool)
    ensures var w := DeleteMatchSpec(docs, matchId, fault);
      && (w.ok <==> DocKey(matchId).Some? && !fault)
      && (w.ok ==> w.docs.Keys == docs.Keys - {DocKey(matchId).value}
                   && forall k :: k in w.docs ==> w.docs[k] == docs[k])
      && (!w.ok ==> w.docs == docs)
  {
  }

  /** Saves of documents with other keys do not touch a document, whatever their outcome. */
  lemma {:induction false} SaveAllKeepsUntouchedKeys(docs: map<string, Doc>, list: seq<Doc>, seconds: seq<int>, faults: seq<bool>, key: string)
    requires |seconds| == |list| && |faults| == |list|
    requires forall i :: 0 <= i < |list| ==> DocKey(Get(list[i], "id")) != Some(key)
    ensures key in SaveAll(docs, list, seconds, faults) <==> key in docs
    ensures key in docs ==> SaveAll(docs, list, seconds, faults)[key] == docs[key]
    decreases |list|
  {
    if list != [] {
      SaveAllKeepsUntouchedKeys(SaveMatchSpec(docs, list[0], seconds[0], faults[0]).docs, list[1..], seconds[1..], faults[1..], key);
    }
  }

  // ---------------------------------------------------------------------
  // The snapshot listener
  // ---------------------------------------------------------------------

  /** One document of a query snapshot: its key and its data. */
  datatype SnapshotDoc = SnapshotDoc(key: string, data: Doc)

  /** What the listener receives: a snapshot of the whole collection, or an error. */
  datatype ListenerEvent = Next(snapshot: seq<SnapshotDoc>) | Failed

  /** `snap` lists every document of `docs` exactly once. */
  ghost predicate IsSnapshotOf(snap: seq<SnapshotDoc>, docs: map<string, Doc>) {
    && (forall i :: 0 <= i < |snap| ==> snap[i].key in docs && docs[snap[i].key] == snap[i].data)
    && (forall k :: k in docs ==> exists i :: 0 <= i < |snap| && snap[i].key == k)
    && (forall i, j :: 0 <= i < j < |snap| ==> snap[i].key != snap[j].key)
  }

  /** `{ id: doc.id, ...doc.data() }` */
  function WithId(d: SnapshotDoc): Doc {
    map["id" := Str(d.key)] + d.data
  }

  /** The records of a snapshot, in snapshot order. */
  function Shaped(snap: seq<SnapshotDoc>): seq<Doc> {
    seq(|snap|, i requires 0 <= i < |snap| => WithId(snap[i]))
  }

  /** `a.createdAt?.seconds || 0` (a seconds value that is not a number counts as 0). */
  function CreatedSeconds(r: Doc): int {
    var s := Prop(Get(r, "createdAt"), "seconds");
    if s.Num? then s.n else 0
  }

  /** The listener's comparator `(a, b) => bTime - aTime`. */
  function NewestFirst(a: Doc, b: Doc): (r: int)
    ensures r < 0 <==> CreatedSeconds(a) > CreatedSeconds(b)
    ensures r == 0 <==> CreatedSeconds(a) == CreatedSeconds(b)
  {
    CreatedSeconds(b) - CreatedSeconds(a)
  }

  /**
   * The snapshot handler: one record per document, pushed in snapshot order,
   * then sorted in place newest first.
   */
  method OnSnapshot(snap: seq<SnapshotDoc>) returns (matches: seq<Doc>)
    ensures |matches| == |snap|
    ensures multiset(matches) == multiset(Shaped(snap))
    ensures forall i, j :: 0 <= i < j < |matches| ==> CreatedSeconds(matches[i]) >= CreatedSeconds(matches[j])
  {
    var list := new Doc[|snap|];
    var n := 0;
    while n < |snap|
      invariant 0 <= n <= |snap|
      invariant list[..n] == Shaped(snap)[..n]
    {
      list[n] := WithId(snap[n]);
      n := n + 1;
    }
    assert list[..] == Shaped(snap);
    JsArray.SortInPlace(list, NewestFirst);
    matches := list[..];
    JsArray.AdjacentToOrdered(matches, NewestFirst);
  }

  /** The listener: a snapshot is shaped and sorted; an error delivers the empty list. */
  method Listener(event: ListenerEvent) returns (delivered: seq<Doc>)
    ensures event.Failed? ==> delivered == []
    ensures event.Next? ==>
      && multiset(delivered) == multiset(Shaped(event.snapshot))
      && forall i, j :: 0 <= i < j < |delivered| ==> CreatedSeconds(delivered[i]) >= CreatedSeconds(delivered[j])
  {
    match event
    case Failed =>
      delivered := [];
    case Next(snap) =>
      delivered := OnSnapshot(snap);
  }

  /** Each record's `id` is its document key unless the document stores an `id` of its own. */
  lemma ShapedRecordId(snap: seq<SnapshotDoc>, i: nat)
    requires i < |snap|
    ensures Shaped(snap)[i]["id"] == (if "id" in snap[i].data then snap[i].data["id"] else Str(snap[i].key))
    ensures Shaped(snap)[i].Keys == snap[i].data.Keys + {"id"}
  {
  }

  /** The keys listed by a snapshot. */
  function KeysOf(snap: seq<SnapshotDoc>): set<string> {
    set i | 0 <= i < |snap| :: snap[i].key
  }

  lemma {:induction false} DistinctKeysCount(snap: seq<SnapshotDoc>)
    requires forall i, j :: 0 <= i < j < |snap| ==> snap[i].key != snap[j].key
    ensures |KeysOf(snap)| == |snap|
  {
    if snap != [] {
      var init := snap[..|snap| - 1];
      DistinctKeysCount(init);
      assert KeysOf(snap) == KeysOf(init) + {snap[|snap| - 1].key};
      assert snap[|snap| - 1].key !in KeysOf(init);
    }
  }

  /** A snapshot of the collection yields exactly one record per stored document. */
  lemma OneRecordPerDocument(snap: seq<SnapshotDoc>, docs: map<string, Doc>)
    requires IsSnapshotOf(snap, docs)
    ensures |Shaped(snap)| == |docs|
  {
    DistinctKeysCount(snap);
    assert KeysOf(snap) == docs.Keys;
  }
}
