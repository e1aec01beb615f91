/**
 * The application's view-model: the `matches` mirror that every
 * subscription push replaces, the display order derived from it, and the
 * handlers that forward create, edit, delete and score intents to the
 * repository. Each handler runs as one atomic step.
 */
module AppView {
  import opened Wrappers
  import opened JsValue
  import JsNumber
  import JsArray
  import MatchService
  import MatchCard
  import MatchModal

  // ---------------------------------------------------------------------
  // Display order
  // ---------------------------------------------------------------------

  /** `a.team1Score !== undefined && a.team2Score !== undefined` */
  predicate HasScore(r: Doc) {
    Get(r, "team1Score") != Undefined && Get(r, "team2Score") != Undefined
  }

  /**
   * `new Date(r.timestamp)` in milliseconds. The model represents a
   * timestamp by the instant it denotes, a number; anything else is an
   * invalid date.
   */
  function DateMillis(r: Doc): Option<int> {
    var t := Get(r, "timestamp");
    if t.Num? then Some(t.n) else None
  }

  predicate HasValidDate(r: Doc) {
    DateMillis(r).Some?
  }

  /** The instant of a record with a valid date (0 otherwise, never used then). */
  function Millis(r: Doc): int {
    if HasValidDate(r) then DateMillis(r).value else 0
  }

  predicate AllValidDates(s: seq<Doc>) {
    forall i :: 0 <= i < |s| ==> HasValidDate(s[i])
  }

  /**
   * The display comparator: records without both score fields first, then
   * newest `timestamp` first. With an invalid date the difference is NaN,
   * which `sort` reads as 0.
   */
  function DisplayCompare(a: Doc, b: Doc): int {
    var aHasScore := HasScore(a);
    var bHasScore := HasScore(b);
    if !aHasScore && bHasScore then -1
    else if aHasScore && !bHasScore then 1
    else match (DateMillis(b), DateMillis(a))
      case (Some(tb), Some(ta)) => tb - ta
      case _ => 0
  }

  lemma DisplayCompareTransitive(s: seq<Doc>)
    requires AllValidDates(s)
    ensures JsArray.TransitiveOn(s, DisplayCompare)
  {
    forall i, j, k | 0 <= i < |s| && 0 <= j < |s| && 0 <= k < |s|
      && DisplayCompare(s[i], s[j]) <= 0 && DisplayCompare(s[j], s[k]) <= 0
      ensures DisplayCompare(s[i], s[k]) <= 0
    {
      assert HasValidDate(s[i]) && HasValidDate(s[j]) && HasValidDate(s[k]);
    }
  }

  /** A permutation of records with valid dates has valid dates. */
  lemma {:induction false} ValidDatesOfPermutation(matches: seq<Doc>, shown: seq<Doc>)
    requires multiset(shown) == multiset(matches) && AllValidDates(matches)
    ensures AllValidDates(shown)
  {
    forall i | 0 <= i < |shown|
      ensures HasValidDate(shown[i])
    {
      assert shown[i] in multiset(shown);
      assert shown[i] in matches;
      var k :| 0 <= k < |matches| && matches[k] == shown[i];
    }
  }

  /**
   * In a list ordered by the display comparator, no record with both score
   * fields precedes one without, and within each group newer comes first.
   */
  lemma {:induction false} DisplayOrderGroupsThenDates(shown: seq<Doc>)
    requires AllValidDates(shown) && JsArray.AdjacentOrdered(shown, DisplayCompare)
    ensures forall i, j :: 0 <= i < j < |shown| && HasScore(shown[i]) ==> HasScore(shown[j])
    ensures forall i, j :: 0 <= i < j < |shown| && HasScore(shown[i]) == HasScore(shown[j]) ==> Millis(shown[i]) >= Millis(shown[j])
  {
    DisplayCompareTransitive(shown);
    JsArray.AdjacentToOrdered(shown, DisplayCompare);
    forall i, j | 0 <= i < j < |shown|
      ensures HasScore(shown[i]) ==> HasScore(shown[j])
      ensures HasScore(shown[i]) == HasScore(shown[j]) ==> Millis(shown[i]) >= Millis(shown[j])
    {
      assert DisplayCompare(shown[i], shown[j]) <= 0;
      assert HasValidDate(shown[i]) && HasValidDate(shown[j]);
    }
  }

  /**
   * `[...matches].sort(comparator)`: a sorted copy; `matches` itself is a
   * value and is not reordered.
   */
  method SortedForDisplay(matches: seq<Doc>) returns (shown: seq<Doc>)
    ensures multiset(shown) == multiset(matches)
    ensures AllValidDates(matches) ==>
      forall i, j :: 0 <= i < j < |shown| && HasScore(shown[i]) ==> HasScore(shown[j])
    ensures AllValidDates(matches) ==>
      forall i, j :: 0 <= i < j < |shown| && HasScore(shown[i]) == HasScore(shown[j]) ==> Millis(shown[i]) >= Millis(shown[j])
    ensures AllValidDates(matches) && (forall i :: 0 <= i < |matches| ==> !HasScore(matches[i])) ==>
      forall i, j :: 0 <= i < j < |shown| ==> Millis(shown[i]) >= Millis(shown[j])
  {
    var copy := new Doc[|matches|](i requires 0 <= i < |matches| => matches[i]);
    assert copy[..] == matches;
    JsArray.SortInPlace(copy, DisplayCompare);
    shown := copy[..];
    if AllValidDates(matches) {
      ValidDatesOfPermutation(matches, shown);
      DisplayOrderGroupsThenDates(shown);
      if forall i :: 0 <= i < |matches| ==> !HasScore(matches[i]) {
        forall i | 0 <= i < |shown|
          ensures !HasScore(shown[i])
        {
          assert shown[i] in multiset(matches);
        }
      }
    }
  }

  /**
   * The records the application writes keep their score under `score`, never
   * under `team1Score`/`team2Score`.
   */
  predicate NoTeamScoreFields(r: Doc) {
    "team1Score" !in r && "team2Score" !in r
  }

  /**
   * For such records the first key of the comparator never decides: a newer
   * finished match is shown before an older unfinished one.
   */
  lemma FinishedMatchIsNotMovedBack(newer: Doc, older: Doc)
    requires NoTeamScoreFields(newer) && NoTeamScoreFields(older)
    requires MatchCard.IsFinished(newer) && !MatchCard.IsFinished(older)
    requires HasValidDate(newer) && HasValidDate(older) && Millis(newer) > Millis(older)
    ensures DisplayCompare(newer, older) < 0
  {
  }

  // ---------------------------------------------------------------------
  // Records written by the application
  // ---------------------------------------------------------------------

  ghost predicate StoreHasNoTeamScoreFields(docs: map<string, Doc>) {
    forall k :: k in docs ==> NoTeamScoreFields(docs[k])
  }

  /** Saving, deleting and score updates never introduce the comparator's score fields. */
  lemma WritesKeepNoTeamScoreFields(docs: map<string, Doc>, record: Doc, matchId: Value, score: Value, serverSeconds: int, fault: bool)
    requires StoreHasNoTeamScoreFields(docs) && NoTeamScoreFields(record)
    ensures StoreHasNoTeamScoreFields(MatchService.SaveMatchSpec(docs, record, serverSeconds, fault).docs)
    ensures StoreHasNoTeamScoreFields(MatchService.DeleteMatchSpec(docs, matchId, fault).docs)
    ensures StoreHasNoTeamScoreFields(MatchService.UpdateMatchScoreSpec(docs, matchId, score, serverSeconds, fault).docs)
  {
  }

  /**
   * Hence every record delivered from such a store lacks them, and the
   * display order of those records is by `timestamp` alone.
   */
  lemma {:induction false} DeliveredRecordsHaveNoTeamScoreFields(snap: seq<MatchService.SnapshotDoc>, docs: map<string, Doc>, delivered: seq<Doc>)
    requires MatchService.IsSnapshotOf(snap, docs) && StoreHasNoTeamScoreFields(docs)
    requires multiset(delivered) == multiset(MatchService.Shaped(snap))
    ensures forall i :: 0 <= i < |delivered| ==> NoTeamScoreFields(delivered[i]) && !HasScore(delivered[i])
  {
    forall i | 0 <= i < |delivered|
      ensures NoTeamScoreFields(delivered[i])
    {
      assert delivered[i] in multiset(MatchService.Shaped(snap));
      var j :| 0 <= j < |snap| && MatchService.Shaped(snap)[j] == delivered[i];
      MatchService.ShapedRecordId(snap, j);
    }
  }

  // ---------------------------------------------------------------------
  // matches.find
  // ---------------------------------------------------------------------

  /** `matches.findIndex(match => match.id === matchId)`; None is -1. */
  function FindIndex(matches: seq<Doc>, matchId: Value): (r: Option<nat>)
    ensures r.Some? ==> r.value < |matches| && Get(matches[r.value], "id") == matchId
    ensures r.Some? ==> forall j :: 0 <= j < r.value ==> Get(matches[j], "id") != matchId
    ensures r.None? ==> forall j :: 0 <= j < |matches| ==> Get(matches[j], "id") != matchId
  {
    if matches == [] then None
    else if Get(matches[0], "id") == matchId then Some(0)
    else match FindIndex(matches[1..], matchId)
      case None => None
      case Some(k) => Some(k + 1)
  }

  /** `matches.find(match => match.id === matchId)`: the first record with that id. */
  function FindById(matches: seq<Doc>, matchId: Value): (r: Option<Doc>)
    ensures r.Some? ==> Get(r.value, "id") == matchId && exists i :: 0 <= i < |matches| && matches[i] == r.value
    ensures r.None? <==> forall j :: 0 <= j < |matches| ==> Get(matches[j], "id") != matchId
  {
    match FindIndex(matches, matchId)
    case None => None
    case Some(k) => Some(matches[k])
  }

  // ---------------------------------------------------------------------
  // The App component's state and handlers
  // ---------------------------------------------------------------------

  /** The record handleCreateMatch passes to saveMatch. */
  function SentRecord(editing: bool, matchData: Doc, nowMs: nat): Doc {
    if editing then matchData else matchData["id" := Str(JsNumber.IntToString(nowMs))]
  }

  /** The create path's id, `Date.now().toString()`, always addresses a document. */
  lemma CreatePathIdIsDocKey(matchData: Doc, nowMs: nat)
    ensures MatchService.DocKey(Get(SentRecord(false, matchData, nowMs), "id")) == Some(JsNumber.IntToString(nowMs))
  {
    JsNumber.IntToStringHasNoSlash(nowMs);
  }

  /**
   * Editing a listed match and submitting the form writes back to the
   * same document: the stored id and timestamp are those of the edited
   * record, and no other document appears.
   */
  lemma EditWritesBackToSameDocument(docs: map<string, Doc>, matches: seq<Doc>, matchId: Value,
                                     catalog: seq<MatchModal.Stadium>, selected: string,
                                     team1: seq<Value>, team2: seq<Value>, matchTime: Value, matchDay: Value,
                                     nowMillis: int, nowId: int, nowMs: nat, serverSeconds: int)
    requires FindById(matches, matchId).Some?
    requires MatchService.DocKey(matchId).Some? && MatchService.DocKey(matchId).value in docs
    ensures var edited := FindById(matches, matchId).value;
      var form := MatchModal.SubmitRecord(catalog, selected, team1, team2, matchTime, matchDay, Some(edited), nowMillis, nowId);
      var w := MatchService.SaveMatchSpec(docs, SentRecord(true, form, nowMs), serverSeconds, false);
      var key := MatchService.DocKey(matchId).value;
      w.ok ==>
        && w.docs.Keys == docs.Keys
        && w.docs[key]["id"] == matchId
        && w.docs[key]["timestamp"] == Get(edited, "timestamp")
  {
  }

  class App {
    const db: MatchService.Firestore
    var matches: seq<Doc>
    var isModalOpen: bool
    var editingMatch: Option<Doc>

    constructor (db: MatchService.Firestore)
      ensures this.db == db && matches == [] && !isModalOpen && editingMatch == None
    {
      this.db := db;
      matches := [];
      isModalOpen := false;
      editingMatch := None;
    }

    /** The subscription callback: the delivered list replaces `matches` wholesale. */
    method OnMatches(delivered: seq<Doc>)
      modifies this
      ensures matches == delivered
      ensures isModalOpen == old(isModalOpen) && editingMatch == old(editingMatch)
    {
      matches := delivered;
    }

    /** A listener event reaches the App: a snapshot's records, newest `createdAt` first, or the empty list on error. */
    method OnListenerEvent(event: MatchService.ListenerEvent)
      modifies this
      ensures event.Failed? ==> matches == []
      ensures event.Next? ==> multiset(matches) == multiset(MatchService.Shaped(event.snapshot))
      ensures event.Next? ==>
        forall i, j :: 0 <= i < j < |matches| ==> MatchService.CreatedSeconds(matches[i]) >= MatchService.CreatedSeconds(matches[j])
      ensures isModalOpen == old(isModalOpen) && editingMatch == old(editingMatch)
    {
      var delivered := MatchService.Listener(event);
      OnMatches(delivered);
    }

    /** The list as rendered. */
    method Displayed() returns (shown: seq<Doc>)
      ensures multiset(shown) == multiset(matches)
      ensures AllValidDates(matches) ==>
        forall i, j :: 0 <= i < j < |shown| && HasScore(shown[i]) ==> HasScore(shown[j])
      ensures AllValidDates(matches) ==>
        forall i, j :: 0 <= i < j < |shown| && HasScore(shown[i]) == HasScore(shown[j]) ==> Millis(shown[i]) >= Millis(shown[j])
      ensures AllValidDates(matches) && (forall i :: 0 <= i < |matches| ==> !HasScore(matches[i])) ==>
        forall i, j :: 0 <= i < j < |shown| ==> Millis(shown[i]) >= Millis(shown[j])
    {
      shown := SortedForDisplay(matches);
    }

    /**
     * handleCreateMatch: an edit saves the form record as it is, a create
     * gives it a fresh string id; a failure shows an alert. The editing
     * record is cleared only by a successful edit, and the modal closes on
     * both paths. `matches` is left to the next push.
     */
    method HandleCreateMatch(matchData: Doc, nowMs: nat, serverSeconds: int, fault: bool) returns (alerted: bool)
      modifies this, db
      ensures MatchService.Written(!alerted, db.docs)
        == MatchService.SaveMatchSpec(old(db.docs), SentRecord(old(editingMatch).Some?, matchData, nowMs), serverSeconds, fault)
      ensures editingMatch == (if old(editingMatch).Some? && !alerted then None else old(editingMatch))
      ensures !isModalOpen && matches == old(matches)
    {
      if editingMatch.Some? {
        var success := MatchService.SaveMatch(db, matchData, serverSeconds, fault);
        if success {
          editingMatch := None;
        }
        alerted := !success;
      } else {
        var newMatch := matchData["id" := Str(JsNumber.IntToString(nowMs))];
        var success := MatchService.SaveMatch(db, newMatch, serverSeconds, fault);
        alerted := !success;
      }
      isModalOpen := false;
    }

    /** handleDeleteMatch: a failure only alerts; the App's state is not touched. */
    method HandleDeleteMatch(matchId: Value, fault: bool) returns (alerted: bool)
      modifies db
      ensures MatchService.Written(!alerted, db.docs) == MatchService.DeleteMatchSpec(old(db.docs), matchId, fault)
      ensures matches == old(matches) && isModalOpen == old(isModalOpen) && editingMatch == old(editingMatch)
    {
      var success := MatchService.DeleteMatch(db, matchId, fault);
      alerted := !success;
    }

    /** handleUpdateScore: a failure only alerts; the App's state is not touched. */
    method HandleUpdateScore(matchId: Value, score: Value, serverSeconds: int, fault: bool) returns (alerted: bool)
      modifies db
      ensures MatchService.Written(!alerted, db.docs)
        == MatchService.UpdateMatchScoreSpec(old(db.docs), matchId, score, serverSeconds, fault)
      ensures matches == old(matches) && isModalOpen == old(isModalOpen) && editingMatch == old(editingMatch)
    {
      var success := MatchService.UpdateMatchScore(db, matchId, score, serverSeconds, fault);
      alerted := !success;
    }

    /** handleEditMatch: opens the form on the first record with that id, if there is one. */
    method HandleEditMatch(matchId: Value)
      modifies this
      ensures FindById(old(matches), matchId).Some? ==>
        editingMatch == FindById(old(matches), matchId) && isModalOpen
      ensures FindById(old(matches), matchId).None? ==>
        editingMatch == old(editingMatch) && isModalOpen == old(isModalOpen)
      ensures matches == old(matches)
    {
      var matchToEdit := FindById(matches, matchId);
      if matchToEdit.Some? {
        editingMatch := matchToEdit;
        isModalOpen := true;
      }
    }

    /** handleModalClose */
    method HandleModalClose()
      modifies this
      ensures !isModalOpen && editingMatch == None && matches == old(matches)
    {
      isModalOpen := false;
      editingMatch := None;
    }

    /** The "create a new match" buttons: the form opens empty. */
    method OpenNewMatchForm()
      modifies this
      ensures isModalOpen && editingMatch == None && matches == old(matches)
    {
      editingMatch := None;
      isModalOpen := true;
    }
  }
}
