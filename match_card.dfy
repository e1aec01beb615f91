/**
 * One match card: the finished test, the lenient score entry and the two
 * modal flags (delete confirmation, score entry). The callbacks the card
 * fires into the App are recorded, in order, in `calls`.
 */
module MatchCard {
  import opened Wrappers
  import opened JsValue
  import JsNumber
  import MatchService

  /** `match.score && match.score.team1 !== undefined && match.score.team2 !== undefined` */
  predicate IsFinished(m: Doc) {
    var score := Get(m, "score");
    Truthy(score) && Prop(score, "team1") != Undefined && Prop(score, "team2") != Undefined
  }

  /** `parseInt(v) || 0`: NaN (no digits) and -0 become 0; nothing is clamped. */
  function Coerce(v: Value): (r: int)
    ensures v.Num? ==> r == v.n
  {
    assert v.Num? ==> JsNumber.ParseInt(ToJsString(v)) == Some(v.n) by {
      if v.Num? {
        JsNumber.ParseIntOfIntToString(v.n);
      }
    }
    match JsNumber.ParseInt(ToJsString(v))
    case None => 0
    case Some(n) => n
  }

  /** The score object saveScore sends. */
  function ScoreValue(team1Input: Value, team2Input: Value): Value {
    Obj(map["team1" := Num(Coerce(team1Input)), "team2" := Num(Coerce(team2Input))])
  }

  /** `match.score?.team1 || ''` (and likewise for team2): what an input shows for a stored score. */
  function StoredInput(m: Doc, side: string): Value {
    Or(Prop(Get(m, "score"), side), Str(""))
  }

  /** A callback the card fires. */
  datatype Callback = Delete(matchId: Value) | UpdateScore(matchId: Value, score: Value)

  class CardState {
    /** The latest `match` prop: the App re-renders the same card (keyed by id) with each push. */
    var matchRecord: Doc
    var showDeleteModal: bool
    var showScoreModal: bool
    var team1Score: Value
    var team2Score: Value
    var calls: seq<Callback>

    constructor (matchRecord: Doc)
      ensures this.matchRecord == matchRecord && !showDeleteModal && !showScoreModal
      ensures team1Score == StoredInput(matchRecord, "team1") && team2Score == StoredInput(matchRecord, "team2")
      ensures calls == []
    {
      this.matchRecord := matchRecord;
      showDeleteModal := false;
      showScoreModal := false;
      team1Score := StoredInput(matchRecord, "team1");
      team2Score := StoredInput(matchRecord, "team2");
      calls := [];
    }

    /**
     * A push re-renders the card with the new record of the same id. The
     * inputs' state is kept; only what reads `match` sees the new record.
     */
    method ReceiveMatch(m: Doc)
      requires Get(m, "id") == Get(matchRecord, "id")
      modifies this
      ensures matchRecord == m
      ensures showDeleteModal == old(showDeleteModal) && showScoreModal == old(showScoreModal)
      ensures team1Score == old(team1Score) && team2Score == old(team2Score) && calls == old(calls)
    {
      matchRecord := m;
    }

    /** handleDelete: only opens the confirmation. */
    method HandleDelete()
      modifies this
      ensures matchRecord == old(matchRecord)
      ensures showDeleteModal && showScoreModal == old(showScoreModal)
      ensures team1Score == old(team1Score) && team2Score == old(team2Score) && calls == old(calls)
    {
      showDeleteModal := true;
    }

    /** confirmDelete: closes the confirmation and fires onDelete(match.id), once. */
    method ConfirmDelete()
      modifies this
      ensures matchRecord == old(matchRecord)
      ensures !showDeleteModal && showScoreModal == old(showScoreModal)
      ensures team1Score == old(team1Score) && team2Score == old(team2Score)
      ensures calls == old(calls) + [Delete(Get(matchRecord, "id"))]
    {
      showDeleteModal := false;
      calls := calls + [Delete(Get(matchRecord, "id"))];
    }

    /** cancelDelete: closes the confirmation; no callback. */
    method CancelDelete()
      modifies this
      ensures matchRecord == old(matchRecord)
      ensures !showDeleteModal && showScoreModal == old(showScoreModal)
      ensures team1Score == old(team1Score) && team2Score == old(team2Score) && calls == old(calls)
    {
      showDeleteModal := false;
    }

    /** handleFinish: only opens the score entry. */
    method HandleFinish()
      modifies this
      ensures matchRecord == old(matchRecord)
      ensures showScoreModal && showDeleteModal == old(showDeleteModal)
      ensures team1Score == old(team1Score) && team2Score == old(team2Score) && calls == old(calls)
    {
      showScoreModal := true;
    }

    /** The inputs' onChange: the field holds the typed text. */
    method TypeScore(team: int, text: string)
      modifies this
      ensures matchRecord == old(matchRecord)
      ensures team == 1 ==> team1Score == Str(text) && team2Score == old(team2Score)
      ensures team != 1 ==> team2Score == Str(text) && team1Score == old(team1Score)
      ensures showDeleteModal == old(showDeleteModal) && showScoreModal == old(showScoreModal) && calls == old(calls)
    {
      if team == 1 {
        team1Score := Str(text);
      } else {
        team2Score := Str(text);
      }
    }

    /** saveScore: fires onUpdateScore(match.id, score) once and closes the score entry. */
    method SaveScore()
      modifies this
      ensures matchRecord == old(matchRecord)
      ensures calls == old(calls) + [UpdateScore(Get(matchRecord, "id"), ScoreValue(old(team1Score), old(team2Score)))]
      ensures !showScoreModal && showDeleteModal == old(showDeleteModal)
      ensures team1Score == old(team1Score) && team2Score == old(team2Score)
    {
      var score := ScoreValue(team1Score, team2Score);
      calls := calls + [UpdateScore(Get(matchRecord, "id"), score)];
      showScoreModal := false;
    }

    /** cancelScore: the inputs show the stored score again and the entry closes; no callback. */
    method CancelScore()
      modifies this
      ensures matchRecord == old(matchRecord)
      ensures team1Score == StoredInput(matchRecord, "team1") && team2Score == StoredInput(matchRecord, "team2")
      ensures !showScoreModal && showDeleteModal == old(showDeleteModal) && calls == old(calls)
    {
      team1Score := StoredInput(matchRecord, "team1");
      team2Score := StoredInput(matchRecord, "team2");
      showScoreModal := false;
    }

    /** The Escape key while a modal is open: closes each open modal as its cancel button would. */
    method PressEscape()
      modifies this
      ensures matchRecord == old(matchRecord)
      ensures !showDeleteModal && !showScoreModal && calls == old(calls)
      ensures old(showScoreModal) ==>
        team1Score == StoredInput(matchRecord, "team1") && team2Score == StoredInput(matchRecord, "team2")
      ensures !old(showScoreModal) ==> team1Score == old(team1Score) && team2Score == old(team2Score)
    {
      if showDeleteModal {
        showDeleteModal := false;
      }
      if showScoreModal {
        team1Score := StoredInput(matchRecord, "team1");
        team2Score := StoredInput(matchRecord, "team2");
        showScoreModal := false;
      }
    }
  }

  // ---------------------------------------------------------------------
  // Properties of score entry
  // ---------------------------------------------------------------------

  /** Whatever was typed, the score sent has both sides, so the updated match is finished. */
  lemma SavedScoreFinishesMatch(m: Doc, team1Input: Value, team2Input: Value, serverSeconds: int)
    ensures IsFinished(m + MatchService.ScorePatch(ScoreValue(team1Input, team2Input), serverSeconds))
  {
  }

  /** A 0 : 0 result counts as finished. */
  lemma NilNilIsFinished(m: Doc)
    ensures IsFinished(m["score" := Obj(map["team1" := Num(0), "team2" := Num(0)])])
  {
  }

  /** Input with no decimal digit at all, the empty string included, is sent as 0. */
  lemma {:induction false} NoDigitIsZero(s: string)
    requires forall i :: 0 <= i < |s| ==> !JsNumber.IsDigit(s[i])
    ensures Coerce(Str(s)) == 0
  {
    JsNumber.TrimStartIsSuffix(s);
    var t := JsNumber.TrimStart(s);
    assert forall i :: 0 <= i < |t| ==> t[i] == s[|s| - |t| + i];
    var unsigned := if t != [] && (t[0] == '-' || t[0] == '+') then t[1..] else t;
    assert unsigned == [] || !JsNumber.IsDigit(unsigned[0]);
  }

  /**
   * The min/max of the inputs are not enforced here: any integer typed in
   * decimal, negative or above 99, is sent as it is.
   */
  lemma {:induction false} TypedIntegerIsSentUnclamped(n: int)
    ensures Coerce(Str(JsNumber.IntToString(n))) == n
  {
    JsNumber.ParseIntOfIntToString(n);
  }

  /**
   * Cancelling and then saving sends back the stored score: a stored side
   * of 0 is shown as '' and read back as 0.
   */
  lemma {:induction false} CancelledInputReadsBackStoredSide(m: Doc, side: string, stored: int)
    requires Prop(Get(m, "score"), side) == Num(stored)
    ensures Coerce(StoredInput(m, side)) == stored
  {
    if stored != 0 {
      JsNumber.ParseIntOfIntToString(stored);
    } else {
      assert JsNumber.TrimStart("") == "";
    }
  }
}
