/**
 * The create/edit form: reset when it opens, roster size driven by the
 * chosen stadium, single-slot player edits, and the record it submits.
 * `submitted` records, in order, the records passed to `onSubmit`.
 */
module MatchModal {
  import opened Wrappers
  import opened JsValue
  import JsNumber
  import MatchService

  /** A stadium of the static catalog (`stadiums.json`). */
  datatype Stadium = Stadium(id: int, name: string, mapsLink: string, maxPlayers: nat)

  /** The stadium as the plain object copied into a record. */
  function StadiumValue(s: Stadium): Value {
    Obj(map["id" := Num(s.id), "name" := Str(s.name), "mapsLink" := Str(s.mapsLink), "maxPlayers" := Num(s.maxPlayers)])
  }

  /** `Array(n)` throws for half a player: every stadium holds an even number of players. */
  predicate EvenSizes(catalog: seq<Stadium>) {
    forall i :: 0 <= i < |catalog| ==> catalog[i].maxPlayers % 2 == 0
  }

  /** `stadiums.find(s => s.id === parseInt(selected))` */
  function FindStadium(catalog: seq<Stadium>, selected: string): (r: Option<Stadium>)
    ensures r.Some? ==> r.value in catalog && JsNumber.ParseInt(selected) == Some(r.value.id)
    ensures r.None? ==> forall i :: 0 <= i < |catalog| ==> JsNumber.ParseInt(selected) != Some(catalog[i].id)
  {
    if catalog == [] then None
    else if JsNumber.ParseInt(selected) == Some(catalog[0].id) then Some(catalog[0])
    else FindStadium(catalog[1..], selected)
  }

  /** `stadium ? stadium.maxPlayers / 2 : 0` */
  function PlayersPerTeam(catalog: seq<Stadium>, selected: string): (n: nat)
    requires EvenSizes(catalog)
    ensures FindStadium(catalog, selected).Some? ==> 2 * n == FindStadium(catalog, selected).value.maxPlayers
    ensures FindStadium(catalog, selected).None? ==> n == 0
  {
    match FindStadium(catalog, selected)
    case None => 0
    case Some(s) => s.maxPlayers / 2
  }

  /** `Array(n).fill('')` */
  function EmptySlots(n: nat): seq<Value> {
    seq(n, _ => Str(""))
  }

  /**
   * `newPlayers[index] = value` on a copy: inside the array one slot is
   * replaced; past the end the array grows, with holes reading undefined.
   */
  function SetSlot(players: seq<Value>, index: nat, value: Value): (r: seq<Value>)
    ensures |r| == if index < |players| then |players| else index + 1
    ensures r[index] == value
    ensures forall j :: 0 <= j < |players| && j != index ==> r[j] == players[j]
    ensures forall j :: |players| <= j < index ==> r[j] == Undefined
  {
    if index < |players| then players[index := value]
    else players + seq(index - |players|, _ => Undefined) + [value]
  }

  /** What editing needs of the record: `stadium.id.toString()` and the roster spreads must not throw. */
  predicate Editable(d: Doc) {
    var id := Prop(Get(d, "stadium"), "id");
    && Get(d, "stadium").Obj? && id != Undefined && id != Null
    && Get(d, "team1Players").Arr? && Get(d, "team2Players").Arr?
  }

  /** `initialData.stadium.id.toString()` */
  function StadiumIdString(d: Doc): string {
    ToJsString(Prop(Get(d, "stadium"), "id"))
  }

  /** The record handleSubmit passes to onSubmit. */
  function SubmitRecord(catalog: seq<Stadium>, selected: string, team1: seq<Value>, team2: seq<Value>,
                        matchTime: Value, matchDay: Value, initialData: Option<Doc>, nowMillis: int, nowId: int): Doc
  {
    map["stadium" := (match FindStadium(catalog, selected) case None => Undefined case Some(s) => StadiumValue(s)),
        "team1Players" := Arr(team1),
        "team2Players" := Arr(team2),
        "matchTime" := matchTime,
        "matchDay" := matchDay,
        "timestamp" := (if initialData.Some? then Get(initialData.value, "timestamp") else Num(nowMillis)),
        "id" := (if initialData.Some? then Get(initialData.value, "id") else Num(nowId))]
  }

  class FormState {
    const catalog: seq<Stadium>
    var initialData: Option<Doc>
    var selectedStadium: string
    var team1Players: seq<Value>
    var team2Players: seq<Value>
    var matchTime: Value
    var matchDay: Value
    var submitted: seq<Doc>

    constructor (catalog: seq<Stadium>)
      requires EvenSizes(catalog)
      ensures this.catalog == catalog && initialData == None && selectedStadium == ""
      ensures team1Players == [] && team2Players == [] && matchTime == Str("") && matchDay == Str("")
      ensures submitted == []
    {
      this.catalog := catalog;
      initialData := None;
      selectedStadium := "";
      team1Players := [];
      team2Players := [];
      matchTime := Str("");
      matchDay := Str("");
      submitted := [];
    }

    /**
     * The stadium effect: once a stadium is chosen, both rosters become
     * `playersPerTeam` empty slots, unless an edit already has a first
     * roster of that size.
     */
    method SyncRosters()
      requires EvenSizes(catalog)
      modifies this
      ensures var perTeam := PlayersPerTeam(catalog, selectedStadium);
        if selectedStadium != "" && (initialData.None? || |old(team1Players)| != perTeam)
        then team1Players == EmptySlots(perTeam) && team2Players == EmptySlots(perTeam)
        else team1Players == old(team1Players) && team2Players == old(team2Players)
      ensures selectedStadium == old(selectedStadium) && initialData == old(initialData)
      ensures matchTime == old(matchTime) && matchDay == old(matchDay) && submitted == old(submitted)
    {
      if selectedStadium != "" {
        var perTeam := PlayersPerTeam(catalog, selectedStadium);
        if initialData.None? || |team1Players| != perTeam {
          team1Players := EmptySlots(perTeam);
          team2Players := EmptySlots(perTeam);
        }
      }
    }

    /**
     * The open effect: a new match starts blank; an edit copies the
     * record's rosters, time and day and selects its stadium by id string.
     * The stadium effect then runs.
     */
    method Open(initial: Option<Doc>)
      requires EvenSizes(catalog)
      requires initial.Some? ==> Editable(initial.value)
      modifies this
      ensures initialData == initial && submitted == old(submitted)
      ensures initial.None? ==>
        && selectedStadium == "" && team1Players == [] && team2Players == []
        && matchTime == Str("") && matchDay == Str("")
      ensures initial.Some? ==>
        var d := initial.value;
        var perTeam := PlayersPerTeam(catalog, StadiumIdString(d));
        && selectedStadium == StadiumIdString(d)
        && matchTime == Get(d, "matchTime") && matchDay == Get(d, "matchDay")
        && if StadiumIdString(d) != "" && |Get(d, "team1Players").items| != perTeam
           then team1Players == EmptySlots(perTeam) && team2Players == EmptySlots(perTeam)
           else team1Players == Get(d, "team1Players").items && team2Players == Get(d, "team2Players").items
    {
      initialData := initial;
      match initial {
        case Some(d) =>
          selectedStadium := StadiumIdString(d);
          team1Players := Get(d, "team1Players").items;
          team2Players := Get(d, "team2Players").items;
          matchTime := Get(d, "matchTime");
          matchDay := Get(d, "matchDay");
        case None =>
          selectedStadium := "";
          team1Players := [];
          team2Players := [];
          matchTime := Str("");
          matchDay := Str("");
      }
      SyncRosters();
    }

    /** The stadium select's onChange; the stadium effect runs when the value changed. */
    method SelectStadium(value: string)
      requires EvenSizes(catalog)
      modifies this
      ensures selectedStadium == value
      ensures var perTeam := PlayersPerTeam(catalog, value);
        if value != old(selectedStadium) && value != "" && (initialData.None? || |old(team1Players)| != perTeam)
        then team1Players == EmptySlots(perTeam) && team2Players == EmptySlots(perTeam)
        else team1Players == old(team1Players) && team2Players == old(team2Players)
      ensures initialData == old(initialData) && matchTime == old(matchTime) && matchDay == old(matchDay)
      ensures submitted == old(submitted)
    {
      if value != selectedStadium {
        selectedStadium := value;
        SyncRosters();
      }
    }

    /** The day input's onChange. */
    method SetMatchDay(day: string)
      modifies this
      ensures matchDay == Str(day)
      ensures matchTime == old(matchTime) && selectedStadium == old(selectedStadium) && initialData == old(initialData)
      ensures team1Players == old(team1Players) && team2Players == old(team2Players) && submitted == old(submitted)
    {
      matchDay := Str(day);
    }

    /** The time input's onChange. */
    method SetMatchTime(time: string)
      modifies this
      ensures matchTime == Str(time)
      ensures matchDay == old(matchDay) && selectedStadium == old(selectedStadium) && initialData == old(initialData)
      ensures team1Players == old(team1Players) && team2Players == old(team2Players) && submitted == old(submitted)
    {
      matchTime := Str(time);
    }

    /**
     * handlePlayerChange: team 1 or, for any other team number, team 2 gets
     * one slot set. The first roster's length is a dependency of the
     * stadium effect, so an edit that grows it runs that effect again.
     */
    method HandlePlayerChange(team: int, index: nat, value: string)
      requires EvenSizes(catalog)
      modifies this
      ensures team == 1 ==>
        var edited := SetSlot(old(team1Players), index, Str(value));
        var perTeam := PlayersPerTeam(catalog, selectedStadium);
        if index >= |old(team1Players)| && selectedStadium != "" && (initialData.None? || |edited| != perTeam)
        then team1Players == EmptySlots(perTeam) && team2Players == EmptySlots(perTeam)
        else team1Players == edited && team2Players == old(team2Players)
      ensures team != 1 ==> team2Players == SetSlot(old(team2Players), index, Str(value)) && team1Players == old(team1Players)
      ensures selectedStadium == old(selectedStadium) && initialData == old(initialData)
      ensures matchTime == old(matchTime) && matchDay == old(matchDay) && submitted == old(submitted)
    {
      if team == 1 {
        var newPlayers := team1Players;
        newPlayers := SetSlot(newPlayers, index, Str(value));
        var lengthChanged := |newPlayers| != |team1Players|;
        team1Players := newPlayers;
        if lengthChanged {
          SyncRosters();
        }
      } else {
        var newPlayers := team2Players;
        newPlayers := SetSlot(newPlayers, index, Str(value));
        team2Players := newPlayers;
      }
    }

    /** handleSubmit: the form's record is passed to onSubmit once. */
    method HandleSubmit(nowMillis: int, nowId: int)
      modifies this
      ensures submitted == old(submitted) + [SubmitRecord(catalog, selectedStadium, team1Players, team2Players,
                                                          matchTime, matchDay, initialData, nowMillis, nowId)]
      ensures selectedStadium == old(selectedStadium) && initialData == old(initialData)
      ensures team1Players == old(team1Players) && team2Players == old(team2Players)
      ensures matchTime == old(matchTime) && matchDay == old(matchDay)
    {
      var formData := SubmitRecord(catalog, selectedStadium, team1Players, team2Players,
                                   matchTime, matchDay, initialData, nowMillis, nowId);
      submitted := submitted + [formData];
    }
  }

  // ---------------------------------------------------------------------
  // Properties of the form
  // ---------------------------------------------------------------------

  /**
   * An in-range player edit replaces exactly that slot: the length and
   * every other slot stay, so rosters of equal length stay equal.
   */
  lemma PlayerEditKeepsRosterShape(players: seq<Value>, other: seq<Value>, index: nat, value: Value)
    requires index < |players| && |players| == |other|
    ensures |SetSlot(players, index, value)| == |other|
    ensures SetSlot(players, index, value)[index] == value
    ensures forall j :: 0 <= j < |players| && j != index ==> SetSlot(players, index, value)[j] == players[j]
  {
  }

  /** A stadium reset leaves rosters of `maxPlayers / 2` empty slots each. */
  lemma ResetRostersMatchStadium(catalog: seq<Stadium>, selected: string)
    requires EvenSizes(catalog) && FindStadium(catalog, selected).Some?
    ensures |EmptySlots(PlayersPerTeam(catalog, selected))| * 2 == FindStadium(catalog, selected).value.maxPlayers
    ensures forall j :: 0 <= j < |EmptySlots(PlayersPerTeam(catalog, selected))| ==> EmptySlots(PlayersPerTeam(catalog, selected))[j] == Str("")
  {
  }

  /**
   * The submitted record has exactly the form's fields: no score and no
   * createdAt. Its id and timestamp come from the edited record, or are
   * fresh for a new match.
   */
  lemma SubmittedRecordFields(catalog: seq<Stadium>, selected: string, team1: seq<Value>, team2: seq<Value>,
                              matchTime: Value, matchDay: Value, initialData: Option<Doc>, nowMillis: int, nowId: int)
    ensures var r := SubmitRecord(catalog, selected, team1, team2, matchTime, matchDay, initialData, nowMillis, nowId);
      && r.Keys == {"stadium", "team1Players", "team2Players", "matchTime", "matchDay", "timestamp", "id"}
      && "score" !in r && "createdAt" !in r && "team1Score" !in r && "team2Score" !in r
      && r["team1Players"] == Arr(team1) && r["team2Players"] == Arr(team2)
      && (initialData.Some? ==> r["id"] == Get(initialData.value, "id") && r["timestamp"] == Get(initialData.value, "timestamp"))
      && (initialData.None? ==> r["id"] == Num(nowId) && r["timestamp"] == Num(nowMillis))
  {
    var r := SubmitRecord(catalog, selected, team1, team2, matchTime, matchDay, initialData, nowMillis, nowId);
    assert r.Keys == {"stadium", "team1Players", "team2Players", "matchTime", "matchDay", "timestamp", "id"};
  }

  /**
   * Saving an edit overwrites the whole stored document: a score recorded
   * earlier is dropped and createdAt is stamped afresh, while id and
   * timestamp are kept.
   */
  lemma EditDropsScoreAndRestampsCreatedAt(docs: map<string, Doc>, catalog: seq<Stadium>, selected: string,
                                           team1: seq<Value>, team2: seq<Value>, matchTime: Value, matchDay: Value,
                                           initial: Doc, nowMillis: int, nowId: int, serverSeconds: int)
    requires MatchService.DocKey(Get(initial, "id")).Some?
    requires MatchService.DocKey(Get(initial, "id")).value in docs
    ensures var record := SubmitRecord(catalog, selected, team1, team2, matchTime, matchDay, Some(initial), nowMillis, nowId);
      var w := MatchService.SaveMatchSpec(docs, record, serverSeconds, false);
      var key := MatchService.DocKey(Get(initial, "id")).value;
      && (w.ok <==> !HasUndefinedField(MatchService.ToSave(record, serverSeconds)))
      && (w.ok ==>
            && "score" !in w.docs[key]
            && w.docs[key]["createdAt"] == Stamp(serverSeconds)
            && w.docs[key]["id"] == Get(initial, "id")
            && w.docs[key]["timestamp"] == Get(initial, "timestamp"))
  {
  }
}
