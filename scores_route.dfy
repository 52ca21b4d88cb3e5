/** The `/api/scores` route: POST validates a submitted score and maps the
    outcome of saving it to an HTTP response; GET reads the requested limit and
    maps the leaderboard query's outcome to a response. The handlers are pure
    functions of the parsed request and of what the awaited database calls
    returned. */
module ScoresRoute {
  import opened Common
  import opened DbClient

  /** A value produced by `request.json()`; `Undefined` is what reading an
      absent property gives. */
  datatype Json =
    | Undefined
    | Null
    | Bool(b: bool)
    | Number(n: real)
    | Str(s: string)
    | Arr(items: seq<Json>)
    | Obj(fields: map<string, Json>)

  /** JavaScript truthiness (JSON cannot produce NaN). */
  predicate Truthy(v: Json) {
    match v
    case Undefined => false
    case Null => false
    case Bool(b) => b
    case Number(n) => n != 0.0
    case Str(s) => s != ""
    case Arr(_) => true
    case Obj(_) => true
  }

  /** Reading property `key` of a value that is neither null nor undefined. */
  function Field(v: Json, key: string): Json {
    if v.Obj? && key in v.fields then v.fields[key] else Undefined
  }

  /** The request body: text that is not JSON, or the parsed value. */
  datatype RequestBody = Malformed | Parsed(json: Json)

  datatype ResponseBody =
    | ErrorBody(error: string)
    | SavedBody(id: int, createdAt: int)
    | RowsBody(rows: seq<ScoreRow>)
    | ErrorRowsBody(error: string, rows: seq<ScoreRow>)

  datatype Response = Response(status: nat, body: ResponseBody)

  const InvalidRequest: string := "Invalid request data"
  const InternalError: string := "Internal server error"
  const DefaultDifficulty: string := "average"

  /** The arguments the handler passes on to `saveScore`. */
  datatype Submission = Submission(playerName: Json, score: real, timeRemaining: real, total: real,
                                   difficulty: Json)

  /** The check the handler makes: a truthy player name and numbers for the
      three counts, nothing more. */
  predicate Acceptable(v: Json) {
    Truthy(Field(v, "playerName")) && Field(v, "score").Number?
    && Field(v, "timeRemaining").Number? && Field(v, "total").Number?
  }

  /** The first half of POST: parse, destructure and validate the body. */
  function ReadSubmission(body: RequestBody): (r: Result<Submission, Response>)
    ensures (body.Malformed? || body == Parsed(Null) || body == Parsed(Undefined))
            ==> r == Err(Response(500, ErrorBody(InternalError)))
    ensures body.Parsed? && body.json != Null && body.json != Undefined ==>
              (r.Ok? <==> Acceptable(body.json))
              && (r.Err? ==> r.error == Response(400, ErrorBody(InvalidRequest)))
    ensures r.Ok? ==>
              && r.value.playerName == Field(body.json, "playerName")
              && Number(r.value.score) == Field(body.json, "score")
              && Number(r.value.timeRemaining) == Field(body.json, "timeRemaining")
              && Number(r.value.total) == Field(body.json, "total")
    ensures r.Ok? ==> Truthy(r.value.difficulty)
    ensures r.Ok? && !Truthy(Field(body.json, "difficulty")) ==> r.value.difficulty == Str(DefaultDifficulty)
    ensures r.Ok? && Truthy(Field(body.json, "difficulty")) ==> r.value.difficulty == Field(body.json, "difficulty")
  {
    match body
    case Malformed => Err(Response(500, ErrorBody(InternalError)))
    case Parsed(v) =>
      if v.Null? || v.Undefined? then Err(Response(500, ErrorBody(InternalError)))
      else if !Acceptable(v) then Err(Response(400, ErrorBody(InvalidRequest)))
      else
        var difficulty := Field(v, "difficulty");
        Ok(Submission(Field(v, "playerName"), Field(v, "score").n, Field(v, "timeRemaining").n,
                      Field(v, "total").n, if Truthy(difficulty) then difficulty else Str(DefaultDifficulty)))
  }

  /** POST: a rejected body gets its error response; an accepted one gets 500
      with the save error when the save fails or throws, and 200 with the new
      row's id and timestamp when it succeeds. */
  function Post(body: RequestBody, saved: Awaited<SaveResult>): (r: Response)
    ensures r.status == 200 || r.status == 400 || r.status == 500
    ensures r.status == 400 <==> body.Parsed? && body.json != Null && body.json != Undefined
                                 && !Acceptable(body.json)
    ensures r.status == 200 <==> ReadSubmission(body).Ok? && saved.Returned? && saved.value.Saved?
    ensures r.status == 200 ==> r.body == SavedBody(saved.value.id, saved.value.createdAt)
    ensures ReadSubmission(body).Ok? && saved.Returned? && saved.value.SaveFailed? ==>
              r == Response(500, ErrorBody(saved.value.error))
    ensures ReadSubmission(body).Ok? && saved.Threw? ==> r == Response(500, ErrorBody(InternalError))
  {
    match ReadSubmission(body)
    case Err(response) => response
    case Ok(_) =>
      match saved
      case Threw => Response(500, ErrorBody(InternalError))
      case Returned(SaveFailed(error)) => Response(500, ErrorBody(error))
      case Returned(Saved(id, createdAt)) => Response(200, SavedBody(id, createdAt))
  }

  /** Validation looks at types and truthiness only: a blank-looking name and
      negative, fractional counts pass. */
  lemma ValidationChecksTypesOnly()
    ensures ReadSubmission(Parsed(Obj(map["playerName" := Str(" "), "score" := Number(-1.5),
                                      "timeRemaining" := Number(-0.25), "total" := Number(0.0)]))).Ok?
    ensures ReadSubmission(Parsed(Obj(map["playerName" := Str(""), "score" := Number(1.0),
                                      "timeRemaining" := Number(1.0), "total" := Number(1.0)])))
            == Err(Response(400, ErrorBody(InvalidRequest)))
    ensures ReadSubmission(Parsed(Obj(map["playerName" := Str("Ada"), "score" := Str("3"),
                                      "timeRemaining" := Number(1.0), "total" := Number(1.0)])))
            == Err(Response(400, ErrorBody(InvalidRequest)))
  {
  }

  /** The limit GET asks the database for: `parseInt(param || "100", 10)`,
      where `None` stands for NaN. */
  function RequestedLimit(param: Option<string>): (r: Option<int>)
    ensures param.None? || param == Some("") ==> r == Some(DefaultLimit)
    ensures param.Some? && param.value != "" ==> r == ParseInt(param.value)
  {
    var text := if param.Some? && param.value != "" then param.value else "100";
    DefaultLimitRendering();
    ParseIntRoundTrip(100, "");
    ParseInt(text)
  }

  lemma DefaultLimitRendering()
    ensures NatToString(100) + "" == "100"
  {
    assert DigitChar(0) == '0' && DigitChar(1) == '1';
    assert NatToString(1) == "1";
    assert NatToString(10) == NatToString(1) + [DigitChar(0)];
    assert NatToString(100) == NatToString(10) + [DigitChar(0)];
  }

  /** A limit written in decimal is read back as that number. */
  lemma RequestedLimitReadsDecimal(n: nat)
    ensures RequestedLimit(Some(NatToString(n))) == Some(n)
  {
    ParseIntRoundTrip(n, "");
    assert NatToString(n) + "" == NatToString(n);
  }

  /** GET: a listed result is returned with status 200; a failed or thrown
      query gives 500 with an empty row list. */
  function Get(result: Awaited<LeaderboardResult>): (r: Response)
    ensures r.status == 200 <==> result.Returned? && result.value.Listed?
    ensures r.status == 200 ==> r.body == RowsBody(result.value.rows)
    ensures r.status != 200 ==> r.status == 500 && r.body.ErrorRowsBody? && r.body.rows == []
    ensures result.Returned? && result.value.ListFailed? ==> r.body.error == result.value.error
    ensures result.Threw? ==> r.body == ErrorRowsBody(InternalError, [])
  {
    match result
    case Threw => Response(500, ErrorRowsBody(InternalError, []))
    case Returned(ListFailed(error)) => Response(500, ErrorRowsBody(error, []))
    case Returned(Listed(rows)) => Response(200, RowsBody(rows))
  }
}
