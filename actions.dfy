/**
 * The `Actions` resource of gw_clock_api.py (route /actions): list, create, full
 * update and delete. Each handler opens the database, reads and checks the fields of
 * the body in a fixed order, issues one statement, and maps its row count, or the
 * exception raised on the way, to a response.
 */
module Actions {
  import opened Wrappers
  import opened PyRuntime
  import opened Storage
  import opened Resources

  /** The fields of a POST body that passed the checks, as they are bound to the INSERT. */
  datatype CreateRequest = CreateRequest(dateTime: Json, value: Json, typeActionId: Json)

  /** The fields of a PATCH body that passed the checks: the key as `int(id)`, the four columns as sent. */
  datatype PatchRequest = PatchRequest(id: int, action: Action)

  /** The fields POST reads, in the order it reads them. */
  const CreateFields := ["date_time", "value", "type_action_id"]

  /** The fields PATCH reads, in the order it reads them. */
  const PatchFields := ["id", "date_time", "value", "est_effectue", "type_action_id"]

  const ListedText := "Nous avons trouvés des actions."
  const NoActionText := "Aucune action n'a été trouvé."
  const ListingFailedText := "Une erreur innattendue est survenue lors de l'obtention des actions"
  const CreatedText := "Nous avons bien enregistré l'action."
  const CreateFailedText := "Une erreur innattendue est survenue lors de l'enregistrement de l'action."
  const PatchedText := "Nous avons bien modifié l'action."
  const PatchMissingText := "L'action n'a pas pu être modifié, car celle-ci n'existe pas."
  const DeletedText := "Nous avons bien supprimé l'action."
  const DeleteMissingText := "L'action n'a pas été trouvé et donc n'a pas été supprimé."

  /**
   * The validation chain of POST: read the three fields, then refuse an empty date_time,
   * value or type_action_id, in that order, then `int(type_action_id) <= 0`.
   */
  function ValidateCreate(body: Body): (r: Result<CreateRequest, Raised>)
    // accepted exactly when the three fields are filled and type_action_id is a positive integer
    ensures r.Success? <==> Filled(body, "date_time") && Filled(body, "value") && PositiveField(body, "type_action_id")
    ensures r.Success? ==> r.value == CreateRequest(body["date_time"], body["value"], body["type_action_id"])
    // every field is read before any is checked: the first missing one is reported by its name
    ensures FirstMissing(body, CreateFields).Some? ==>
              r == Failure(KeyError(MissingField(FirstMissing(body, CreateFields).value)))
    // then the first failing check decides the description
    ensures r == Failure(KeyError(EmptyField("date_time"))) <==>
              AllPresent(body, CreateFields) && IsEmptyString(body["date_time"])
    ensures r == Failure(KeyError(EmptyField("value"))) <==>
              AllPresent(body, CreateFields) && Filled(body, "date_time") && IsEmptyString(body["value"])
    ensures r == Failure(KeyError(EmptyField("type_action_id"))) <==>
              AllPresent(body, CreateFields) && Filled(body, "date_time") && Filled(body, "value")
              && IsEmptyString(body["type_action_id"])
    ensures r == Failure(KeyError(NotPositiveField("type_action_id"))) <==>
              Filled(body, "date_time") && Filled(body, "value") && NotPositive(body, "type_action_id")
    // `int()` raising on a non-numeric type_action_id is the only failure that is not a KeyError
    ensures r == Failure(ValueError) <==>
              Filled(body, "date_time") && Filled(body, "value") && NotNumeric(body, "type_action_id")
    ensures r.Failure? ==> r.error.KeyError? || r.error == ValueError
    ensures r.Failure? && r.error.KeyError? ==> '\'' !in r.error.reason.name
  {
    if "date_time" !in body then Failure(KeyError(MissingField("date_time")))
    else if "value" !in body then Failure(KeyError(MissingField("value")))
    else if "type_action_id" !in body then Failure(KeyError(MissingField("type_action_id")))
    else
      var dateTime, value, typeActionId := body["date_time"], body["value"], body["type_action_id"];
      if IsEmptyString(dateTime) then Failure(KeyError(EmptyField("date_time")))
      else if IsEmptyString(value) then Failure(KeyError(EmptyField("value")))
      else if IsEmptyString(typeActionId) then Failure(KeyError(EmptyField("type_action_id")))
      else match IntOf(typeActionId)
        case None => Failure(ValueError)
        case Some(n) =>
          if n <= 0 then Failure(KeyError(NotPositiveField("type_action_id")))
          else Success(CreateRequest(dateTime, value, typeActionId))
  }

  /** The body has the five fields PATCH reads. */
  predicate PatchFieldsRead(body: Body)
  {
    "id" in body && "date_time" in body && "value" in body && "est_effectue" in body && "type_action_id" in body
  }

  /** PATCH has read its five fields and id passed its two checks. */
  predicate PatchIdPasses(body: Body)
  {
    PatchFieldsRead(body) && PositiveField(body, "id")
  }

  /** ... and date_time and value are not empty. */
  predicate PatchTextsPass(body: Body)
  {
    PatchIdPasses(body) && Filled(body, "date_time") && Filled(body, "value")
  }

  /** ... and est_effectue passed its two checks. */
  predicate PatchEstPasses(body: Body)
  {
    PatchTextsPass(body) && PositiveField(body, "est_effectue")
  }

  /**
   * The validation chain of PATCH: read the five fields, then check id, date_time, value,
   * est_effectue and type_action_id in that order. The two checks on est_effectue
   * raise the texts written for id.
   */
  function ValidatePatch(body: Body): (r: Result<PatchRequest, Raised>)
    // accepted exactly when date_time and value are filled and id, est_effectue and
    // type_action_id are all positive integers
    ensures r.Success? <==>
              PositiveField(body, "id") && Filled(body, "date_time") && Filled(body, "value")
              && PositiveField(body, "est_effectue") && PositiveField(body, "type_action_id")
    ensures r.Success? ==>
              r.value == PatchRequest(IntOf(body["id"]).value,
                                      Action(body["date_time"], body["value"], body["est_effectue"], body["type_action_id"]))
    // every field is read before any is checked: a missing field is reported by its name
    ensures !AllPresent(body, PatchFields) ==>
              r.Failure? && r.error.KeyError? && r.error.reason.MissingField? && r.error.reason.name !in body
    // then the first failing check decides the description; both checks on est_effectue
    // report the texts written for id
    ensures r == Failure(KeyError(EmptyField("id"))) <==>
              PatchFieldsRead(body)
              && (IsEmptyString(body["id"]) || (PatchTextsPass(body) && IsEmptyString(body["est_effectue"])))
    ensures r == Failure(KeyError(NotPositiveField("id"))) <==>
              PatchFieldsRead(body)
              && (NotPositive(body, "id") || (PatchTextsPass(body) && NotPositive(body, "est_effectue")))
    ensures r == Failure(KeyError(EmptyField("date_time"))) <==>
              PatchIdPasses(body) && IsEmptyString(body["date_time"])
    ensures r == Failure(KeyError(EmptyField("value"))) <==>
              PatchIdPasses(body) && Filled(body, "date_time") && IsEmptyString(body["value"])
    ensures r == Failure(KeyError(EmptyField("type_action_id"))) <==>
              PatchEstPasses(body) && IsEmptyString(body["type_action_id"])
    ensures r == Failure(KeyError(NotPositiveField("type_action_id"))) <==>
              PatchEstPasses(body) && NotPositive(body, "type_action_id")
    // `int()` raising on a non-numeric id, est_effectue or type_action_id is a ValueError
    ensures r == Failure(ValueError) <==>
              PatchFieldsRead(body)
              && (|| NotNumeric(body, "id")
                  || (PatchTextsPass(body) && NotNumeric(body, "est_effectue"))
                  || (PatchEstPasses(body) && NotNumeric(body, "type_action_id")))
    // there is no other failure: a field error names a field that has texts
    ensures r.Failure? ==>
              || r.error == ValueError
              || (r.error.KeyError? && (r.error.reason.MissingField? ||
                                        r.error.reason.name in ["id", "date_time", "value", "type_action_id"]))
    ensures r.Failure? && r.error.KeyError? ==> '\'' !in r.error.reason.name
  {
    if "id" !in body then Failure(KeyError(MissingField("id")))
    else if "date_time" !in body then Failure(KeyError(MissingField("date_time")))
    else if "value" !in body then Failure(KeyError(MissingField("value")))
    else if "est_effectue" !in body then Failure(KeyError(MissingField("est_effectue")))
    else if "type_action_id" !in body then Failure(KeyError(MissingField("type_action_id")))
    else
      match CheckPositive(body["id"], "id")
      case Some(e) => Failure(e)
      case None => PatchAfterId(body)
  }

  /**
   * The rest of the PATCH chain, once id has passed: refuse an empty date_time or value,
   * then check est_effectue, with the texts written for id, then type_action_id.
   */
  function PatchAfterId(body: Body): (r: Result<PatchRequest, Raised>)
    requires PatchIdPasses(body)
    ensures r.Success? <==> PatchEstPasses(body) && PositiveField(body, "type_action_id")
    ensures r.Success? ==>
              r.value == PatchRequest(IntOf(body["id"]).value,
                                      Action(body["date_time"], body["value"], body["est_effectue"], body["type_action_id"]))
    ensures r == Failure(KeyError(EmptyField("date_time"))) <==> IsEmptyString(body["date_time"])
    ensures r == Failure(KeyError(EmptyField("value"))) <==>
              Filled(body, "date_time") && IsEmptyString(body["value"])
    ensures r == Failure(KeyError(EmptyField("id"))) <==>
              PatchTextsPass(body) && IsEmptyString(body["est_effectue"])
    ensures r == Failure(KeyError(NotPositiveField("id"))) <==>
              PatchTextsPass(body) && NotPositive(body, "est_effectue")
    ensures r == Failure(KeyError(EmptyField("type_action_id"))) <==>
              PatchEstPasses(body) && IsEmptyString(body["type_action_id"])
    ensures r == Failure(KeyError(NotPositiveField("type_action_id"))) <==>
              PatchEstPasses(body) && NotPositive(body, "type_action_id")
    ensures r == Failure(ValueError) <==>
              || (PatchTextsPass(body) && NotNumeric(body, "est_effectue"))
              || (PatchEstPasses(body) && NotNumeric(body, "type_action_id"))
    // a field error names one of the four fields that have texts
    ensures r.Failure? && r.error.KeyError? ==>
              !r.error.reason.MissingField? && r.error.reason.name in ["id", "date_time", "value", "type_action_id"]
  {
    var dateTime, value := body["date_time"], body["value"];
    var estEffectue, typeActionId := body["est_effectue"], body["type_action_id"];
    if IsEmptyString(dateTime) then Failure(KeyError(EmptyField("date_time")))
    else if IsEmptyString(value) then Failure(KeyError(EmptyField("value")))
    else match CheckPositive(estEffectue, "id")  // the texts written for id
      case Some(e) => Failure(e)
      case None =>
        match CheckPositive(typeActionId, "type_action_id")
        case Some(e) => Failure(e)
        case None => Success(PatchRequest(IntOf(body["id"]).value, Action(dateTime, value, estEffectue, typeActionId)))
  }

  /**
   * The checks on est_effectue raise the texts written for id: est_effectue = 0, as a
   * number or as "0", and an empty est_effectue are refused as faults of id, and no
   * description ever names est_effectue.
   */
  lemma PatchEstEffectueAsId(body: Body)
    ensures PatchTextsPass(body) && NotPositive(body, "est_effectue") ==>
              ValidatePatch(body) == Failure(KeyError(NotPositiveField("id")))
    ensures PatchTextsPass(body) && IsEmptyString(body["est_effectue"]) ==>
              ValidatePatch(body) == Failure(KeyError(EmptyField("id")))
    ensures ValidatePatch(body).Failure? && ValidatePatch(body).error.KeyError? ==>
              var reason := ValidatePatch(body).error.reason;
              !reason.MissingField? ==> reason.name != "est_effectue"
  {
  }

  /** The missing field PATCH reports is the first of its fields, in reading order, that the body lacks. */
  lemma PatchReportsFirstMissing(body: Body)
    requires !AllPresent(body, PatchFields)
    ensures ValidatePatch(body) == Failure(KeyError(MissingField(FirstMissing(body, PatchFields).value)))
  {
    FirstMissingStep(body, "id", ["date_time", "value", "est_effectue", "type_action_id"]);
    FirstMissingStep(body, "date_time", ["value", "est_effectue", "type_action_id"]);
    FirstMissingStep(body, "value", ["est_effectue", "type_action_id"]);
    FirstMissingStep(body, "est_effectue", ["type_action_id"]);
    FirstMissingStep(body, "type_action_id", []);
  }

  /**
   * The validation chain of DELETE, and of ActionsCompleter.post, which repeats it:
   * read id, refuse `""`, then `int(id) <= 0`. The result is the key `int(id)`.
   */
  function ValidateId(body: Body): (r: Result<int, Raised>)
    ensures r.Success? <==> PositiveField(body, "id")
    ensures r.Success? ==> IntOf(body["id"]) == Some(r.value)
    ensures "id" !in body ==> r == Failure(KeyError(MissingField("id")))
    // an empty or non-positive id is a field error
    ensures "id" in body && IsEmptyString(body["id"]) ==> r == Failure(KeyError(EmptyField("id")))
    ensures NotPositive(body, "id") ==> r == Failure(KeyError(NotPositiveField("id")))
    // a non-numeric id makes `int()` raise
    ensures r == Failure(ValueError) <==> NotNumeric(body, "id")
    ensures r.Failure? && r.error.KeyError? ==> '\'' !in r.error.reason.name
  {
    if "id" !in body then Failure(KeyError(MissingField("id")))
    else
      var id := body["id"];
      if IsEmptyString(id) then Failure(KeyError(EmptyField("id")))
      else match IntOf(id)
        case None => Failure(ValueError)
        case Some(n) => if n <= 0 then Failure(KeyError(NotPositiveField("id"))) else Success(n)
  }

  /** An id sent as its decimal string is validated exactly like the number itself. */
  lemma ValidateIdOfDecimal(body: Body, n: int)
    ensures ValidateId(body["id" := Str(Decimal(n))]) == ValidateId(body["id" := Int(n)])
  {
    ParseIntOfDecimal(n);
  }

  /** The 500 of GET: its two `except` clauses carry different texts. */
  function ListingError(e: StorageError): (o: Outcome)
    ensures e.OperationalError? ==> o == ServerError500(UnexpectedText)
    ensures e.OtherError? ==> o == ServerError500(ListingFailedText)
  {
    match e
    case OperationalError => ServerError500(UnexpectedText)
    case OtherError => ServerError500(ListingFailedText)
  }

  /**
   * GET /actions: every row, or 404 when there is none. It changes nothing.
   */
  method Get(db: SqliteUtils, env: Env) returns (o: Outcome)
    requires db.Valid()
    ensures env.connect.Some? ==> o == ListingError(env.connect.value)
    ensures env.connect.None? && env.execute.Some? ==> o == ListingError(env.execute.value)
    ensures env == Env(None, None) && db.rows != map[] ==>
              o.Listed200? && o.message == ListedText && Lists(o.actions, db.rows)
    // every listed action carries a key the engine assigned
    ensures o.Listed200? ==> forall i :: 0 <= i < |o.actions| ==> o.actions[i].id > 0
    ensures env == Env(None, None) && db.rows == map[] ==> o == NotFound404(NoActionText)
  {
    if env.connect.Some? {
      return ListingError(env.connect.value);
    }
    var selected := db.Select(env.execute);
    if selected.Failure? {
      return ListingError(selected.error);
    }
    if selected.value != [] {
      o := Listed200(ListedText, selected.value);
    } else {
      o := NotFound404(NoActionText);
    }
  }

  /**
   * POST /actions: a new row with the three fields sent and est_effectue 0.
   */
  method Post(db: SqliteUtils, body: Body, env: Env) returns (o: Outcome)
    requires db.Valid()
    modifies db
    ensures db.Valid()
    // opening the database comes first: its failure is answered before the body is read
    ensures env.connect.Some? ==> o == ServerError500(UnexpectedText)
    // a refused body is answered before the INSERT
    ensures env.connect.None? && ValidateCreate(body).Failure? ==> o == Caught(ValidateCreate(body).error)
    ensures env.connect.None? && ValidateCreate(body).Success? && env.execute.Some? ==>
              o == ServerError500(UnexpectedText)
    // an accepted body meeting no failure is stored and answered 200
    ensures env.connect.None? && ValidateCreate(body).Success? && env.execute.None? ==> o == Ok200(CreatedText)
    // success adds exactly one row, under a fresh positive key, with the fields sent and
    // est_effectue 0, whatever else the body holds
    ensures o.Ok200? ==>
              var req := ValidateCreate(body).value;
              exists id :: id > 0 && id !in old(db.rows) &&
                           db.rows == old(db.rows)[id := NewAction(req.dateTime, req.value, req.typeActionId)]
    // any other answer leaves the table as it was
    ensures !o.Ok200? ==> db.rows == old(db.rows)
  {
    if env.connect.Some? {
      return Caught(StorageRaised(env.connect.value));
    }
    var checked := ValidateCreate(body);
    if checked.Failure? {
      return Caught(checked.error);
    }
    var req := checked.value;
    var count := db.Execute(InsertAction(req.dateTime, req.value, req.typeActionId), env.execute);
    if count.Failure? {
      return Caught(StorageRaised(count.error));
    }
    // the engine reports 1 for the INSERT, so the second answer is never given
    o := if count.value > 0 then Ok200(CreatedText) else ErrorNoStatus(CreateFailedText);
  }

  /**
   * PATCH /actions: overwrite the four columns of the row with that id.
   */
  method Patch(db: SqliteUtils, body: Body, env: Env) returns (o: Outcome)
    requires db.Valid()
    modifies db
    ensures db.Valid()
    ensures env.connect.Some? ==> o == ServerError500(UnexpectedText)
    ensures env.connect.None? && ValidatePatch(body).Failure? ==> o == Caught(ValidatePatch(body).error)
    ensures env.connect.None? && ValidatePatch(body).Success? && env.execute.Some? ==>
              o == ServerError500(UnexpectedText)
    // only the row with that id is overwritten; 404 when there is none
    ensures env.connect.None? && ValidatePatch(body).Success? && env.execute.None? ==>
              var req := ValidatePatch(body).value;
              && db.rows == UpdatedRows(old(db.rows), req.id, req.action)
              && o == if req.id in old(db.rows) then Ok200(PatchedText) else NotFound404(PatchMissingText)
    ensures !o.Ok200? ==> db.rows == old(db.rows)
  {
    if env.connect.Some? {
      return Caught(StorageRaised(env.connect.value));
    }
    var checked := ValidatePatch(body);
    if checked.Failure? {
      return Caught(checked.error);
    }
    var req := checked.value;
    var count := db.Execute(UpdateAction(req.id, req.action), env.execute);
    if count.Failure? {
      return Caught(StorageRaised(count.error));
    }
    if count.value > 0 {
      o := Ok200(PatchedText);
    } else {
      o := NotFound404(PatchMissingText);
    }
  }

  /**
   * DELETE /actions: remove the row with that id.
   */
  method Delete(db: SqliteUtils, body: Body, env: Env) returns (o: Outcome)
    requires db.Valid()
    modifies db
    ensures db.Valid()
    ensures env.connect.Some? ==> o == ServerError500(UnexpectedText)
    ensures env.connect.None? && ValidateId(body).Failure? ==> o == Caught(ValidateId(body).error)
    ensures env.connect.None? && ValidateId(body).Success? && env.execute.Some? ==>
              o == ServerError500(UnexpectedText)
    // only the row with that id goes; 404 when there is none
    ensures env.connect.None? && ValidateId(body).Success? && env.execute.None? ==>
              var id := ValidateId(body).value;
              && db.rows == RemovedRows(old(db.rows), id)
              && o == if id in old(db.rows) then Ok200(DeletedText) else NotFound404(DeleteMissingText)
    ensures !o.Ok200? ==> db.rows == old(db.rows)
  {
    if env.connect.Some? {
      return Caught(StorageRaised(env.connect.value));
    }
    var checked := ValidateId(body);
    if checked.Failure? {
      return Caught(checked.error);
    }
    var count := db.Execute(DeleteAction(checked.value), env.execute);
    if count.Failure? {
      return Caught(StorageRaised(count.error));
    }
    if count.value > 0 {
      o := Ok200(DeletedText);
    } else {
      o := NotFound404(DeleteMissingText);
    }
  }

  /**
   * A create followed by a list: an accepted body is created, and then the listing holds the new row under a
   * positive key the table did not hold before, with the fields sent and est_effectue 0.
   */
  method CreateThenList(db: SqliteUtils, body: Body) returns (created: Outcome, listed: Outcome)
    requires db.Valid()
    modifies db
    ensures ValidateCreate(body).Success? ==> created == Ok200(CreatedText)
    ensures created.Ok200? ==>
              && ValidateCreate(body).Success?
              && listed.Listed200?
              && exists i :: 0 <= i < |listed.actions| && listed.actions[i].id > 0 && listed.actions[i].id !in old(db.rows) &&
                   listed.actions[i].action == Action(body["date_time"], body["value"], Int(0), body["type_action_id"])
    ensures !created.Ok200? ==> db.rows == old(db.rows)
  {
    created := Post(db, body, Env(None, None));
    listed := Get(db, Env(None, None));
    if created.Ok200? {
      ghost var req := ValidateCreate(body).value;
      ghost var id :| id > 0 && id !in old(db.rows) &&
                db.rows == old(db.rows)[id := NewAction(req.dateTime, req.value, req.typeActionId)];
      assert id in db.rows;
      ghost var i :| 0 <= i < |listed.actions| && listed.actions[i].id == id;
    }
  }
}
