/**
 * The `ActionsCompleter` resource of gw_clock_api.py (route /actions/completer):
 * mark one action as done.
 */
module ActionsCompleter {
  import opened Wrappers
  import opened PyRuntime
  import opened Storage
  import opened Resources
  import Actions

  const CompletedText := "Nous avons bien modifié l'action."
  const CompleteFailedText := "Une erreur innattendue est survenue lors de la modification de l'action."

  /**
   * POST /actions/completer: set est_effectue to 1 on the row with that id, whatever it
   * held. An id that matches no row is not a 404 here but an error body without a status.
   */
  method Post(db: SqliteUtils, body: Body, env: Env) returns (o: Outcome)
    requires db.Valid()
    modifies db
    ensures db.Valid()
    ensures env.connect.Some? ==> o == ServerError500(UnexpectedText)
    ensures env.connect.None? && Actions.ValidateId(body).Failure? ==> o == Caught(Actions.ValidateId(body).error)
    ensures env.connect.None? && Actions.ValidateId(body).Success? && env.execute.Some? ==>
              o == ServerError500(UnexpectedText)
    ensures env.connect.None? && Actions.ValidateId(body).Success? && env.execute.None? ==>
              var id := Actions.ValidateId(body).value;
              && db.rows == CompletedRows(old(db.rows), id)
              && o == if id in old(db.rows) then Ok200(CompletedText) else ErrorNoStatus(CompleteFailedText)
    ensures !o.Ok200? ==> db.rows == old(db.rows)
  {
    if env.connect.Some? {
      return Caught(StorageRaised(env.connect.value));
    }
    var checked := Actions.ValidateId(body);
    if checked.Failure? {
      return Caught(checked.error);
    }
    var count := db.Execute(CompleteAction(checked.value), env.execute);
    if count.Failure? {
      return Caught(StorageRaised(count.error));
    }
    if count.value > 0 {
      o := Ok200(CompletedText);
    } else {
      o := ErrorNoStatus(CompleteFailedText);
    }
  }

  /**
   * Completing an existing action twice succeeds both times and leaves it with
   * est_effectue 1 and its other fields as they were.
   */
  method CompleteTwice(db: SqliteUtils, body: Body) returns (first: Outcome, second: Outcome)
    requires db.Valid()
    requires Actions.ValidateId(body).Success? && Actions.ValidateId(body).value in db.rows
    modifies db
    ensures first == second == Ok200(CompletedText)
    ensures var id := Actions.ValidateId(body).value;
            && db.rows == CompletedRows(old(db.rows), id)
            && db.rows[id] == old(db.rows)[id].(estEffectue := Int(1))
  {
    var id := Actions.ValidateId(body).value;
    first := Post(db, body, Env(None, None));
    second := Post(db, body, Env(None, None));
    CompleteIdempotent(old(db.rows), id);
  }
}
