/**
 * What the two flask Resource classes of gw_clock_api.py share: the tagged response a
 * handler returns, the `except` clauses that turn an exception into a response, the
 * runtime conditions a request meets, and the field checks of the validation chains.
 */
module Resources {
  import opened Wrappers
  import opened PyRuntime
  import opened Storage

  /** Why a field was refused: the three kinds of KeyError the handlers raise. */
  datatype FieldError =
    | MissingField(name: string)      // `request.json[name]` on a body without that key
    | EmptyField(name: string)        // "Le champ <name> ne peut être vide."
    | NotPositiveField(name: string)  // "Le champ <name> ne peut être zéro ou négatif."

  /** The argument of the KeyError raised for a field error. */
  function ErrorText(e: FieldError): (t: string)
    ensures '\'' !in e.name ==> '\'' !in t
  {
    match e
    case MissingField(name) => name
    case EmptyField(name) => "Le champ " + name + " ne peut être vide."
    case NotPositiveField(name) => "Le champ " + name + " ne peut être zéro ou négatif."
  }

  /** The exceptions a handler raises, by the `except` clause that catches them. */
  datatype Raised =
    | KeyError(reason: FieldError)     // `except KeyError`
    | StorageRaised(error: StorageError) // `except sqlite3.OperationalError`, or `except Exception` for the rest
    | ValueError                       // `except Exception`: `int()` of a string that is not a number

  /** The `(body, status)` a handler returns, by status. */
  datatype Outcome =
    | Ok200(message: string)                           // {"message": ...}, 200
    | Listed200(message: string, actions: seq<Record>) // {"message": ..., "liste_actions": ...}, 200
    | NotFound404(erreur: string)                      // {"erreur": ...}, 404
    | BadRequest400(erreur: string, description: string) // {"erreur": ..., "description": ...}, 400
    | ServerError500(erreur: string)                   // {"erreur": ...}, 500
    | ErrorNoStatus(erreur: string)                    // {"erreur": ...} returned without a status

  /** What the request meets that its body does not decide: whether opening the database
      (`SqliteUtils(nom_bd)`) raises, and whether executing the handler's statement raises. */
  datatype Env = Env(connect: Option<StorageError>, execute: Option<StorageError>)

  const FieldErrorText := "Une erreur existe dans un de champs."
  const UnexpectedText := "Une erreur innattendue est survenue."

  /**
   * The three `except` clauses of Actions.post, patch, delete and ActionsCompleter.post:
   * a KeyError is a 400 whose description is `str(e)` without its quotes; an
   * OperationalError or any other exception is a 500 with the generic text.
   */
  function Caught(e: Raised): (o: Outcome)
    ensures o.BadRequest400? <==> e.KeyError?
    ensures o.BadRequest400? ==> o.erreur == FieldErrorText && '\'' !in o.description
    ensures e.KeyError? && '\'' !in e.reason.name ==> o == BadRequest400(FieldErrorText, ErrorText(e.reason))
    ensures !e.KeyError? ==> o == ServerError500(UnexpectedText)
  {
    match e
    case KeyError(reason) =>
      var description := RemoveQuotes(KeyErrorText(ErrorText(reason)));
      assert '\'' !in reason.name ==> description == ErrorText(reason) by {
        if '\'' !in reason.name {
          UnquoteKeyError(ErrorText(reason));
        }
      }
      BadRequest400(FieldErrorText, description)
    case _ => ServerError500(UnexpectedText)
  }

  /** The field is present and is not `""`. */
  predicate Filled(body: Body, key: string)
  {
    key in body && !IsEmptyString(body[key])
  }

  /** The field is present, `int()` of it succeeds, and the number is positive. */
  predicate PositiveField(body: Body, key: string)
  {
    key in body && IntOf(body[key]).Some? && IntOf(body[key]).value > 0
  }

  /** The field is present, is not `""`, and `int()` of it raises. */
  predicate NotNumeric(body: Body, key: string)
  {
    Filled(body, key) && IntOf(body[key]).None?
  }

  /** The field is present and `int()` of it gives zero or less. */
  predicate NotPositive(body: Body, key: string)
  {
    key in body && IntOf(body[key]).Some? && IntOf(body[key]).value <= 0
  }

  /** FirstMissing looks at the first key, then at the rest. */
  lemma FirstMissingStep(body: Body, key: string, rest: seq<string>)
    ensures FirstMissing(body, [key] + rest) == if key !in body then Some(key) else FirstMissing(body, rest)
  {
  }

  /** The body has every one of `keys`. */
  predicate AllPresent(body: Body, keys: seq<string>)
  {
    forall k :: k in keys ==> k in body
  }

  /** The first of `keys` the body lacks: `request.json[key]` raises KeyError(key) for it. */
  function FirstMissing(body: Body, keys: seq<string>): (r: Option<string>)
    ensures r.None? <==> AllPresent(body, keys)
    ensures r.Some? ==> r.value !in body && r.value in keys
    // every key before it is present
    ensures r.Some? ==>
              exists i :: 0 <= i < |keys| && keys[i] == r.value && forall j :: 0 <= j < i ==> keys[j] in body
  {
    if keys == [] then None
    else if keys[0] !in body then Some(keys[0])
    else
      var r := FirstMissing(body, keys[1..]);
      // a position in the rest is one further along in `keys`
      assert r.Some? ==> exists i :: 0 <= i < |keys| && keys[i] == r.value && forall j :: 0 <= j < i ==> keys[j] in body by {
        if r.Some? {
          var i :| 0 <= i < |keys[1..]| && keys[1..][i] == r.value && forall j :: 0 <= j < i ==> keys[1..][j] in body;
          assert keys[i + 1] == r.value && forall j :: 0 <= j < i + 1 ==> keys[j] in body;
        }
      }
      r
  }

  /**
   * The two checks the handlers make on an identifier: `if v == ""` raise the empty text,
   * then `if int(v) <= 0` raise the not-positive text, both about `field`; `int()`
   * itself raises on a string that is not a number.
   */
  function CheckPositive(v: Json, field: string): (r: Option<Raised>)
    ensures r.None? <==> IntOf(v).Some? && IntOf(v).value > 0
    ensures IsEmptyString(v) ==> r == Some(KeyError(EmptyField(field)))
    ensures !IsEmptyString(v) && IntOf(v).None? ==> r == Some(ValueError)
    ensures IntOf(v).Some? && IntOf(v).value <= 0 ==> r == Some(KeyError(NotPositiveField(field)))
  {
    if IsEmptyString(v) then Some(KeyError(EmptyField(field)))
    else match IntOf(v)
      case None => Some(ValueError)
      case Some(n) => if n <= 0 then Some(KeyError(NotPositiveField(field))) else None
  }
}
