/** Record shapes (shared/schema.ts) as the in-memory store uses them, JavaScript
    values as they arrive in request bodies, and the insert schema's parse of a
    submitted application. Times are milliseconds since the epoch. */
module Schema {
  import opened Wrappers

  /** A JavaScript value from a JSON body or a form. */
  datatype JsValue =
    | Undefined
    | Null
    | Bool(b: bool)
    | Str(s: string)
    | Object(entries: seq<(string, JsValue)>)
    /** a number or an array: whether it is truthy, and what `toString()` gives */
    | Other(truthy: bool, text: string)

  /** JavaScript truthiness. */
  predicate Truthy(v: JsValue) {
    match v
    case Undefined => false
    case Null => false
    case Bool(b) => b
    case Str(s) => s != ""
    case Object(_) => true
    case Other(t, _) => t
  }

  /** A field of a JSON body; a missing key reads as `undefined`. */
  function Field(body: map<string, JsValue>, key: string): JsValue {
    if key in body then body[key] else Undefined
  }

  datatype Status = Pending | Accepted | Rejected

  /** What `insertApplicationSchema.parse` yields: every column except id, the two
      timestamps and reviewedBy. `status` may be supplied; the store ignores it. */
  datatype InsertApplication = InsertApplication(
    applicationType: string,
    discordUsername: string,
    discordUserId: Option<string>,
    formData: JsValue,
    status: Option<string>)

  /** A stored application, with the fields the store writes (createdAt/updatedAt). */
  datatype Application = Application(
    id: string,
    applicationType: string,
    discordUsername: string,
    discordUserId: Option<string>,
    formData: JsValue,
    status: Status,
    reviewedBy: Option<string>,
    createdAt: int,
    updatedAt: int)

  datatype ApplicationSettings = ApplicationSettings(
    id: string,
    applicationType: string,
    isOpen: bool,
    updatedAt: int)

  datatype InsertAdminSession = InsertAdminSession(sessionId: string, expiresAt: int)

  datatype AdminSession = AdminSession(id: string, sessionId: string, expiresAt: int, createdAt: int)

  /** `insertApplicationSchema.parse(body)`: `type` and `discordUsername` are required
      strings, `discordUserId` is an optional nullable string, `formData` is any value
      that is present, `status` is an optional string; other keys are dropped. */
  function ParseInsertApplication(body: map<string, JsValue>): (r: Option<InsertApplication>)
    ensures r.Some? ==> Field(body, "type") == Str(r.value.applicationType)
    ensures r.Some? ==> Field(body, "discordUsername") == Str(r.value.discordUsername)
    ensures r.Some? ==> r.value.formData == Field(body, "formData") != Undefined
    ensures !Field(body, "discordUsername").Str? ==> r == None
  {
    var applicationType := Field(body, "type");
    var username := Field(body, "discordUsername");
    var userId := Field(body, "discordUserId");
    var formData := Field(body, "formData");
    var status := Field(body, "status");
    if && applicationType.Str?
       && username.Str?
       && (userId.Undefined? || userId.Null? || userId.Str?)
       && !formData.Undefined?
       && (status.Undefined? || status.Str?)
    then
      Some(InsertApplication(
        applicationType.s,
        username.s,
        if userId.Str? then Some(userId.s) else None,
        formData,
        if status.Str? then Some(status.s) else None))
    else
      None
  }

  /** The JSON body a well-formed insert record is sent as. */
  function InsertApplicationBody(a: InsertApplication): map<string, JsValue> {
    map["type" := Str(a.applicationType),
        "discordUsername" := Str(a.discordUsername),
        "discordUserId" := (if a.discordUserId.Some? then Str(a.discordUserId.value) else Null),
        "formData" := a.formData,
        "status" := (if a.status.Some? then Str(a.status.value) else Undefined)]
  }

  /** Round trip: a record sent as its body parses back to itself. */
  lemma ParseInsertApplicationBody(a: InsertApplication)
    requires a.formData != Undefined
    ensures ParseInsertApplication(InsertApplicationBody(a)) == Some(a)
  {
  }
}
