/** What the application dialogs send to `POST /api/applications`, set against what the
    insert schema accepts. The dialogs post `{ type, formData }`; the schema requires
    `discordUsername` as well (a non-null text column without a default), so every
    dialog submission is refused with 400. The corrected body carries the applicant's
    Discord name. */
module Submission {
  import opened Wrappers
  import opened Schema
  import opened ApplicationModals

  /** The JSON body the dialogs post, as written. */
  function DialogRequestBody(b: SubmissionBody): (body: map<string, JsValue>)
    ensures "discordUsername" !in body
    ensures Field(body, "type") == Str(b.applicationType) && Field(body, "formData") == b.formData
  {
    map["type" := Str(b.applicationType), "formData" := b.formData]
  }

  /** As written: no dialog body passes the insert schema. */
  lemma DialogSubmissionRefused(b: SubmissionBody)
    ensures ParseInsertApplication(DialogRequestBody(b)) == None
  {
    assert Field(DialogRequestBody(b), "discordUsername") == Undefined;
  }

  /** As written: even an admin form whose oath is accepted is refused. */
  lemma AcceptedAdminFormRefused(f: AdminForm)
    requires HasAllKeyWords(NormalizeText(f.oath))
    ensures HandleAdminSubmit(f).Mutate?
    ensures ParseInsertApplication(DialogRequestBody(HandleAdminSubmit(f).body)) == None
  {
    DialogSubmissionRefused(HandleAdminSubmit(f).body);
  }

  /** The body the dialogs evidently mean to post: the same fields plus the applicant's
      Discord name. */
  function CorrectedRequestBody(b: SubmissionBody, discordUsername: string): (body: map<string, JsValue>)
    ensures Field(body, "discordUsername") == Str(discordUsername)
    ensures Field(body, "type") == Str(b.applicationType) && Field(body, "formData") == b.formData
  {
    map["type" := Str(b.applicationType), "discordUsername" := Str(discordUsername), "formData" := b.formData]
  }

  /** Corrected: every dialog body, with the name added, parses to an insert record of
      that type, name and form data, with no user id and no status. */
  lemma CorrectedSubmissionParses(b: SubmissionBody, discordUsername: string)
    requires b.formData != Undefined
    ensures ParseInsertApplication(CorrectedRequestBody(b, discordUsername))
         == Some(InsertApplication(b.applicationType, discordUsername, None, b.formData, None))
  {
    var body := CorrectedRequestBody(b, discordUsername);
    assert Field(body, "discordUserId") == Undefined;
    assert Field(body, "status") == Undefined;
  }

  /** The three dialogs always post an object as form data, so the corrected body of
      each parses. */
  lemma CorrectedDialogsParse(admin: AdminForm, script: ScriptForm, hacks: HacksForm, discordUsername: string)
    requires HasAllKeyWords(NormalizeText(admin.oath))
    ensures HandleAdminSubmit(admin).Mutate?
    ensures ParseInsertApplication(CorrectedRequestBody(HandleAdminSubmit(admin).body, discordUsername)).Some?
    ensures ParseInsertApplication(CorrectedRequestBody(HandleScriptSubmit(script).body, discordUsername)).Some?
    ensures ParseInsertApplication(CorrectedRequestBody(HandleHacksSubmit(hacks).body, discordUsername)).Some?
  {
    CorrectedSubmissionParses(HandleAdminSubmit(admin).body, discordUsername);
    CorrectedSubmissionParses(HandleScriptSubmit(script).body, discordUsername);
    CorrectedSubmissionParses(HandleHacksSubmit(hacks).body, discordUsername);
  }
}
