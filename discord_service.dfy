/** The message logic of the Discord bot (server/services/discord.ts): the tables keyed
    by application type, the embed posted for a new application, the button custom ids
    and their decoding, the member lookup behind verification, and a moderator's
    accept/reject handling. The discord.js runtime (gateway, fetches, sends, replies) is
    replaced by its outcomes, which the operations take as parameters. */
module Discord {
  import opened Wrappers
  import opened JsString
  import opened Schema

  const DefaultChannelId: string := "1336659124884209755"
  const AdminRoleId: string := "1336657149765484654"
  const RejectRoleId: string := "1332389782541697099"
  const ScriptRoleId: string := "1336684394412507186"
  const HacksRoleId: string := "1321142625847345285"
  const ModeratorRoleId: string := "1274038853102997565"

  /** The user id reported while the bot is not connected. */
  const TestUserId: string := "test-user-id"

  /** The openings by which the verification's catch block recognises its own errors. */
  const ServerNotConfiguredMarker: string := "لم يتم تكوين السيرفر"
  const MemberNotFoundMarker: string := "المستخدم غير موجود"

  /** Thrown when the bot is connected but no guild id is configured. */
  const ServerNotConfigured: string := ServerNotConfiguredMarker + " بشكل صحيح. يرجى المحاولة لاحقاً"
  /** Thrown when no member of the guild carries the name. */
  const MemberNotFound: string := MemberNotFoundMarker + " في السيرفر. تأكد من اسم المستخدم الخاص بك"
  /** Thrown in place of any other failure of the guild or member fetch. */
  const CannotVerify: string := "لا يمكن التحقق من عضويتك في السيرفر. تأكد من اسم المستخدم أو حاول لاحقاً"
  const NotReadyError: string := "Discord bot is not ready"
  /** The ephemeral reply to a button press by a non-moderator. */
  const NoPermission: string := "ليس لديك صلاحية للتعامل مع التقديمات."

  const Yes: string := "نعم"
  const No: string := "لا"

  /** Discord's limit on the length of an embed field's value. */
  const FieldValueLimit: nat := 1024

  // ---------------------------------------------------------------------------
  // Tables keyed by application type

  predicate IsKnownType(applicationType: string) {
    applicationType == "admin" || applicationType == "script" || applicationType == "hacks"
  }

  /** `getApplicationTypeArabic`: the Arabic name of a known type, otherwise the type. */
  function ApplicationTypeArabic(applicationType: string): (r: string)
    ensures IsKnownType(applicationType) <==> r != applicationType
  {
    if applicationType == "admin" then "الإدارة"
    else if applicationType == "script" then "نشر السكربتات"
    else if applicationType == "hacks" then "نشر الهاكات"
    else applicationType
  }

  /** `getApplicationColor`: an RGB colour, grey for an unknown type. */
  function ApplicationColor(applicationType: string): (r: int)
    ensures 0 <= r < 0x100_0000
    ensures IsKnownType(applicationType) <==> r != 0x99AAB5
  {
    if applicationType == "admin" then 0x5865F2
    else if applicationType == "script" then 0x57F287
    else if applicationType == "hacks" then 0xED4245
    else 0x99AAB5
  }

  /** `getRoleIdForType`: the role granted on acceptance, `null` for an unknown type. */
  function RoleIdForType(applicationType: string): (r: Option<string>)
    ensures r.Some? <==> IsKnownType(applicationType)
    ensures r.Some? ==> r.value != RejectRoleId && r.value != ModeratorRoleId
  {
    if applicationType == "admin" then Some(AdminRoleId)
    else if applicationType == "script" then Some(ScriptRoleId)
    else if applicationType == "hacks" then Some(HacksRoleId)
    else None
  }

  /** The three tables tell the known types apart: distinct types get distinct names,
      colours and roles. */
  lemma KnownTypesDistinct(t: string, u: string)
    requires IsKnownType(t) && IsKnownType(u) && t != u
    ensures ApplicationTypeArabic(t) != ApplicationTypeArabic(u)
    ensures ApplicationColor(t) != ApplicationColor(u)
    ensures RoleIdForType(t) != RoleIdForType(u)
  {
  }

  // ---------------------------------------------------------------------------
  // The embed posted for a new application

  datatype EmbedField = EmbedField(name: string, value: string, inline: bool)

  /** An embed as the bot builds it; `timestamp` is the clock reading of `setTimestamp`. */
  datatype Embed = Embed(title: string, color: int, timestamp: int, fields: seq<EmbedField>)

  /** The Arabic labels of the known form keys, as a table of (key, label) rows. */
  const FieldLabels: seq<(string, string)> := [
    ("name", "الاسم"),
    ("age", "العمر"),
    ("country", "الدولة"),
    ("benefit", "كيف ستفيد السيرفر"),
    ("experience", "الخبرة في Discord"),
    ("responsibility", "تحمل المسؤولية"),
    ("oath", "القسم"),
    ("languages", "لغات البرمجة"),
    ("maps", "الخرائط"),
    ("frequency", "تكرار النشر"),
    ("serverLogo", "شعار السيرفر"),
    ("previousServers", "سيرفرات سابقة"),
    ("hackTypes", "أنواع الهاكات"),
    ("activeHours", "ساعات النشاط")]

  /** The label the first row for `key` holds, if any. */
  function Lookup(table: seq<(string, string)>, key: string): Option<string> {
    if table == [] then None
    else if table[0].0 == key then Some(table[0].1)
    else Lookup(table[1..], key)
  }

  /** A lookup finds the label of the first row for the key, and fails exactly when no
      row has the key. */
  lemma {:induction false} LookupMeaning(table: seq<(string, string)>, key: string)
    ensures Lookup(table, key).Some? ==>
      exists i :: 0 <= i < |table| && table[i] == (key, Lookup(table, key).value)
        && forall j :: 0 <= j < i ==> table[j].0 != key
    ensures Lookup(table, key).None? <==> forall i :: 0 <= i < |table| ==> table[i].0 != key
  {
    if table != [] && table[0].0 != key {
      var rest := table[1..];
      LookupMeaning(rest, key);
      if Lookup(rest, key).Some? {
        var i :| 0 <= i < |rest| && rest[i] == (key, Lookup(rest, key).value)
          && forall j :: 0 <= j < i ==> rest[j].0 != key;
        assert table[i + 1] == rest[i];
        assert forall j :: 1 <= j < i + 1 ==> table[j] == rest[j - 1];
      }
      assert forall i :: 1 <= i < |table| ==> table[i] == rest[i - 1];
    }
  }

  /** A table without empty labels yields no empty label. */
  lemma {:induction false} LookupNonEmpty(table: seq<(string, string)>, key: string)
    requires forall i :: 0 <= i < |table| ==> table[i].1 != ""
    ensures Lookup(table, key).Some? ==> Lookup(table, key).value != ""
  {
    if table != [] && table[0].0 != key {
      LookupNonEmpty(table[1..], key);
    }
  }

  /** `fieldLabels[key] || key`: the label of a known key, otherwise the key itself. */
  function FieldLabel(key: string): string {
    var found := Lookup(FieldLabels, key);
    if found.Some? && found.value != "" then found.value else key
  }

  /** No label in the table is empty, so the fallback to the key applies exactly to the
      keys the table lacks. */
  lemma FieldLabelLookup(key: string)
    ensures Lookup(FieldLabels, key).Some? ==> FieldLabel(key) == Lookup(FieldLabels, key).value
    ensures Lookup(FieldLabels, key).None? ==> FieldLabel(key) == key
  {
    assert forall i :: 0 <= i < |FieldLabels| ==> FieldLabels[i].1 != "";
    LookupNonEmpty(FieldLabels, key);
  }

  /** `value.toString()` on a value that is neither null nor undefined. */
  function ToDisplayString(value: JsValue): string
    requires !value.Null? && !value.Undefined?
  {
    match value
    case Bool(b) => if b then "true" else "false"
    case Str(s) => s
    case Object(_) => "[object Object]"
    case Other(_, text) => text
  }

  /** The text shown for one form entry: yes/no for `responsibility` and for booleans,
      the string form of anything else. */
  function DisplayValue(key: string, value: JsValue): string
    requires !value.Null? && !value.Undefined?
  {
    if key == "responsibility" then
      (if value == Str("true") || value == Bool(true) then Yes else No)
    else if value.Bool? then
      (if value.b then Yes else No)
    else
      ToDisplayString(value)
  }

  /** `responsibility` reads yes exactly for `true` and `'true'` and no otherwise; any
      other boolean reads yes or no by its value; a string shows as itself. */
  lemma DisplayValueMeaning(key: string, value: JsValue)
    requires !value.Null? && !value.Undefined?
    ensures key == "responsibility" ==> (DisplayValue(key, value) == Yes || DisplayValue(key, value) == No)
    ensures key == "responsibility" ==>
      (DisplayValue(key, value) == Yes <==> value == Str("true") || value == Bool(true))
    ensures key != "responsibility" && value.Bool? ==>
      (DisplayValue(key, value) == Yes <==> value.b) && (DisplayValue(key, value) == Yes || DisplayValue(key, value) == No)
    ensures key != "responsibility" && value.Str? ==> DisplayValue(key, value) == value.s
  {
    assert Yes != No by {
      assert Yes[0] != No[0];
    }
  }

  /** `s.substring(0, n)`. */
  function Truncate(s: string, n: nat): (r: string)
    ensures r <= s
    ensures |r| == if |s| <= n then |s| else n
  {
    if |s| <= n then s else s[..n]
  }

  /** The entries the embed skips outright: null, undefined and the empty string. */
  predicate IsShown(value: JsValue) {
    !value.Null? && !value.Undefined? && value != Str("")
  }

  /** The field one form entry contributes, if any: never inline, its value within
      Discord's limit. The test `display && display.trim()` is written as
      `HasVisibleChar(display)` (see `TrimEmptyUnlessVisible`). */
  function FieldFor(key: string, value: JsValue): (r: Option<EmbedField>)
    ensures r.Some? ==> !r.value.inline && 1 <= |r.value.value| <= FieldValueLimit
  {
    if !IsShown(value) then None
    else
      var display := DisplayValue(key, value);
      if HasVisibleChar(display) then
        Some(EmbedField(FieldLabel(key), Truncate(display, FieldValueLimit), false))
      else
        None
  }

  /** An entry yields a field exactly when its value is shown and its display text is
      not blank. */
  lemma FieldForShown(key: string, value: JsValue)
    ensures FieldFor(key, value).Some? <==> IsShown(value) && Trim(DisplayValue(key, value)) != ""
  {
    if IsShown(value) {
      TrimEmptyUnlessVisible(DisplayValue(key, value));
    }
  }

  /** The field carries the entry's label and the display text cut to the limit. */
  lemma FieldForContent(key: string, value: JsValue)
    requires FieldFor(key, value).Some?
    ensures IsShown(value)
    ensures FieldFor(key, value).value.name == FieldLabel(key)
    ensures FieldFor(key, value).value.value <= DisplayValue(key, value)
    ensures |DisplayValue(key, value)| <= FieldValueLimit ==> FieldFor(key, value).value.value == DisplayValue(key, value)
  {
  }

  /** The field of one entry, as a sequence of none or one. */
  function EntryFields(entry: (string, JsValue)): (r: seq<EmbedField>)
    ensures |r| <= 1
    ensures forall k :: 0 <= k < |r| ==> !r[k].inline && 1 <= |r[k].value| <= FieldValueLimit
  {
    var field := FieldFor(entry.0, entry.1);
    if field.Some? then [field.value] else []
  }

  /** The steps of `createApplicationEmbed`'s loop body give the entry's fields. */
  lemma EntryFieldsSteps(entry: (string, JsValue))
    ensures !IsShown(entry.1) ==> EntryFields(entry) == []
    ensures IsShown(entry.1) ==>
      var display := DisplayValue(entry.0, entry.1);
      EntryFields(entry)
        == if display != "" && Trim(display) != ""
           then [EmbedField(FieldLabel(entry.0), Truncate(display, FieldValueLimit), false)]
           else []
  {
    if IsShown(entry.1) {
      TrimEmptyUnlessVisible(DisplayValue(entry.0, entry.1));
    }
  }

  /** The concatenation, in order, of what `f` yields for each element: the shape of a
      `forEach` that appends to a list. */
  function FlatMap<E, F>(s: seq<E>, f: E -> seq<F>): seq<F> {
    if s == [] then [] else FlatMap(s[..|s| - 1], f) + f(s[|s| - 1])
  }

  lemma {:induction false} FlatMapAppend<E, F>(a: seq<E>, b: seq<E>, f: E -> seq<F>)
    ensures FlatMap(a + b, f) == FlatMap(a, f) + FlatMap(b, f)
    decreases |b|
  {
    if b == [] {
      assert a + b == a;
    } else {
      var init := b[..|b| - 1];
      assert (a + b)[..|a + b| - 1] == a + init;
      assert (a + b)[|a + b| - 1] == b[|b| - 1];
      FlatMapAppend(a, init, f);
    }
  }

  lemma {:induction false} FlatMapFrom<E, F>(s: seq<E>, f: E -> seq<F>)
    ensures forall k :: 0 <= k < |FlatMap(s, f)| ==> exists j :: 0 <= j < |s| && FlatMap(s, f)[k] in f(s[j])
  {
    if s == [] {
      assert FlatMap(s, f) == [];
    } else {
      var init := s[..|s| - 1];
      FlatMapFrom(init, f);
      var r := FlatMap(s, f);
      assert r == FlatMap(init, f) + f(s[|s| - 1]);
      forall k | 0 <= k < |r| ensures exists j :: 0 <= j < |s| && r[k] in f(s[j]) {
        if k < |FlatMap(init, f)| {
          var j :| 0 <= j < |init| && FlatMap(init, f)[k] in f(init[j]);
          assert s[j] == init[j];
          assert r[k] in f(s[j]);
        } else {
          assert r[k] in f(s[|s| - 1]);
        }
      }
    }
  }

  lemma FlatMapKeeps<E, F>(s: seq<E>, f: E -> seq<F>, j: nat)
    requires j < |s|
    ensures forall x :: x in f(s[j]) ==> x in FlatMap(s, f)
  {
    var upTo := s[..j + 1];
    assert upTo[..j] == s[..j];
    assert s == upTo + s[j + 1..];
    FlatMapAppend(upTo, s[j + 1..], f);
  }

  /** The fields a sequence of form entries contributes, in entry order. */
  function FormFields(entries: seq<(string, JsValue)>): (r: seq<EmbedField>)
    ensures forall k :: 0 <= k < |r| ==> !r[k].inline && 1 <= |r[k].value| <= FieldValueLimit
  {
    FlatMapFrom(entries, EntryFields);
    FlatMap(entries, EntryFields)
  }

  /** Building the form fields distributes over concatenated entries: each entry's field
      keeps its place. */
  lemma FormFieldsAppend(a: seq<(string, JsValue)>, b: seq<(string, JsValue)>)
    ensures FormFields(a + b) == FormFields(a) + FormFields(b)
  {
    FlatMapAppend(a, b, EntryFields);
  }

  /** One more entry appends its field. */
  lemma FormFieldsSnoc(entries: seq<(string, JsValue)>, i: nat)
    requires i < |entries|
    ensures FormFields(entries[..i + 1]) == FormFields(entries[..i]) + EntryFields(entries[i])
  {
    assert entries[..i + 1][..i] == entries[..i];
  }

  /** Every form field comes from one of the entries. */
  lemma FormFieldsFromEntries(entries: seq<(string, JsValue)>)
    ensures forall k :: 0 <= k < |FormFields(entries)| ==>
      exists j :: 0 <= j < |entries| && FieldFor(entries[j].0, entries[j].1) == Some(FormFields(entries)[k])
  {
    var r := FormFields(entries);
    FlatMapFrom(entries, EntryFields);
    forall k | 0 <= k < |r|
      ensures exists j :: 0 <= j < |entries| && FieldFor(entries[j].0, entries[j].1) == Some(r[k])
    {
      var j :| 0 <= j < |entries| && r[k] in EntryFields(entries[j]);
      assert FieldFor(entries[j].0, entries[j].1) == Some(r[k]);
    }
  }

  /** Every entry that yields a field has that field among the form fields. */
  lemma FormFieldsKeepEveryShownEntry(entries: seq<(string, JsValue)>, j: nat)
    requires j < |entries| && FieldFor(entries[j].0, entries[j].1).Some?
    ensures FieldFor(entries[j].0, entries[j].1).value in FormFields(entries)
  {
    FlatMapKeeps(entries, EntryFields, j);
    assert FieldFor(entries[j].0, entries[j].1).value in EntryFields(entries[j]);
  }

  /** `Object.entries(formData)`: an object's own entries in property order, a string's
      characters under their decimal indices, nothing for a boolean or a number. */
  function EntriesOf(formData: JsValue): (r: seq<(string, JsValue)>)
    ensures formData.Object? ==> r == formData.entries
    ensures formData.Str? ==> |r| == |formData.s|
    ensures formData.Str? ==> forall i :: 0 <= i < |r| ==> r[i] == (DecimalString(i), Str([formData.s[i]]))
  {
    match formData
    case Object(entries) => entries
    case Str(s) => seq(|s|, i requires 0 <= i < |s| => (DecimalString(i), Str([s[i]])))
    case _ => []
  }

  /** The three inline fields every application embed opens with. */
  function HeaderFields(app: Application): seq<EmbedField> {
    [EmbedField("اسم المستخدم في Discord", app.discordUsername, true),
     EmbedField("نوع التقديم", ApplicationTypeArabic(app.applicationType), true),
     EmbedField("ID التقديم", app.id, true)]
  }

  /** The embed's title: "application" followed by the type's Arabic name. */
  function Title(applicationType: string): string {
    "طلب " + ApplicationTypeArabic(applicationType)
  }

  /** The embed `createApplicationEmbed` builds, as a value. */
  function ApplicationEmbed(app: Application, now: int): Embed {
    var formFields := if Truthy(app.formData) then FormFields(EntriesOf(app.formData)) else [];
    Embed(Title(app.applicationType), ApplicationColor(app.applicationType), now,
          HeaderFields(app) + formFields)
  }

  /** The embed opens with the three inline header fields; every later field is a
      non-inline form field within the value limit, and there are none when the form
      data is falsy. */
  lemma ApplicationEmbedShape(app: Application, now: int)
    ensures var e := ApplicationEmbed(app, now);
      && |e.fields| >= 3 && e.fields[..3] == HeaderFields(app)
      && (forall k :: 3 <= k < |e.fields| ==> !e.fields[k].inline && 1 <= |e.fields[k].value| <= FieldValueLimit)
      && (!Truthy(app.formData) ==> |e.fields| == 3)
      && e.color == ApplicationColor(app.applicationType) && e.timestamp == now
  {
  }

  // ---------------------------------------------------------------------------
  // Button custom ids

  /** The custom id of a button under a posted application: `${action}_${type}_${id}`. */
  function CustomId(action: string, applicationType: string, applicationId: string): string {
    action + "_" + applicationType + "_" + applicationId
  }

  /** The first three pieces of `customId.split('_')`; a missing piece is undefined. */
  datatype ButtonCommand = ButtonCommand(action: string, applicationType: Option<string>, applicationId: Option<string>)

  function DecodeCustomId(customId: string): (c: ButtonCommand)
    ensures '_' !in c.action
    ensures c.applicationType.None? ==> c.applicationId.None? && c.action == customId
    ensures '_' !in customId <==> c.applicationType.None?
  {
    var parts := Split(customId, '_');
    assert '_' !in customId ==> parts == [customId] by {
      if '_' !in customId {
        SplitWithoutSeparator(customId, '_');
      }
    }
    ButtonCommand(parts[0],
                  if |parts| > 1 then Some(parts[1]) else None,
                  if |parts| > 2 then Some(parts[2]) else None)
  }

  /** Decoding inverts encoding when no piece contains the separator. */
  lemma CustomIdRoundTrip(action: string, applicationType: string, applicationId: string)
    requires '_' !in action && '_' !in applicationType && '_' !in applicationId
    ensures DecodeCustomId(CustomId(action, applicationType, applicationId))
         == ButtonCommand(action, Some(applicationType), Some(applicationId))
  {
    var parts := [action, applicationType, applicationId];
    assert parts[1..] == [applicationType, applicationId];
    assert parts[1..][1..] == [applicationId];
    calc {
      Join(parts, '_');
      action + ['_'] + Join([applicationType, applicationId], '_');
      action + ['_'] + (applicationType + ['_'] + applicationId);
      CustomId(action, applicationType, applicationId);
    }
    SplitJoin(parts, '_');
  }

  /** `interactionCreate`: a button press is handed on only when its action is accept
      or reject. */
  function RouteInteraction(isButton: bool, customId: string): (r: Option<ButtonCommand>)
    ensures r.Some? <==> isButton && DecodeCustomId(customId).action in {"accept", "reject"}
    ensures r.Some? ==> r.value == DecodeCustomId(customId)
  {
    if !isButton then None
    else
      var command := DecodeCustomId(customId);
      if command.action == "accept" || command.action == "reject" then Some(command) else None
  }

  /** Both buttons posted under an application reach the response handler with the
      application's type and id. */
  lemma PostedButtonsRoute(applicationType: string, applicationId: string)
    requires '_' !in applicationType && '_' !in applicationId
    ensures RouteInteraction(true, CustomId("accept", applicationType, applicationId))
         == Some(ButtonCommand("accept", Some(applicationType), Some(applicationId)))
    ensures RouteInteraction(true, CustomId("reject", applicationType, applicationId))
         == Some(ButtonCommand("reject", Some(applicationType), Some(applicationId)))
  {
    CustomIdRoundTrip("accept", applicationType, applicationId);
    CustomIdRoundTrip("reject", applicationType, applicationId);
  }

  // ---------------------------------------------------------------------------
  // A moderator's accept/reject

  /** `member?.roles?.cache.has(MODERATOR_ROLE_ID)`; `roles` is absent when the
      interaction carries no guild member. */
  predicate IsModerator(roles: Option<set<string>>) {
    roles.Some? && ModeratorRoleId in roles.value
  }

  function ActionText(action: string): string {
    if action == "accept" then "قُبِل" else "رُفِض"
  }

  function StatusColor(action: string): int {
    if action == "accept" then 0x57F287 else 0xED4245
  }

  /** "**accepted/rejected** by <@responder>". */
  function StatusLine(action: string, responderId: string): string {
    "**" + ActionText(action) + "** بواسطة <@" + responderId + ">"
  }

  /** A Discord timestamp tag for the whole seconds of `now` (milliseconds). */
  function ReviewTime(now: int): string {
    "<t:" + IntegerString(now / 1000) + ":F>"
  }

  /** The two fields appended to the posted embed once it is answered. */
  function ResponseFields(action: string, responderId: string, now: int): seq<EmbedField> {
    [EmbedField("📋 حالة التقديم", StatusLine(action, responderId), false),
     EmbedField("⏰ تاريخ المراجعة", ReviewTime(now), false)]
  }

  /** The role the handler would grant (it only logs it): the type's role on accept,
      the reject role when an admin application is rejected. */
  function IntendedRole(action: string, applicationType: Option<string>): (r: Option<string>)
    ensures r.Some? ==> action == "accept" || action == "reject"
    ensures r == Some(RejectRoleId) <==> action == "reject" && applicationType == Some("admin")
    ensures action == "accept" ==> (r.Some? <==> applicationType.Some? && IsKnownType(applicationType.value))
    ensures action == "accept" ==> r == (if applicationType.Some? then RoleIdForType(applicationType.value) else None)
    ensures action != "accept" && !(action == "reject" && applicationType == Some("admin")) ==> r == None
  {
    if action == "accept" then
      (if applicationType.Some? then RoleIdForType(applicationType.value) else None)
    else if action == "reject" && applicationType == Some("admin") then
      Some(RejectRoleId)
    else
      None
  }

  datatype ResponseOutcome =
    | Denied(reply: string)
    /** the original embed was missing or the message update failed; the error is logged */
    | Failed
    | Updated(embed: Embed, intendedRole: Option<string>)

  /** `handleApplicationResponse`, given the presser's roles, the original embed of the
      message (absent when it has none), whether the message update succeeded, and the
      two clock readings it takes: `now` for `setTimestamp` and `reviewedAt` for the
      review-time field. */
  function HandleApplicationResponse(roles: Option<set<string>>, responderId: string, command: ButtonCommand,
                                     original: Option<Embed>, updateOk: bool, now: int, reviewedAt: int)
    : (r: ResponseOutcome)
    ensures r.Denied? <==> !IsModerator(roles)
    ensures r.Denied? ==> r.reply == NoPermission
    ensures r.Updated? <==> IsModerator(roles) && original.Some? && updateOk
    ensures r.Updated? ==>
      && r.embed.title == original.value.title
      && r.embed.color == (if command.action == "accept" then 0x57F287 else 0xED4245)
      && r.embed.timestamp == now
      && |r.embed.fields| == |original.value.fields| + 2
      && r.embed.fields[..|original.value.fields|] == original.value.fields
      && r.embed.fields[|original.value.fields|..] == ResponseFields(command.action, responderId, reviewedAt)
      && r.intendedRole == IntendedRole(command.action, command.applicationType)
  {
    if !IsModerator(roles) then Denied(NoPermission)
    else if original.None? || !updateOk then Failed
    else
      var embed := Embed(original.value.title, StatusColor(command.action), now,
                         original.value.fields + ResponseFields(command.action, responderId, reviewedAt));
      Updated(embed, IntendedRole(command.action, command.applicationType))
  }

  // ---------------------------------------------------------------------------
  // Guild membership

  datatype Member = Member(id: string, username: string, tag: string, displayName: string)

  /** The predicate given to `members.find`. */
  predicate MatchesName(m: Member, name: string) {
    m.username == name || m.tag == name || m.displayName == name
  }

  predicate IsFirstMatch(members: seq<Member>, name: string, i: int) {
    && 0 <= i < |members|
    && MatchesName(members[i], name)
    && forall j :: 0 <= j < i ==> !MatchesName(members[j], name)
  }

  /** The position `members.find` stops at. */
  function FindMemberIndex(members: seq<Member>, name: string): (r: Option<nat>)
    ensures r.Some? ==> IsFirstMatch(members, name, r.value)
    ensures r.None? <==> forall i :: 0 <= i < |members| ==> !MatchesName(members[i], name)
  {
    if members == [] then None
    else if MatchesName(members[0], name) then Some(0)
    else
      match FindMemberIndex(members[1..], name)
      case None => None
      case Some(i) => Some(i + 1)
  }

  /** What the guild and member fetches deliver: the members in iteration order, or the
      message of the error either fetch threw. */
  datatype GuildFetch = GuildFetchFailed(message: string) | Members(members: seq<Member>)

  /** `verifyUserInGuild` resolves with a user id or throws a message. */
  datatype VerifyOutcome = Verified(userId: string) | Threw(message: string)

  /** The catch block of `verifyUserInGuild`: its own errors pass through, any other
      becomes the generic message. */
  function CaughtVerifyError(message: string): (r: string)
    ensures Contains(message, ServerNotConfiguredMarker) || Contains(message, MemberNotFoundMarker) ==> r == message
    ensures !Contains(message, ServerNotConfiguredMarker) && !Contains(message, MemberNotFoundMarker) ==> r == CannotVerify
  {
    if Contains(message, ServerNotConfiguredMarker) || Contains(message, MemberNotFoundMarker) then message
    else CannotVerify
  }

  /** A message contains its own opening. */
  lemma ContainsOpening(opening: string, rest: string)
    ensures Contains(opening + rest, opening)
  {
    assert opening <= (opening + rest)[0..];
  }

  datatype ChannelFetch =
    | ChannelFetchFailed
    /** null, or not text based */
    | NoTextChannel
    /** whether the channel has `send`, and whether the send succeeds */
    | TextChannel(canSend: bool, sendSucceeds: bool)

  /** The message posted to the channel: the embed and the accept/reject buttons. */
  datatype ChannelMessage = ChannelMessage(embed: Embed, acceptId: string, rejectId: string)

  datatype Notification = NotSent | Sent(message: ChannelMessage)

  datatype RoleApi = RoleApiSucceeds | RoleApiFails(message: string)

  datatype RoleOutcome = RoleAdded | RoleFailed(message: string)

  /** `process.env.X || fallback`: an unset or empty variable gives the fallback. */
  function EnvOr(variable: Option<string>, fallback: string): (r: string)
    ensures r == fallback || (variable == Some(r) && r != "")
    ensures variable.Some? && variable.value != "" ==> r == variable.value
  {
    if variable.Some? && variable.value != "" then variable.value else fallback
  }

  /** The bot: whether it is connected, and the guild and channel it was configured with. */
  class DiscordService {
    var ready: bool
    const guildId: string
    const channelId: string

    constructor(guildIdEnv: Option<string>, channelIdEnv: Option<string>)
      ensures !ready
      ensures guildId == EnvOr(guildIdEnv, "")
      ensures channelId == EnvOr(channelIdEnv, DefaultChannelId) && channelId != ""
    {
      ready := false;
      guildId := EnvOr(guildIdEnv, "");
      channelId := EnvOr(channelIdEnv, DefaultChannelId);
    }

    /** The gateway's `ready` event. */
    method OnReady()
      modifies this
      ensures ready
    {
      ready := true;
    }

    /** `verifyUserInGuild(username)`: while disconnected every name passes with the test
        id; connected without a guild id it throws the configuration error; otherwise
        the first member carrying the name (as username, tag or display name) gives the
        id, and a missing member throws the not-found error. */
    function VerifyUserInGuild(username: string, fetch: GuildFetch): (r: VerifyOutcome)
      reads this
      ensures !ready ==> r == Verified(TestUserId)
      ensures ready && guildId == "" ==> r == Threw(ServerNotConfigured)
      ensures ready && guildId != "" && r.Verified? ==>
        fetch.Members? && exists i :: IsFirstMatch(fetch.members, username, i) && r.userId == fetch.members[i].id
      ensures ready && guildId != "" && fetch.Members? ==>
        (r.Verified? <==> exists i :: 0 <= i < |fetch.members| && MatchesName(fetch.members[i], username))
      ensures ready && guildId != "" && fetch.Members? && r.Threw? ==> r.message == MemberNotFound
      ensures ready && guildId != "" && fetch.GuildFetchFailed? ==> r == Threw(CaughtVerifyError(fetch.message))
    {
      if !ready then Verified(TestUserId)
      else if guildId == "" then Threw(ServerNotConfigured)
      else
        match fetch
        case GuildFetchFailed(message) => Threw(CaughtVerifyError(message))
        case Members(members) =>
          match FindMemberIndex(members, username)
          case Some(i) => Verified(members[i].id)
          case None =>
            ContainsOpening(MemberNotFoundMarker, " في السيرفر. تأكد من اسم المستخدم الخاص بك");
            Threw(CaughtVerifyError(MemberNotFound))
    }

    /** `assignRole(userId, roleId)`: refused while disconnected; otherwise the outcome
        of fetching the member and adding the role. The user id is whatever value the
        caller passes. */
    function AssignRole(userId: JsValue, roleId: string, api: RoleApi): (r: RoleOutcome)
      reads this
      ensures !ready ==> r == RoleFailed(NotReadyError)
      ensures ready ==> (r.RoleAdded? <==> api.RoleApiSucceeds?)
      ensures ready && api.RoleApiFails? ==> r == RoleFailed(api.message)
    {
      if !ready then RoleFailed(NotReadyError)
      else
        match api
        case RoleApiSucceeds => RoleAdded
        case RoleApiFails(message) => RoleFailed(message)
    }

    /** `createApplicationEmbed`: the header fields, then one field per form entry as
        `forEach` visits them. */
    method CreateApplicationEmbed(app: Application, now: int) returns (embed: Embed)
      ensures embed == ApplicationEmbed(app, now)
    {
      var fields := HeaderFields(app);
      ghost var header := fields;
      if Truthy(app.formData) {
        var entries := EntriesOf(app.formData);
        var i := 0;
        while i < |entries|
          invariant 0 <= i <= |entries|
          invariant fields == header + FormFields(entries[..i])
        {
          ghost var before := fields;
          fields := AddEntryField(fields, entries[i].0, entries[i].1);
          calc {
            fields;
            (header + FormFields(entries[..i])) + EntryFields(entries[i]);
            header + (FormFields(entries[..i]) + EntryFields(entries[i]));
            { FormFieldsSnoc(entries, i); }
            header + FormFields(entries[..i + 1]);
          }
          i := i + 1;
        }
        assert entries[..i] == entries;
      }
      embed := Embed(Title(app.applicationType), ApplicationColor(app.applicationType), now, fields);
    }

    /** The `forEach` callback of `createApplicationEmbed`: appends the entry's field,
        if it has one. */
    method AddEntryField(fields: seq<EmbedField>, key: string, value: JsValue) returns (out: seq<EmbedField>)
      ensures out == fields + EntryFields((key, value))
    {
      out := fields;
      EntryFieldsSteps((key, value));
      if IsShown(value) {
        var fieldName := FieldLabel(key);
        var display := DisplayValue(key, value);
        if display != "" && Trim(display) != "" {
          out := fields + [EmbedField(fieldName, Truncate(display, FieldValueLimit), false)];
        }
      }
    }

    /** `sendApplicationToChannel`: posts the embed with its two buttons when the bot is
        connected and the channel is a text channel that can send; every failure is
        swallowed. */
    method SendApplicationToChannel(app: Application, channel: ChannelFetch, now: int) returns (n: Notification)
      ensures n.Sent? <==> ready && channelId != "" && channel == TextChannel(true, true)
      ensures n.Sent? ==> n.message == ChannelMessage(ApplicationEmbed(app, now),
                                                      CustomId("accept", app.applicationType, app.id),
                                                      CustomId("reject", app.applicationType, app.id))
    {
      if !ready || channelId == "" {
        return NotSent;
      }
      match channel {
        case ChannelFetchFailed =>
          n := NotSent;
        case NoTextChannel =>
          n := NotSent;
        case TextChannel(canSend, sendSucceeds) =>
          var embed := CreateApplicationEmbed(app, now);
          var acceptId := CustomId("accept", app.applicationType, app.id);
          var rejectId := CustomId("reject", app.applicationType, app.id);
          if canSend && sendSucceeds {
            n := Sent(ChannelMessage(embed, acceptId, rejectId));
          } else {
            n := NotSent;
          }
      }
    }
  }
}
