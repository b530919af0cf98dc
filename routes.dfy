/** The request handlers of server/routes.ts as decisions over the store and the bot.
    Each handler takes the request's parameters and body, the fresh ids and clock
    readings it would draw, and the outcomes of the Discord calls it makes; it answers
    a status code and a body, and changes the store as the original does. */
module Routes {
  import opened Wrappers
  import opened Schema
  import opened Storage
  import opened Discord

  /** Response bodies before JSON serialisation. */
  datatype Body =
    | Message(text: string)
    | VerifiedUser(userId: string)
    | Submitted(applicationId: string)
    | OpenFlags(flags: seq<(string, bool)>)
    | SettingsRecord(settings: ApplicationSettings)
    | ApplicationList(applications: seq<Application>)
    | Success

  datatype Response = Response(status: int, body: Body)

  const UsernameRequired: string := "اسم المستخدم مطلوب"
  const VerificationFailed: string := "خطأ في التحقق من العضوية"
  const SubmissionClosed: string := "التقديم مغلق حالياً"
  const InvalidData: string := "بيانات غير صحيحة"
  const InvalidType: string := "نوع تقديم غير صحيح"
  const IsOpenNotBoolean: string := "قيمة isOpen يجب أن تكون boolean"
  const ApplicationNotFound: string := "التقديم غير موجود"
  const Reviewer: string := "Discord Bot"

  /** The application types the settings routes know. */
  const ApplicationTypes: seq<string> := ["admin", "script", "hacks"]

  /** A type is open unless its stored settings say otherwise. */
  predicate IsOpen(settings: map<string, ApplicationSettings>, applicationType: string) {
    applicationType !in settings || settings[applicationType].isOpen
  }

  // ---------------------------------------------------------------------------
  // POST /api/verify-discord

  /** A `username` that is a non-empty string. */
  predicate HasUsername(body: map<string, JsValue>) {
    Field(body, "username").Str? && Field(body, "username").s != ""
  }

  /** `POST /api/verify-discord`: 400 for a missing, empty or non-string username, 200
      with the id the bot resolves, 500 for anything the bot throws. */
  function VerifyDiscord(bot: DiscordService, body: map<string, JsValue>, fetch: GuildFetch): (r: Response)
    reads bot
    ensures r.status == 200 || r.status == 400 || r.status == 500
    ensures r.status == 400 <==> !HasUsername(body)
    ensures r.status == 400 ==> r.body == Message(UsernameRequired)
    ensures r.status == 200 ==>
      r.body.VerifiedUser? && bot.VerifyUserInGuild(Field(body, "username").s, fetch) == Verified(r.body.userId)
    ensures r.status == 500 ==>
      r.body == Message(VerificationFailed) && bot.VerifyUserInGuild(Field(body, "username").s, fetch).Threw?
  {
    var username := Field(body, "username");
    if !Truthy(username) || !username.Str? then
      Response(400, Message(UsernameRequired))
    else
      match bot.VerifyUserInGuild(username.s, fetch)
      case Verified(userId) => Response(200, VerifiedUser(userId))
      case Threw(_) => Response(500, Message(VerificationFailed))
  }

  /** A name no member carries is answered 500, not 404: the not-found error is thrown
      and lands in the catch-all. */
  lemma VerifyUnknownMemberIsServerError(bot: DiscordService, username: string, members: seq<Member>)
    requires bot.ready && bot.guildId != "" && username != ""
    requires forall i :: 0 <= i < |members| ==> !MatchesName(members[i], username)
    ensures VerifyDiscord(bot, map["username" := Str(username)], Members(members)) == Response(500, Message(VerificationFailed))
  {
    var body := map["username" := Str(username)];
    assert Field(body, "username") == Str(username);
  }

  /** While the bot is disconnected every non-empty name is accepted with the test id. */
  lemma VerifyWhileDisconnected(bot: DiscordService, username: string, fetch: GuildFetch)
    requires !bot.ready && username != ""
    ensures VerifyDiscord(bot, map["username" := Str(username)], fetch) == Response(200, VerifiedUser(TestUserId))
  {
    var body := map["username" := Str(username)];
    assert Field(body, "username") == Str(username);
  }

  // ---------------------------------------------------------------------------
  // POST /api/applications

  /** `POST /api/applications`: a body the insert schema refuses gets 400; a type whose
      settings are closed gets 403 and nothing is stored; otherwise one pending
      application is stored under the fresh id, the channel is notified (its failures
      are swallowed) and the answer is 200 with the id. */
  method SubmitApplication(store: InMemoryStorage, bot: DiscordService, body: map<string, JsValue>,
                           freshId: string, createdAt: int, updatedAt: int,
                           channel: ChannelFetch, sentAt: int)
    returns (r: Response, notification: Notification)
    requires store.Valid()
    requires freshId !in store.applications
    requires createdAt <= updatedAt
    modifies store
    ensures store.Valid()
    ensures r.status == 200 || r.status == 400 || r.status == 403
    ensures r.status == 400 <==> ParseInsertApplication(body).None?
    ensures r.status == 400 ==> r.body == Message(InvalidData)
    ensures r.status == 403 <==>
      ParseInsertApplication(body).Some? && !IsOpen(old(store.applicationSettings), ParseInsertApplication(body).value.applicationType)
    ensures r.status == 403 ==> r.body == Message(SubmissionClosed)
    ensures r.status != 200 ==>
      store.applications == old(store.applications) && store.order == old(store.order) && notification == NotSent
    ensures r.status == 200 ==>
      var insert := ParseInsertApplication(body).value;
      var a := Application(freshId, insert.applicationType, insert.discordUsername, insert.discordUserId,
                           insert.formData, Pending, None, createdAt, updatedAt);
      && r.body == Submitted(freshId)
      && store.applications == old(store.applications)[freshId := a]
      && store.order == old(store.order) + [freshId]
      && (notification.Sent? <==> bot.ready && bot.channelId != "" && channel == TextChannel(true, true))
      && (notification.Sent? ==> notification.message.embed == ApplicationEmbed(a, sentAt))
    ensures store.applicationSettings == old(store.applicationSettings)
    ensures store.adminSessions == old(store.adminSessions)
  {
    notification := NotSent;
    var parsed := ParseInsertApplication(body);
    if parsed.None? {
      return Response(400, Message(InvalidData)), notification;
    }
    var applicationData := parsed.value;
    var settings := store.GetApplicationSettings(applicationData.applicationType);
    if settings.Some? && !settings.value.isOpen {
      return Response(403, Message(SubmissionClosed)), notification;
    }
    var application := store.CreateApplication(applicationData, freshId, createdAt, updatedAt);
    notification := bot.SendApplicationToChannel(application, channel, sentAt);
    r := Response(200, Submitted(application.id));
  }

  // ---------------------------------------------------------------------------
  // GET and PUT /api/application-settings

  /** `GET /api/application-settings`: for each known type in turn, its stored flag, or
      open when nothing is stored. */
  method GetApplicationSettingsRoute(store: InMemoryStorage) returns (r: Response)
    ensures r.status == 200 && r.body.OpenFlags?
    ensures |r.body.flags| == |ApplicationTypes|
    ensures forall i :: 0 <= i < |ApplicationTypes| ==>
      r.body.flags[i] == (ApplicationTypes[i], IsOpen(store.applicationSettings, ApplicationTypes[i]))
  {
    var flags: seq<(string, bool)> := [];
    for i := 0 to |ApplicationTypes|
      invariant |flags| == i
      invariant forall k :: 0 <= k < i ==>
        flags[k] == (ApplicationTypes[k], IsOpen(store.applicationSettings, ApplicationTypes[k]))
    {
      var applicationType := ApplicationTypes[i];
      var setting := store.GetApplicationSettings(applicationType);
      flags := flags + [(applicationType, if setting.Some? then setting.value.isOpen else true)];
    }
    r := Response(200, OpenFlags(flags));
  }

  /** `PUT /api/application-settings/:type`: 400 for an unknown type or a non-boolean
      `isOpen`, with the store unchanged; otherwise the type's settings are updated (or
      created under the fresh id) and returned. */
  method PutApplicationSettings(store: InMemoryStorage, applicationType: string, body: map<string, JsValue>,
                                freshId: string, now: int)
    returns (r: Response)
    requires store.Valid()
    modifies store
    ensures store.Valid()
    ensures r.status == 200 || r.status == 400
    ensures applicationType !in ApplicationTypes ==> r == Response(400, Message(InvalidType))
    ensures applicationType in ApplicationTypes && !Field(body, "isOpen").Bool? ==>
      r == Response(400, Message(IsOpenNotBoolean))
    ensures r.status == 400 ==> store.applicationSettings == old(store.applicationSettings)
    ensures r.status == 200 <==> applicationType in ApplicationTypes && Field(body, "isOpen").Bool?
    ensures r.status == 200 ==>
      && r.body.SettingsRecord?
      && store.applicationSettings == old(store.applicationSettings)[applicationType := r.body.settings]
      && r.body.settings.isOpen == Field(body, "isOpen").b
      && IsOpen(store.applicationSettings, applicationType) == Field(body, "isOpen").b
      && r.body.settings.applicationType == applicationType
      && r.body.settings.updatedAt == now
      && (applicationType in old(store.applicationSettings) ==>
            r.body.settings.id == old(store.applicationSettings)[applicationType].id)
      && (applicationType !in old(store.applicationSettings) ==> r.body.settings.id == freshId)
    ensures store.applications == old(store.applications) && store.order == old(store.order)
    ensures store.adminSessions == old(store.adminSessions)
  {
    if applicationType !in ApplicationTypes {
      return Response(400, Message(InvalidType));
    }
    var isOpen := Field(body, "isOpen");
    if !isOpen.Bool? {
      return Response(400, Message(IsOpenNotBoolean));
    }
    var settings := store.UpdateApplicationSettings(applicationType, isOpen.b, freshId, now);
    r := Response(200, SettingsRecord(settings));
  }

  /** The types the settings routes accept are exactly those the bot has names, colours
      and roles for. */
  lemma ApplicationTypesAreKnown(applicationType: string)
    ensures applicationType in ApplicationTypes <==> IsKnownType(applicationType)
  {
  }

  // ---------------------------------------------------------------------------
  // GET /api/applications

  /** `GET /api/applications`: every stored application, newest first. */
  function GetApplicationsRoute(store: InMemoryStorage): (r: Response)
    reads store
    requires store.Valid()
    ensures r.status == 200 && r.body.ApplicationList?
    ensures NewestFirst(r.body.applications)
    ensures forall a :: a in r.body.applications <==> a in store.applications.Values
    ensures |r.body.applications| == |store.order|
  {
    Response(200, ApplicationList(store.GetApplications()))
  }

  // ---------------------------------------------------------------------------
  // POST /api/applications/:id/respond

  /** A call of `assignRole` with the body's user id and a role. */
  datatype RoleCall = RoleCall(userId: JsValue, roleId: string)

  /** The route's own `roleMap`. */
  function WebhookRoleMap(applicationType: string): Option<string> {
    if applicationType == "admin" then Some("1336657149765484654")
    else if applicationType == "script" then Some("1336684394412507186")
    else if applicationType == "hacks" then Some("1321142625847345285")
    else None
  }

  /** The route's role table and the bot's agree. */
  lemma WebhookRoleMapMatchesBot(applicationType: string)
    ensures WebhookRoleMap(applicationType) == RoleIdForType(applicationType)
  {
  }

  /** The reject role the route writes out at its call of `assignRole`. */
  const RouteRejectRoleId: string := "1332389782541697099"

  /** The role the route assigns, if any: the type's role on accept, the reject role on
      rejecting an admin application; never without a truthy user id. */
  function RoleToAssign(action: JsValue, userId: JsValue, applicationType: string): (r: Option<RoleCall>)
    ensures r.Some? ==> Truthy(userId) && r.value.userId == userId
    ensures r.Some? ==> action == Str("accept") || (action == Str("reject") && applicationType == "admin")
    ensures Truthy(userId) && action == Str("accept") ==>
      r == (if WebhookRoleMap(applicationType).Some? then Some(RoleCall(userId, WebhookRoleMap(applicationType).value)) else None)
    ensures Truthy(userId) && action == Str("reject") && applicationType == "admin" ==>
      r == Some(RoleCall(userId, RejectRoleId))
  {
    if action == Str("accept") && Truthy(userId) then
      match WebhookRoleMap(applicationType)
      case Some(roleId) => Some(RoleCall(userId, roleId))
      case None => None
    else if action == Str("reject") && applicationType == "admin" && Truthy(userId) then
      Some(RoleCall(userId, RouteRejectRoleId))
    else
      None
  }

  /** The webhook assigns exactly the role the bot's button handler names for the same
      action and type, given a user id. */
  lemma RoleChoiceMatchesButtons(action: string, userId: JsValue, applicationType: string)
    requires Truthy(userId)
    ensures RoleToAssign(Str(action), userId, applicationType)
         == if IntendedRole(action, Some(applicationType)).Some?
            then Some(RoleCall(userId, IntendedRole(action, Some(applicationType)).value))
            else None
  {
    WebhookRoleMapMatchesBot(applicationType);
  }

  /** The status a response action sets: accepted for `'accept'`, rejected for anything
      else. */
  function ReviewStatus(action: JsValue): (s: Status)
    ensures s != Pending
    ensures s == Accepted <==> action == Str("accept")
  {
    if action == Str("accept") then Accepted else Rejected
  }

  /** `POST /api/applications/:id/respond`: 404 for an unknown id with nothing changed;
      otherwise the application is reviewed by the bot's name, the chosen role (if any)
      is assigned, and the answer is 200 whatever the assignment gives. */
  method RespondToApplication(store: InMemoryStorage, bot: DiscordService, id: string,
                              body: map<string, JsValue>, now: int, roleApi: RoleApi)
    returns (r: Response, roleCall: Option<RoleCall>, roleOutcome: Option<RoleOutcome>)
    requires store.Valid()
    modifies store
    ensures store.Valid()
    ensures id !in old(store.applications) ==>
      && r == Response(404, Message(ApplicationNotFound))
      && store.applications == old(store.applications)
      && roleCall == None && roleOutcome == None
    ensures id in old(store.applications) ==>
      && r == Response(200, Success)
      && store.applications == old(store.applications)[id :=
           Reviewed(old(store.applications)[id], ReviewStatus(Field(body, "action")), Reviewer, now)]
      && roleCall == RoleToAssign(Field(body, "action"), Field(body, "userId"), old(store.applications)[id].applicationType)
      && (roleCall.Some? ==> roleOutcome == Some(bot.AssignRole(roleCall.value.userId, roleCall.value.roleId, roleApi)))
      && (roleCall.None? ==> roleOutcome == None)
    ensures store.order == old(store.order)
    ensures store.applicationSettings == old(store.applicationSettings)
    ensures store.adminSessions == old(store.adminSessions)
  {
    roleCall := None;
    roleOutcome := None;
    var application := store.GetApplicationById(id);
    if application.None? {
      return Response(404, Message(ApplicationNotFound)), roleCall, roleOutcome;
    }
    var action := Field(body, "action");
    var userId := Field(body, "userId");
    var _ := store.UpdateApplicationStatus(id, ReviewStatus(action), Reviewer, now);
    roleCall := RoleToAssign(action, userId, application.value.applicationType);
    if roleCall.Some? {
      roleOutcome := Some(bot.AssignRole(roleCall.value.userId, roleCall.value.roleId, roleApi));
    }
    r := Response(200, Success);
  }
}
