# Discord application portal: store, routes, bot messages and oath checks

This project models the core of a portal through which members of an Arabic-speaking
Discord server apply for the admin, script-publishing and hacks-publishing roles. The
portal has four parts:

- **The server's in-memory store** (`InMemoryStorage`). It holds applications by id,
  open/closed settings by application type, and admin sessions by session id.
- **The HTTP handlers.** These verify a Discord username, accept a submission while its
  type is open, read and change the open/closed settings, list the applications, and
  record a moderator's accept/reject answer together with the role it grants.
- **The Discord bot's message logic.** This covers the Arabic name, colour and role
  tables of the three types, and the embed posted for a new application (three header
  fields, then one field per form entry, with labels, yes/no rendering and the
  1024-character cut). It also covers the `accept_<type>_<id>` / `reject_<type>_<id>`
  button ids and how they are decoded, the moderator gate on a button press, and
  membership verification against the guild.
- **The two client-side oath checks.** The application dialog's `validateOath` accepts
  the admin oath when the normalised text holds four key words. The client library's
  `validateOathText` compares two normalised texts for equality.

The modules are:

| module | what it holds |
|---|---|
| `Wrappers` | `Option` |
| `Schema` | JavaScript values (`JsValue`), truthiness, the record shapes, the insert schema |
| `JsString` | `trim`, `toLowerCase`, `split`/`join`, `includes`, filters and white-space collapsing on strings |
| `ArabicText` | the `[؀-ۿ\s]` character class both oath checks keep |
| `OathText` | the client library's `normalizeArabicText` and `validateOathText` |
| `ApplicationModals` | the dialog's `normalizeText`, `validateOath` and its three submit handlers |
| `Storage` | `InMemoryStorage`, a class whose maps the methods update in place |
| `Discord` | the bot (`DiscordService`, a class with its `ready` flag) and its pure message logic |
| `Routes` | the handlers of `server/routes.ts`, as methods over the store and the bot |
| `Submission` | what the dialogs post against what the insert schema accepts |

How the model treats the runtime:

- Each clock read, fresh id and Discord API call becomes a parameter. This covers
  `new Date()`, `Date.now()`, `randomUUID()`, guild and member fetches, channel sends,
  message updates and role additions.
- A handler's result is a status code and a body before JSON serialisation.
- The store's three maps are `map` fields that its methods reassign. A `seq` of keys
  records the insertion order in which a JavaScript `Map` yields its values.

## Model

| member | source | states |
|---|---|---|
| `Storage.InMemoryStorage.CreateApplication` | server/storage.ts:16-28 | the record copies the insert's type, name, user id and form data; its id is the fresh one, its status is pending and it has no reviewer, whatever the input carried; createdAt <= updatedAt; exactly this one entry is added, and nothing else changes |
| `Storage.InMemoryStorage.GetApplications` | server/storage.ts:30-34 | the listing is ordered newest first by createdAt, is a permutation of the stored values in insertion order, and holds exactly the stored applications |
| `Storage.SortNewestFirst` | server/storage.ts:31-33 | the sort keeps the length; `SortNewestFirstSorted`, `SortNewestFirstPermutes` and `SortNewestFirstStable` state its order, contents and stability |
| `Storage.SortNewestFirstSorted` | server/storage.ts:31-33 | the comparator sort yields a list ordered by createdAt, non-increasing |
| `Storage.SortNewestFirstPermutes` | server/storage.ts:31-33 | the sort keeps every record as often as it occurs |
| `Storage.SortNewestFirstStable` | server/storage.ts:31-33 | the sort is stable, as `Array.prototype.sort` is: records created at the same time keep their insertion order |
| `Storage.InsertNewestFirstSorted` | server/storage.ts:31-33 | inserting one record into a newest-first list keeps it newest first |
| `Storage.InMemoryStorage.GetApplicationById` | server/storage.ts:36-38 | found exactly when the id is stored, with the stored record |
| `Storage.InMemoryStorage.UpdateApplicationStatus` | server/storage.ts:40-49 | an unknown id yields undefined and the map is unchanged; a known id gets the new status and reviewer and a refreshed updatedAt, everything else in it and every other record stay the same |
| `Storage.Reviewed` | server/storage.ts:43-45 | status, reviewer and updatedAt are set; id, type, name, user id, form data and createdAt are kept |
| `Storage.ReviewedTwice` | server/storage.ts:41-48 | nothing guards against a repeat review: the second review overwrites the first |
| `Storage.InMemoryStorage.GetApplicationSettings` | server/storage.ts:51-53 | found exactly when the type has a record |
| `Storage.InMemoryStorage.UpdateApplicationSettings` | server/storage.ts:55-72 | afterwards the type's record has the new flag; an existing record keeps its id, a record is created under the fresh id only when none existed; the other types are untouched |
| `Storage.InMemoryStorage.CreateAdminSession` | server/storage.ts:74-83 | the session is stored under its session id and then read back by it; nothing else changes |
| `Storage.InMemoryStorage.GetAdminSession` | server/storage.ts:85-87 | found exactly when the session id is stored |
| `Storage.InMemoryStorage.DeleteAdminSession` | server/storage.ts:89-91 | the session is removed and then reads back as absent; nothing else changes |
| `Storage.InMemoryStorage.CleanExpiredSessions` | server/storage.ts:93-100 | the loop over a snapshot leaves exactly the sessions with expiresAt >= now, unchanged |
| `Storage.Unexpired` | server/storage.ts:95-99 | a session is kept if and only if it has not expired, and it is kept as it was |
| `Storage.UnexpiredTwice` | server/storage.ts:93-100 | an earlier sweep followed by a later one does what the later one alone does |
| `Schema.ParseInsertApplication` | shared/schema.ts:6-16 | a parsed record takes its type, name and form data from the body; a body without a string `discordUsername` is refused |
| `Schema.ParseInsertApplicationBody` | shared/schema.ts:32-37 | round trip: a record sent as its JSON body parses back to itself |
| `Routes.VerifyDiscord` | server/routes.ts:16-35 | 400 exactly when the username is missing, empty or not a string; 200 carries the id the bot resolves; 500 exactly when the bot throws; the answer is never 404 |
| `Routes.VerifyUnknownMemberIsServerError` | server/routes.ts:24-34 | a name no member carries is answered 500, because the not-found error lands in the catch-all |
| `Routes.VerifyWhileDisconnected` | server/routes.ts:24-27 | while the bot is disconnected, every non-empty name is answered 200 with the test id |
| `Routes.SubmitApplication` | server/routes.ts:38-67 | 400 exactly when the schema refuses the body; 403 exactly when the type's stored setting is closed, and nothing is stored; otherwise exactly one pending application is stored under the fresh id, the answer is 200 with its id whatever happens to the notification, and the notification carries that application's embed |
| `Routes.GetApplicationSettingsRoute` | server/routes.ts:102-117 | for admin, script and hacks in turn: the stored flag, or open when no record exists |
| `Routes.PutApplicationSettings` | server/routes.ts:120-139 | 400 with the store unchanged unless the type is admin, script or hacks and isOpen is a boolean; otherwise the type's settings are updated to isOpen, stamped with the current time and returned; they keep the existing record's id, or take the fresh id when the type had no record |
| `Routes.ApplicationTypesAreKnown` | server/routes.ts:125 | the types the settings routes accept are exactly the types the bot has tables for |
| `Routes.GetApplicationsRoute` | server/routes.ts:142-150 | 200 with every stored application, newest first |
| `Routes.ReviewStatus` | server/routes.ts:163 | the status is accepted exactly for the action 'accept' and rejected for every other action |
| `Routes.RoleToAssign` | server/routes.ts:165-188 | a role call happens only with a truthy user id, and only on accept or on rejecting an admin application; with a truthy user id, accepting calls with the role `roleMap` gives the application's type (none for an unknown type), and rejecting an admin application calls with the reject role |
| `Routes.WebhookRoleMap` | server/routes.ts:167-173 | the route's own role table; `WebhookRoleMapMatchesBot` proves it equal to the bot's |
| `Routes.WebhookRoleMapMatchesBot` | server/routes.ts:167-173 | the route's role map agrees with the bot's type-to-role table |
| `Routes.RoleChoiceMatchesButtons` | server/routes.ts:165-188 | given a user id, the route assigns exactly the role the bot's button handler names for the same action and type |
| `Routes.RespondToApplication` | server/routes.ts:153-195 | an unknown id gives 404 with no change and no role call; otherwise the application is reviewed by 'Discord Bot' with the action's status, the chosen role (if any) is assigned, and the answer is 200 whether or not the assignment fails |
| `Discord.ApplicationTypeArabic` | server/services/discord.ts:295-302 | a known type gets a name different from itself; any other type is returned unchanged |
| `Discord.ApplicationColor` | server/services/discord.ts:304-311 | a 24-bit colour, grey (0x99AAB5) exactly for an unknown type |
| `Discord.RoleIdForType` | server/services/discord.ts:313-320 | a role exactly for a known type, never the reject or moderator role |
| `Discord.KnownTypesDistinct` | server/services/discord.ts:295-320 | two different known types differ in name, colour and role |
| `Discord.LookupMeaning` | server/services/discord.ts:149-173 | a label lookup returns the label of the first row for the key, and fails exactly when no row has the key |
| `Discord.FieldLabelLookup` | server/services/discord.ts:173 | a form field's label is the table's label for its key, or the key itself when the key is absent |
| `Discord.DisplayValue` | server/services/discord.ts:174-183 | the text shown for an entry; `DisplayValueMeaning` states its cases |
| `Discord.DisplayValueMeaning` | server/services/discord.ts:177-183 | `responsibility` reads yes exactly for true and 'true', no otherwise; other booleans read yes or no; strings are shown as they are |
| `Discord.Truncate` | server/services/discord.ts:188 | the result is the prefix of length min(length, limit) |
| `Discord.FieldFor` | server/services/discord.ts:172-191 | a field is never inline and its value has 1 to 1024 characters; `FieldForShown` and `FieldForContent` state when it exists and what it holds |
| `Discord.FieldForShown` | server/services/discord.ts:171-192 | an entry yields a field exactly when its value is not null, undefined or '' and its display text is not blank |
| `Discord.FieldForContent` | server/services/discord.ts:185-190 | the field carries the entry's label and a prefix of its display text, all of that text when it fits the 1024 limit |
| `Discord.FormFieldsAppend` | server/services/discord.ts:171 | the fields of the entries concatenated are the fields of each part, in entry order |
| `Discord.FormFieldsFromEntries` | server/services/discord.ts:171-193 | every form field is the field of some entry |
| `Discord.FormFieldsKeepEveryShownEntry` | server/services/discord.ts:171-193 | every entry that yields a field has that field in the embed |
| `Discord.ApplicationEmbed` | server/services/discord.ts:135-197 | the embed as a value; `ApplicationEmbedShape` states its shape and `CreateApplicationEmbed` is proved to build it |
| `Discord.ApplicationEmbedShape` | server/services/discord.ts:135-197 | the embed opens with the three inline header fields; every later field is a non-inline form field of 1 to 1024 characters; with falsy form data there are no others |
| `Discord.EntriesOf` | server/services/discord.ts:171 | an object gives its own entries in order; a string gives, for each position i, the entry (i in decimal, the character at i) |
| `Discord.DiscordService.CreateApplicationEmbed` | server/services/discord.ts:135-197 | the loop over the entries builds exactly the specified embed |
| `Discord.DiscordService.AddEntryField` | server/services/discord.ts:171-193 | the forEach callback appends the entry's field, if it has one |
| `Discord.DiscordService.SendApplicationToChannel` | server/services/discord.ts:101-133 | a message is posted exactly when the bot is ready, a channel id is set, and the channel is a text channel that can send; the message carries the application's embed and its accept and reject button ids |
| `Discord.CustomId` | server/services/discord.ts:203-209 | the button id `${action}_${type}_${id}`; `CustomIdRoundTrip` proves `DecodeCustomId` inverts it |
| `Discord.CustomIdRoundTrip` | server/services/discord.ts:199-213 | splitting `action_type_id` on '_' gives back action, type and id when none of them contains '_' |
| `Discord.DecodeCustomId` | server/services/discord.ts:44 | the decoded action holds no '_'; the id has no '_' exactly when it decodes with no type, and then it decodes to itself as the action, with no id |
| `JsString.SplitJoin` | server/services/discord.ts:44 | `split` inverts `join` on pieces that do not contain the separator |
| `JsString.Split` | server/services/discord.ts:44 | at least one piece, no piece holds the separator, and the pieces joined give back the input |
| `Discord.RouteInteraction` | server/services/discord.ts:41-49 | a button press is passed on exactly when its decoded action is 'accept' or 'reject' |
| `Discord.PostedButtonsRoute` | server/services/discord.ts:41-48 | both buttons posted under an application reach the handler with their action, type and id |
| `Discord.IntendedRole` | server/services/discord.ts:262-273 | the reject role exactly for rejecting an admin application; on accept, exactly the role `getRoleIdForType` gives the type (none when the type is missing or unknown); no role for any other action or type |
| `Discord.HandleApplicationResponse` | server/services/discord.ts:215-278 | a non-moderator is only told they lack permission; for a moderator, the message is updated when it has an embed and the update succeeds: the same title and fields, then the status and review-time fields, with green or red colour, and the role the handler would grant |
| `JsString.IntegerString` | server/services/discord.ts:251 | the decimal text of an integer: a leading '-' exactly for a negative number, then digits whose value is its magnitude, with no leading zero unless the number is 0 |
| `Discord.FindMemberIndex` | server/services/discord.ts:73-77 | `find` stops at the first member whose username, tag or display name equals the input, and finds nothing exactly when no member does |
| `Discord.CaughtVerifyError` | server/services/discord.ts:87-98 | the verification's own errors pass through the catch block; every other error becomes the cannot-verify error |
| `Discord.DiscordService.VerifyUserInGuild` | server/services/discord.ts:57-99 | while disconnected every name passes with 'test-user-id'; connected with no guild id, the configuration error is thrown; otherwise the result is verified exactly when some member matches, it carries the first match's id, and no match throws the not-found error |
| `Discord.DiscordService.AssignRole` | server/services/discord.ts:280-293 | refused while disconnected; otherwise it succeeds exactly when the role API call does, and passes the API's error on |
| `Discord.DiscordService.constructor` | server/services/discord.ts:3-16 | the bot starts disconnected; the guild id is the variable or ''; the channel id is the variable or the default, and is never empty |
| `Discord.DiscordService.OnReady` | server/services/discord.ts:36-39 | the ready event marks the bot connected |
| `Discord.EnvOr` | server/services/discord.ts:4-5 | `process.env.X \|\| fallback`: the variable when it is set and non-empty, otherwise the fallback |
| `JsString.Trim` | client/src/lib/discord.ts:3 | the result starts and ends with a non-white-space character unless it is empty, and an input that is already trimmed comes back unchanged |
| `JsString.TrimEmptyUnlessVisible` | server/services/discord.ts:185 | `trim()` is non-empty exactly when the text has a non-white-space character |
| `JsString.CollapseWhiteSpace` | client/src/components/application-modals.tsx:141 | only single spaces and characters other than white space remain, no two spaces are adjacent, and the result starts with a space exactly when the input starts with white space |
| `JsString.CollapseMatchesScan` | client/src/components/application-modals.tsx:141 | collapsing equals a character-by-character scan that writes one space where each maximal run of white space opens and copies every other character |
| `JsString.CollapseKeepsVisibleChars` | client/src/components/application-modals.tsx:141 | the characters other than white space are kept, all of them and in order |
| `JsString.FilterIsSubsequence` | client/src/lib/discord.ts:3 | a character filter keeps a subsequence of its input |
| `JsString.ToLowerCase` | client/src/lib/discord.ts:3 | the length is kept; ASCII only, see below |
| `OathText.NormalizeArabicText` | client/src/lib/discord.ts:2-4 | the output is no longer than the input, and each of its characters is in U+0600–U+06FF or is white space |
| `OathText.NormalizeIsSubsequenceOfTrimmed` | client/src/lib/discord.ts:3 | the output is a subsequence of the trimmed input |
| `OathText.NormalizeCounts` | client/src/lib/discord.ts:3 | every Arabic-block or white-space character of the trimmed input is kept as often as it occurs; every other character is dropped |
| `OathText.NormalizeKeepsArabicOfTrimmed` | client/src/lib/discord.ts:3 | lower-casing makes no difference to the output: it is the trimmed input's Arabic and white-space characters |
| `OathText.ValidateOathText` | client/src/lib/discord.ts:6-10 | equality of the two normalised texts; reflexive and symmetric by the two lemmas below |
| `OathText.ValidateOathTextReflexive` | client/src/lib/discord.ts:6-10 | a text is always accepted against itself |
| `OathText.ValidateOathTextSymmetric` | client/src/lib/discord.ts:6-10 | the two arguments can be swapped |
| `OathText.NormalizeNotIdempotent` | client/src/lib/discord.ts:3 | normalising "x ب" gives " ب", and a second pass gives "ب": normalising is not idempotent |
| `ApplicationModals.NormalizeText` | client/src/components/application-modals.tsx:133-142 | the six steps in the source's order; `NormalizedTextShape` and `NormalFormIsFixed` state what it produces |
| `ApplicationModals.StripDiacritics` | client/src/components/application-modals.tsx:136 | no character in U+064B–U+065F, U+0670 or U+0671 survives, and every survivor comes from the input |
| `ApplicationModals.UnifyChar` | client/src/components/application-modals.tsx:137-139 | each variant becomes its base letter (أ, إ and آ become ا, ى becomes ي, ة becomes ه), so none of them is left; any other character is kept as it is |
| `ApplicationModals.NormalizedTextShape` | client/src/components/application-modals.tsx:133-142 | normalised text holds only characters of the U+0600–U+06FF block (letters, Arabic-Indic digits and Arabic punctuation alike) with no diacritics and no letter variants, plus single spaces, and no two spaces are adjacent |
| `ApplicationModals.NormalFormIsFixed` | client/src/components/application-modals.tsx:133-142 | text already in normal form is left unchanged by normalisation |
| `ApplicationModals.RequiredOathIsNormal` | client/src/components/application-modals.tsx:131 | the required phrase is in normal form |
| `ApplicationModals.RequiredOathHasKeyWords` | client/src/components/application-modals.tsx:131-148 | the required phrase contains all four key words |
| `ApplicationModals.ValidateOath` | client/src/components/application-modals.tsx:144-151 | key words present, or an exact match; `ValidateOathIsKeyWordTest` reduces it to the key-word test |
| `ApplicationModals.ValidateOathIsKeyWordTest` | client/src/components/application-modals.tsx:144-151 | the oath is accepted if and only if its normalised text contains all four key words; the exact-match branch never decides anything |
| `ApplicationModals.VariantSpellingNormalizes` | client/src/components/application-modals.tsx:137-139 | writing letters of normal-form text in variant forms (أ, إ or آ for ا, ى for ي, ة for ه) does not change its normal form |
| `ApplicationModals.VariantSpellingOfOathAccepted` | client/src/components/application-modals.tsx:130-151 | every variant spelling of the required phrase (say السىرفر for السيرفر) normalises to the phrase and passes the oath check |
| `ApplicationModals.DisplayedOathAccepted` | client/src/components/application-modals.tsx:287 | the phrase shown to the user, with its hamza forms of alif, normalises to exactly the required phrase and is accepted |
| `ApplicationModals.HandleAdminSubmit` | client/src/components/application-modals.tsx:154-170 | the admin form is sent exactly when its oath passes, as type 'admin' with the form as its data |
| `ApplicationModals.HandleScriptSubmit` | client/src/components/application-modals.tsx:172-178 | the script form is always sent, with no oath check, as type 'script' carrying the form's fields as its data |
| `ApplicationModals.HandleHacksSubmit` | client/src/components/application-modals.tsx:180-186 | the hacks form is always sent, with no oath check, as type 'hacks' carrying the form's fields as its data |
| `Submission.DialogRequestBody` | client/src/components/application-modals.tsx:166-169 | the body the dialogs post carries the type and the form data, and no `discordUsername` |
| `Submission.DialogSubmissionRefused` | shared/schema.ts:32-37 | as written, the insert schema refuses every body the dialogs post |
| `Submission.AcceptedAdminFormRefused` | client/src/components/application-modals.tsx:157-169 | as written, even an admin form whose oath passes is refused by the server |
| `Submission.CorrectedSubmissionParses` | server/routes.ts:40 | corrected: a dialog body that also carries the applicant's name parses to an insert record with that type, name and form data |
| `Submission.CorrectedDialogsParse` | client/src/components/application-modals.tsx:154-186 | corrected: all three dialogs' bodies parse |

## Left out

- Strings are sequences of code points. JavaScript counts UTF-16 code units, so for
  characters outside the Basic Multilingual Plane, `Truncate` (`substring(0, 1024)`)
  and `length` differ from the original.
- `JsString.ToLowerCase`: lower-cases ASCII letters only. Full Unicode case mapping is
  not modelled. It never affects the oath checks, because both keep only Arabic-block
  characters and white space, and these have no case. `OathText.NormalizeKeepsArabicOfTrimmed`
  proves this for the client library's normaliser.
- White space is the ECMAScript WhiteSpace and LineTerminator set (the `\s` and `trim`
  set), written out as a fixed list of code points.
- Lookups in `fieldLabels` and in the route's `roleMap` ignore inherited object
  properties. The original would find, for example, a `constructor` key on the prototype.
- `formData` given as a number or an array is modelled as yielding no entries.
  `Object.entries` of an array would yield its indices; arrays are not a modelled value.
  The property order of a form-data object is taken as given.
- Zod's error list in the 400 answer is left out. So is the schema's treatment of
  unexpected keys. `formData` counts as present when it is anything but undefined.
- Building the embed and button components with discord.js, and serialising them to
  JSON, are left out. Embeds and messages are plain values.
- `Discord.DiscordService.SendApplicationToChannel`: discord.js's `EmbedBuilder` refuses
  an embed of more than 25 fields and a field name over 256 characters. With more than
  22 shown form entries, or a form key over 256 characters, the original throws inside
  its try block and posts nothing. The same builders refuse three more inputs that the
  model also lets through:
  - a title over 256 characters, reachable because an unknown type is shown as the type
    itself and the insert schema accepts any `type` string;
  - a header field value over 1024 characters or empty: `discordUsername` and an unknown
    type name are put in header fields uncut;
  - a button custom id over 100 characters, which happens for any type longer than 56
    characters, since the application id is a 36-character UUID.

  In each of these cases the original posts nothing. The model does not check these
  library limits and posts the message.
- `Discord.HandleApplicationResponse`: for the same reason, an original embed with 24 or
  more fields makes the original's update throw and be logged. The model updates it.
- The bot token, `initialize` and `login` are left out. Connection is the `ready` flag,
  which `OnReady` sets.
- The `!CHANNEL_ID` branch of `sendApplicationToChannel` is kept. It is unreachable,
  because the channel id has a non-empty default; the constructor's contract states this.
- `Discord.HandleApplicationResponse`: the original only logs the role it would grant.
  The model returns that role as `intendedRole` and calls nothing.
- Clock readings and fresh ids are parameters. `createApplication` reads the clock
  twice, so the model takes two readings, with createdAt <= updatedAt.
  `handleApplicationResponse` also reads it twice (`setTimestamp` and `Date.now()`), and
  the model takes two independent readings there too.
- A record the original mutates in place (the reviewed application, the updated
  settings) is shared with earlier callers through aliasing. The model replaces the
  value in the map, so an earlier reference does not observe the change.
- async/await interleaving is left out; handlers run one at a time.
- The hourly `setInterval` that calls `cleanExpiredSessions` is left out; the sweep's
  body is modelled.
- The 500 answers of the handlers' catch-alls are left out, apart from
  `/api/verify-discord`. They fire only on errors that the in-memory store cannot raise.
- Admin login and logout, and the `requireAdmin` middleware (which does nothing), are
  left out. They hold a fixed credential comparison and no logic.
- The OpenAI, Slack and integration services, and all React pages and components other
  than the oath check and the three submit handlers, are left out. They are foreign API
  calls and UI.

## Findings

| source | as written | input that shows it | evidently intended | confidence | as-written member | corrected member |
|---|---|---|---|---|---|---|
| client/src/components/application-modals.tsx:166-169 with shared/schema.ts:9,32-37 and server/routes.ts:40,61-62 | the dialogs post `{ type, formData }`; the insert schema requires `discordUsername` (a non-null text column with no default), so the server answers 400 | any admin, script or hacks submission, e.g. the script form with every field empty | the posted body also carries the applicant's Discord username | not executed | `Submission.DialogSubmissionRefused` | `Submission.CorrectedSubmissionParses` |
