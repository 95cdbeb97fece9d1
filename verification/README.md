# libredesk decision layer in Dafny

This project models the decisions libredesk's helpdesk backend makes, with
persistence, HTTP and e-mail reduced to plain values. It covers:

- which conversation lists an agent may query, and the saved-view gate;
- the status lifecycle, including the portal's close path;
- agent and team assignment;
- which contacts see a conversation, and with which organisation a new
  conversation is shared;
- automatic organisation membership by e-mail domain, over an organisation
  store that keeps the schema's integrity rules;
- media upload and serving rules;
- the customer portal's gate and handlers;
- the portal settings form;
- the settings and role migrations.

Each handler is a pure function of its request and of what its
collaborators answer: the agent lookup, the conversation fetch, the
authorisation decision, the success or failure of each write. It returns a
`Reply`, which holds the result (an error kind or a value) and the list of
state-changing calls the handler made, as `Effect` values, in order. The
organisation store is a value (`OrgStore.Store`), and its operations return
the new store together with their result.

The authorisation service's decisions (`EnforceConversationAccess`,
`EnforceMediaAccess`) are uninterpreted function parameters, because their
rules are not part of this model. So are e-mail syntax validation and Go's
duration parsing.

Modules:

- `Envelope`: error kinds, `Option`, `Result`, `Outcome`.
- `Text`: ASCII case folding, trimming, the e-mail domain.
- `Statuses`: the status catalogue.
- `Conversations`: shared records and effects.
- `Lists`: list scopes, views, pages, previous conversations.
- `Lifecycle`: status changes.
- `Assignment`: assignee changes.
- `Sharing`: contact access and organisation choice.
- `OrgStore`: organisations, members, domains.
- `Contacts`: contact create, update and notes.
- `Media`: uploads and serving.
- `Settings`: JSON settings and the portal form.
- `Migrations`: settings and role migrations.
- `Portal`: the portal gate and handlers.
- `Creation`: an agent opening a conversation.

## Model

| member | source | states |
|---|---|---|
| Text.Lower | cmd/contacts.go:431 | The folded character is never an upper-case letter; non-letters and spaces pass through unchanged. |
| Text.ToLower | cmd/contacts.go:431 | Lower-casing keeps the length, folds each character on its own, leaves no upper-case letter, and changes nothing in text that has none. |
| Text.TrimLeft | cmd/contacts.go:431 | The result is the suffix left after dropping only whitespace, and it does not start with whitespace. |
| Text.TrimRight | cmd/contacts.go:431 | The result is the prefix left after dropping only whitespace, and it does not end with whitespace. |
| Text.TrimSpace | cmd/contacts.go:431 | The trimmed text has no whitespace at either end, is unchanged if already trimmed, and stays free of capitals when the input was. |
| Text.Normalize | internal/organization/organization.go:221 | The normal form of an address or domain is trimmed and has no upper-case letter. |
| Text.NormalizeIdempotent | internal/organization/organization.go:235 | Normalising an already normalised value changes nothing, so a stored domain matches its own lookup. |
| Text.NormalizeIgnoresCase | internal/organization/organization.go:221 | Inputs that differ only in letter case have the same normal form. |
| Text.LastIndexOf | cmd/contacts.go:435 | The index found holds the character and no later position does; -1 means the character is absent. |
| Text.TrimPrefix | cmd/media.go:267 | When the text starts with the prefix, the result is what follows it; otherwise the text is returned unchanged. |
| Text.EmailDomain | cmd/contacts.go:430-439 | There is no domain exactly when the normalised address is empty, has no '@', or ends with '@'. Otherwise the normalised address is a local part, '@', and the domain, and the domain holds no '@'. |
| Text.DomainAfterLastAt | internal/organization/organization.go:272-276 | On a normalised address, the domain is the non-empty text after the last '@', under the same three refusals. |
| Statuses.Present | internal/conversation/status/models/models.go:21 | A presented status keeps its id and name, and is flagged default exactly when its id is one of 1 to 4. |
| Statuses.CanDelete | internal/conversation/status/models/models.go:5-6 | A status may be deleted exactly when its id is not one of the default ids. |
| Statuses.Rename | internal/conversation/status/models/models.go:6 | Renaming keeps the id, so a default status stays default under its new name. |
| Statuses.DefaultIDsAreOneToFour | internal/conversation/status/models/models.go:7-14 | The default ids are exactly [1, 2, 3, 4]; Open, Snoozed, Resolved and Closed are distinct and the default test is membership in 1..4. |
| Statuses.FirstNamed | cmd/conversation.go:539-544 | The index found is the first status with exactly that name; -1 means no status has it. |
| Statuses.FirstWithID | cmd/conversation.go:529 | The index found holds a status with that id; -1 means no status has it. |
| Conversations.IntOrZero | cmd/conversation.go:573 | A null id reads as 0; a set id reads as itself. |
| Conversations.EnforceConversationAccess | cmd/conversation.go:731-744 | Access is granted exactly when the fetch succeeds and the decision is yes, and then yields the fetched conversation. A fetch or decision error propagates; a "no" is a PermissionError. |
| Lists.ResolveLists | cmd/conversation.go:219-240 | The loop's result equals the reference definition: [All] when read_all is held anywhere, otherwise the per-permission lists in permission order, not deduplicated. |
| Lists.ContributionsAppend | cmd/conversation.go:221-240 | The lists of two permission runs, one after the other, are the two runs' lists concatenated. |
| Lists.ContributionsMembers | cmd/conversation.go:227-239 | Each list appears exactly when its permission is held; the team-inbox list needs read_team_all to be absent; All never comes from this part of the loop. |
| Lists.ReadAllWins | cmd/conversation.go:221-226 | Whatever else is held and wherever read_all appears, the lists are exactly [All]. |
| Lists.TeamAllSupersedesTeamInbox | cmd/conversation.go:233-239 | With read_team_all (and no read_all), the team list is present and the team-inbox list absent. |
| Lists.NoListsIffNoReadPermission | cmd/conversation.go:242-245 | The resolved lists are empty exactly when none of the five read permissions is held. |
| Lists.RepeatedPermissionRepeatsList | cmd/conversation.go:227-239 | A permission run held twice yields its lists twice: entries are not deduplicated. |
| Lists.CanUseView | cmd/conversation.go:202-212 | All-visibility always passes; user-visibility needs a set owner equal to the agent; team-visibility needs a set team among the agent's teams; any other visibility is refused. |
| Lists.GetViewConversations | cmd/conversation.go:187-247 | The error order is id < 1, then the view lookup, then the agent lookup, then the view gate. A query is made exactly when all of them pass and the allowed lists are non-empty, and it carries those lists and the view's filters. |
| Lists.ViewGateBeforeLists | cmd/conversation.go:214-216 | A view the agent may not use is a PermissionError even for an agent holding read_all. |
| Lists.TotalPages | cmd/conversation.go:85 | For a non-negative total and a positive page size, the result is the least page count whose pages hold every row. |
| Lists.CeilingDivision | cmd/conversation.go:85 | Go's truncating division of total + size - 1 by size is the ceiling of total / size for non-negative totals. |
| Lists.RemoveFirst | cmd/conversation.go:790-795 | Only the first entry with the uuid is removed; a list without it is kept as is. |
| Lists.FilterCurrentPreviousConv | cmd/conversation.go:789-796 | As written: the first entry with the uuid is dropped, and a list that lacks the uuid comes back empty. |
| Lists.PreviousConversationsWithoutCurrent | cmd/conversation.go:789 | Corrected: the current conversation is left out and every other entry is kept, including when the current one is absent. |
| Lists.RemoveFirstKeepsOthers | cmd/conversation.go:790-795 | Removing the current conversation shortens the list by one and keeps every entry with another uuid. |
| Lists.FirstIndexOf | cmd/conversation.go:790-791 | The position found is the first entry with the uuid. |
| Lists.FilterEmptiesListWithoutCurrent | cmd/conversation.go:796 | A one-entry list without the current uuid is emptied by the filter as written and kept by the corrected one. |
| Lifecycle.ResolveTargetAsWritten | cmd/conversation.go:527-550 | As written: a positive id must be known; a blank request is refused; a negative id with an unknown name passes resolution as that negative id. |
| Lifecycle.NegativeIDSlipsThrough | cmd/conversation.go:545 | Status id -1 with an unknown name resolves to -1 instead of an InputError. |
| Lifecycle.ResolveTarget | cmd/conversation.go:527-550 | Corrected: a positive id is taken only when the catalogue knows it; otherwise a non-empty name resolves to its first exact match; everything else is an InputError, except a failed catalogue read, which propagates. Success always names a catalogue entry. |
| Lifecycle.ResolutionsAgreeOutsideTheGap | cmd/conversation.go:534-547 | The written and corrected resolutions agree on every request except a negative id with an unmatched name. |
| Lifecycle.ChangeStatus | cmd/conversation.go:552-595 | After resolution, errors come in order: the resolution, the Snoozed duration, the agent, then access, each with no write. Resolving an unassigned conversation is an InputError with no write. The target status is written exactly when every guard passed, and it is the first call. The handler answers true exactly when that write passes and, for Resolved, the inbox read and any CSAT send pass. A failed write is the handler's error. A survey is sent exactly after a committed write to Resolved on a CSAT inbox. |
| Lifecycle.UpdateStatusAsWritten | cmd/conversation.go:527-595 | As written, a negative id with an unknown name on an accessible conversation reaches the status write with that negative id, and is answered true when the write passes. |
| Lifecycle.HandlersAgreeOutsideTheGap | cmd/conversation.go:534-547 | The handler as written and the corrected one give the same reply on every request outside the negative-id gap. |
| Lifecycle.UpdateStatus | cmd/conversation.go:527-595 | With the corrected resolution, only a status the catalogue holds is ever written, and a request with neither a positive id nor a name is an InputError with no write. |
| Lifecycle.ApplyStatus | cmd/conversation.go:578 | Status writes change only the status: the last write in the run decides it, and a run without one leaves the conversation as it was. |
| Lifecycle.SuccessfulChangeSetsStatus | cmd/conversation.go:577-594 | Whatever the target, a change answered true leaves the conversation in the target status with nothing else changed. |
| Lifecycle.PermittedChangeCommits | cmd/conversation.go:552-594 | A permitted change to a status other than Snoozed or Resolved is the one status write, answered true once the write passes. No survey is sent. |
| Lifecycle.UnassignedStaysUnresolved | cmd/conversation.go:572-575 | Resolving a conversation with no assigned agent fails and leaves its status unchanged. |
| Lifecycle.CSATFailureAfterCommit | cmd/conversation.go:577-593 | A failing inbox read or CSAT send reports an error, yet the conversation is already Resolved. |
| Lifecycle.SnoozeNeedsDuration | cmd/conversation.go:552-560 | Snoozing succeeds exactly when snoozed_until parses as a duration; otherwise it is an InputError with no write. |
| Assignment.AssignTeam | cmd/conversation.go:901 | A team write sets the team and clears the assigned agent; nothing else changes. |
| Assignment.AssignUser | cmd/conversation.go:906 | An agent write sets only the assigned agent. |
| Assignment.ApplyAssignments | cmd/conversation.go:901-907 | Assignee writes change only the two assignee fields. Without a team write the team stays, and without any assignee write nothing changes. |
| Assignment.LastAssigneeWritesDecide | cmd/conversation.go:901-907 | The last team write decides the team, and a team write with no later agent write leaves no agent. The last assignee write of either kind, when it is an agent write, decides the agent. |
| Assignment.UpdateUserAssignee | cmd/conversation.go:411-431 | The agent lookup and the access check come first. The write is skipped exactly when the conversation already has that agent. Success means skipped or written. |
| Assignment.UpdateTeamAssignee | cmd/conversation.go:447-473 | The agent lookup, then the team's existence, then access. The write is skipped exactly when the conversation already has that team. Success means skipped or written. |
| Assignment.TeamExistenceBeforeAccess | cmd/conversation.go:454-467 | An unknown team is reported with the team lookup's error, whatever access would have said, and nothing is written. |
| Assignment.UserAssignmentIdempotent | cmd/conversation.go:421-424 | After a successful agent assignment, repeating it succeeds without a write. |
| Assignment.TeamAssignmentIdempotent | cmd/conversation.go:463-466 | After a successful team assignment, repeating it succeeds without a write. |
| Assignment.AssignAtCreation | cmd/conversation.go:900-907 | A team write is made exactly for a positive team id and an agent write exactly for a positive agent id, the team's first. |
| Assignment.CreationKeepsBothAssignees | cmd/conversation.go:901-907 | Because the team is written first, a new conversation ends with both requested assignees; unrequested ones are untouched. |
| Assignment.AgentFirstLosesAgent | cmd/conversation.go:901 | In the opposite order the later team write clears the agent. |
| Assignment.ApplyAssignmentsAppend | cmd/conversation.go:901-907 | Applying two runs of assignee writes is applying the first, then the second. |
| Sharing.PortalContactOrgID | cmd/portal.go:332-341 | The portal's organisation id is the membership's, 0 without a membership, and the lookup's error when it fails. |
| Sharing.GuardMatchesMembership | cmd/portal.go:344-352 | The guard, applied to the organisation id derived from a membership, is exactly "owner, or member of the organisation the conversation is shared with". |
| Sharing.OwnerAlwaysHasAccess | cmd/portal.go:345-347 | The owner passes the guard whatever the organisation state. |
| Sharing.UnsharedMeansOwnerOnly | cmd/portal.go:348-351 | For an unshared conversation, or a contact without organisation, only the owner passes. |
| Sharing.MembershipOrNone | cmd/portal.go:462-465 | A failed membership lookup counts as no membership; a successful one is kept. |
| Sharing.PortalShareOrgID | cmd/portal.go:461-477 | The organisation id is set exactly when the effective share (override, else the member's default, false without membership) holds and the id is positive; then it is the member's organisation. |
| Sharing.AgentShareOrgID | cmd/conversation.go:836-847 | The member's organisation when the effective share holds, else 0. |
| Sharing.CreationPathsAgree | cmd/conversation.go:836-847 | For positive organisation ids, the portal and agent creation paths pick the same organisation. |
| Sharing.OverrideWinsOverDefault | cmd/portal.go:466-473 | An explicit override decides in both directions; without one the member's default decides. |
| Sharing.UpdateShareWithOrganization | cmd/conversation.go:602-637 | The agent and access checks come first. A failed membership lookup propagates without a write. The written id is the owner's organisation only when sharing is asked for and a membership exists, else 0. |
| Sharing.ApplyOrganization | cmd/conversation.go:633 | Share writes change only the organisation: the last one in the run sets it, and a run without one leaves the conversation as it was. |
| Sharing.ShareToggleGrantsAndRevokes | cmd/conversation.go:624-631 | Sharing opens the conversation to the owner's organisation; unsharing leaves it to the owner alone. |
| OrgStore.Filter | internal/migrations/v1.3.0.go:15 | The kept rows are exactly those passing the test, in order, never more than before, and stay free of duplicates. |
| OrgStore.SingleRow | internal/organization/organization.go:81-91 | A missing row is NotFoundError, any other failure GeneralError, and a row is returned as found. |
| OrgStore.MembershipFromRow | internal/organization/organization.go:145-155 | No row means no membership and is not an error; a failed query is a GeneralError. |
| OrgStore.NullIfEmpty | internal/organization/organization.go:96-99 | An empty description (or optional contact field) is stored as null, any other as given. |
| OrgStore.CreateOrganization | internal/organization/organization.go:94-105 | Creation succeeds exactly when the row fits the column limits. It adds one organisation under a fresh id, and a refusal is a GeneralError that leaves the store unchanged. |
| OrgStore.GetOrganization | internal/organization/organization.go:81-91 | The lookup succeeds exactly for a stored id, returning that row; otherwise NotFoundError. |
| OrgStore.UpdateOrganization | internal/organization/organization.go:108-122 | An unknown id is NotFoundError and a row over the limits a GeneralError, neither changing the store; success replaces only that row. |
| OrgStore.DeleteOrganization | internal/migrations/v1.2.0.go:31-48 | The organisation goes together with its members and domains. Conversations shared with it become unshared, and nothing else changes. |
| OrgStore.FilterKeepsAll | internal/migrations/v1.3.0.go:15 | A test every row passes keeps the rows as they are. |
| OrgStore.DeleteContact | internal/migrations/v1.2.0.go:32 | Deleting a contact removes exactly its memberships and keeps organisations and domains. |
| OrgStore.DeletingOrganizationRevokesAccess | internal/migrations/v1.2.0.go:48 | After an organisation is deleted, a conversation shared with it is visible to its owner only, whatever membership the asking contact has left. |
| OrgStore.AddMember | internal/organization/organization.go:168-175 | The insert succeeds exactly when the organisation and contact exist and the pair is new. It stores the share flag, and a refusal is a GeneralError with the store unchanged. |
| OrgStore.RemoveMember | internal/organization/organization.go:178-185 | Exactly that membership is removed; nothing else changes. |
| OrgStore.UpdateMemberShare | internal/organization/organization.go:188-198 | An absent membership is NotFoundError; otherwise only that membership's flag changes. |
| OrgStore.ContactInSeveralOrganizations | internal/migrations/v1.2.0.go:34 | Only each (organisation, contact) pair is unique: one contact can be added to two organisations. |
| OrgStore.AddDomain | internal/organization/organization.go:220-231 | A blank normalised domain is an InputError. Success is exactly a fitting, not yet registered normalised domain for an existing organisation, appended in normal form; any failure leaves the store unchanged. |
| OrgStore.DomainInsertKeepsValid | internal/migrations/v1.3.0.go:15-18 | Inserting a fitting new domain row for an existing organisation keeps every integrity rule. |
| OrgStore.AppendKeepsNoDuplicates | internal/migrations/v1.3.0.go:17 | Appending a row not yet present keeps the rows unique. |
| OrgStore.RemoveDomain | internal/organization/organization.go:234-242 | Exactly the row holding the normalised domain of that organisation is removed. |
| OrgStore.RemoveDomainUndoesAddDomain | internal/organization/organization.go:234-236 | A domain added under one spelling is removed by any spelling with the same normal form, restoring the domains. |
| OrgStore.FilterAppendDropped | internal/migrations/v1.3.0.go:15 | A dropped row at the end does not change the filtered rows. |
| OrgStore.OrganizationIDsByEmailDomain | internal/organization/organization.go:246-263 | A blank normalised domain yields no ids; otherwise one id per row registered for the normalised domain, in row order. |
| OrgStore.MatchingOrgIDs | internal/organization/organization.go:252-262 | An id is listed exactly when its organisation has a row for the domain, and unique rows give unique ids. |
| OrgStore.SharedDomainNamesEveryOrganization | internal/migrations/v1.3.0.go:17 | A domain registered to two organisations names both, without repetition. |
| OrgStore.AddToEach | cmd/contacts.go:444-446 | Each listed organisation gains the contact with sharing off, and failed inserts are skipped. Existing rows and every other table are kept. |
| OrgStore.AddContactToOrganizationsByEmailDomain | internal/organization/organization.go:267-284 | Without a domain nothing changes. New memberships belong to this contact only and have sharing off; all other state is kept. |
| OrgStore.AutoMembershipJoinsMatchingOrganizations | internal/organization/organization.go:276-283 | An existing contact becomes a member of every organisation registered for its domain. Its only new memberships are those, all with sharing off, and existing memberships are kept. |
| Contacts.DefaultInboxIDForContact | cmd/contacts.go:68-85 | A positive number under the portal default inbox key wins. Otherwise the first inbox's id is used, or the inbox read's error, or 0 when there are no inboxes. |
| Contacts.NewContactProblem | cmd/contacts.go:94-107 | The first problem, in order: empty normalised address, invalid address, blank first name, address taken. Each is reported only when the earlier checks passed. |
| Contacts.ChooseOrganization | cmd/contacts.go:126-141 | A non-empty new organisation name wins over an id, and the id is used only when positive. |
| Contacts.NewContactRecord | cmd/contacts.go:112-121 | The stored contact has trimmed names, and null for each optional field that is blank after trimming. |
| Contacts.JoinChosenOrganization | cmd/contacts.go:126-141 | No choice changes nothing; an existing organisation gets an AddMember; a new one is created first. Contacts are untouched. |
| Contacts.CreateContact | cmd/contacts.go:88-149 | A validation problem is an InputError with no change, and a missing default inbox a GeneralError. Otherwise the contact is stored as soon as it has an id. From there, success holds exactly when the chosen organisation step and the re-read pass. The store is then the chosen membership followed by the automatic ones. A failed organisation step is the handler's error, with the contact kept. Success returns the record with the normalised, valid address. |
| Contacts.FinishCreate | cmd/contacts.go:125-148 | After the contact row exists, contacts are untouched. The result is Ok exactly when joining the chosen organisation and the re-read pass, and then it is the stored record. A failed join is returned with the join's store. After a join, the store has the automatic memberships added. |
| Contacts.KeepsChosenMembership | cmd/contacts.go:136-143 | Automatic membership afterwards never removes the chosen organisation's membership. |
| Contacts.ContactSurvivesFailedOrganizationStep | cmd/contacts.go:136-140 | When adding to a missing organisation fails, the handler reports a GeneralError yet the new contact stays stored. |
| Contacts.CreatedContactJoinsChosenOrganization | cmd/contacts.go:88-149 | A valid request naming an existing organisation succeeds. The new contact is then a member of that organisation with the requested share flag. |
| Contacts.ClearNullLiteral | cmd/contacts.go:255-264 | The literal text "null" becomes empty; any other text is kept. |
| Contacts.OptionalColumn | cmd/contacts.go:287-289 | An optional column is null exactly when the form sent "" or "null". |
| Contacts.UpdateProblem | cmd/contacts.go:267-281 | The first problem, in order: empty address, invalid address, blank first name, address held by a different contact. |
| Contacts.UpdateContact | cmd/contacts.go:205-298 | The order is id, then existence, then form decode, then validation. Past them, the update succeeds exactly when its write passes, and a failed write is its error with no change. Success reports the trimmed address and the non-empty first name that were written. |
| Contacts.UpdateJoinsDomainOrganizations | cmd/contacts.go:292-296 | After a successful update, the contact is a member of every organisation that registered its new address's domain. |
| Contacts.AutoMembershipIgnoresPadding | cmd/contacts.go:431 | Trimming the address before automatic membership changes nothing. |
| Contacts.TrimThenNormalize | cmd/contacts.go:431 | Normalising a trimmed address is normalising it. |
| Contacts.LowerCommutesWithTrim | cmd/contacts.go:94 | Lower-casing and trimming commute. |
| Contacts.LowerCommutesWithTrimLeft | cmd/contacts.go:94 | Lower-casing and dropping leading whitespace commute. |
| Contacts.LowerCommutesWithTrimRight | cmd/contacts.go:94 | Lower-casing and dropping trailing whitespace commute. |
| Contacts.OwnAddressIsNotTaken | cmd/contacts.go:277-281 | A contact keeping their own address is never refused as a duplicate. |
| Contacts.DeleteContactNote | cmd/contacts.go:391-427 | Bad ids are an InputError and a failed agent lookup propagates. A delete is issued exactly for an admin or for the note's own author, and success means that delete was issued and succeeded. |
| Contacts.AdminDeletesAnyNote | cmd/contacts.go:410-419 | An admin's deletion does not depend on the note's author or even on the note lookup. |
| Contacts.AddContactByEmailDomain | cmd/contacts.go:430-447 | The handler helper's loop leaves the same store as the organisation manager's operation, and keeps it valid. |
| Contacts.AddToEachInOrder | cmd/contacts.go:444-446 | One AddMember per listed organisation, in order, with failures swallowed, gives the reference result. |
| Media.Ext | cmd/media.go:68 | The extension is a suffix starting with the last '.' of the final path element, and empty exactly when that element has no '.'. |
| Media.UploadExtension | cmd/media.go:65-68 | The judged extension is the file extension without its dot, lower-cased: no capitals, dots or slashes. |
| Media.CheckUpload | cmd/media.go:71-90 | An empty file is an InputError, then an oversize file a GeneralError. A file passes exactly when neither applies and the list has "*" or its extension; any other refusal is an InputError. |
| Media.UploadDisposition | cmd/media.go:50-55 | An upload is inline exactly when its first "inline" value is "true". |
| Media.ExtensionCaseIgnored | cmd/media.go:65-90 | Two names whose extensions differ only in letter case get the same judged extension and the same upload verdict. |
| Media.NoExtensionNeedsWildcard | cmd/media.go:88-90 | A name without a dot passes only a list holding "*" or the empty extension. |
| Media.ServeDisposition | cmd/media.go:240-248 | Served inline exactly for image/ and video/ types and application/pdf. |
| Media.MediaKey | cmd/media.go:266-268 | A prefixed uuid is looked up without its thumbnail prefix; any other uuid as is. |
| Media.ThumbnailResolvesToOriginal | cmd/media.go:267 | A thumbnail and its original resolve to the same record. |
| Media.ServeMedia | cmd/media.go:154-224 | A signed URL is served without checks. A contact gets exactly the message attachments of conversations the guard admits, and a PermissionError for other models. An agent is served exactly when the agent and media load, the media decision does not fail, and the final decision allows it. The final decision is conversation access for messages and media access otherwise. A final "no" is an UnauthorizedError; a failing final decision passes its error on. |
| Media.ConversationDecisionOverridesMedia | cmd/media.go:203-217 | For a message attachment, whatever the media decision allows or denies, the conversation decision is final. |
| Media.OwnerFetchesOwnAttachments | cmd/media.go:170-189 | The owner always gets their conversation's message attachments. |
| Settings.Lookup | cmd/portal.go:45 | A missing key reads as JSON null. |
| Settings.PortalEnabled | cmd/portal.go:45 | The portal is on exactly when the key holds the boolean true; anything else is off. |
| Settings.PortalDefaultInboxID | cmd/portal.go:436 | The default inbox is the number stored under the key, and 0 for anything else. |
| Settings.EnabledFieldValue | frontend/src/features/admin/portal/portalFormSchema.js:6 | A missing switch is false, a boolean is itself, any other type is refused. |
| Settings.JsNumber | frontend/src/features/admin/portal/portalFormSchema.js:7 | JavaScript's Number() on JSON: numbers are themselves, strings are parsed, and null and the empty array read as 0. Objects and arrays of two or more elements are NaN. |
| Settings.SingletonArrayReadsAsElement | frontend/src/features/admin/portal/portalFormSchema.js:7 | A one-element array reads as its element does, except that a boolean inside an array is NaN. |
| Settings.ArraysCoerce | frontend/src/features/admin/portal/portalFormSchema.js:7 | [] reads as 0 and [n] as n, so a portal-off form with [] as its inbox is accepted. |
| Settings.InboxFieldValue | frontend/src/features/admin/portal/portalFormSchema.js:7 | A missing inbox id is 0. Otherwise the value is whatever JavaScript's Number() makes of it, and NaN is refused. |
| Settings.ValidatePortalForm | frontend/src/features/admin/portal/portalFormSchema.js:3-12 | The form is accepted exactly when both fields parse and the portal is off or the inbox is positive, and then it holds the parsed values. A refusal names only the two fields' paths, and only the inbox path whenever the switch parses. |
| Settings.EmptyFormAccepted | frontend/src/features/admin/portal/portalFormSchema.js:6-7 | An empty form is accepted as portal off, inbox 0. |
| Settings.EnabledNeedsPositiveInbox | frontend/src/features/admin/portal/portalFormSchema.js:9-11 | Enabling the portal is accepted exactly with a positive inbox, and otherwise refused on the inbox path. |
| Settings.AcceptedFormSatisfiesPortal | frontend/src/features/admin/portal/portalFormSchema.js:9 | Settings saved from an accepted form never have the portal on without a positive default inbox. |
| Migrations.InsertIfAbsent | internal/migrations/v1.1.0.go:16 | The key is added when absent and existing values are never overwritten. |
| Migrations.MigrateV110 | internal/migrations/v1.1.0.go:12-16 | Adds the portal switch (false), default inbox (0) and organisations switch (false) where absent, keeping every existing value. |
| Migrations.MigrateV110Idempotent | internal/migrations/v1.1.0.go:16 | Running the migration again changes nothing. |
| Migrations.FreshInstallPortalOff | internal/migrations/v1.1.0.go:13-15 | On a fresh install, the portal and organisations are off and the default inbox is 0. |
| Migrations.ExistingSettingsSurvive | internal/migrations/v1.1.0.go:16 | An installation with the portal on keeps it on and keeps its inbox. |
| Migrations.GrantOrganizationsManage | internal/migrations/v1.2.0.go:59-63 | Only Admin roles lacking organizations:manage gain it, appended at the end; every other role is unchanged. |
| Migrations.GrantIdempotent | internal/migrations/v1.2.0.go:62 | Rerunning the grant changes nothing. |
| Portal.PortalAuth | cmd/portal.go:30-84 | The checks run in order: settings, portal switch (PermissionError), session and id, contact type, contact lookup, contact enabled. Admission is exactly all of them holding. |
| Portal.FreshInstallLocksPortal | cmd/portal.go:45-48 | Right after the settings migration, every portal request is a PermissionError. |
| Portal.AgentSessionRefused | cmd/portal.go:57-60 | An agent's session never passes the gate. |
| Portal.PortalPaging | cmd/portal.go:365-372 | A non-positive page size becomes 20 and a page below 1 becomes 1; valid values are kept. |
| Portal.PortalPagingIdempotent | cmd/portal.go:365-372 | Defaults applied twice equal defaults applied once. |
| Portal.PortalList | cmd/portal.go:355-386 | A failed membership lookup is a GeneralError. Otherwise the query is for the contact, with its organisation id (0 without one) and the defaulted paging. |
| Portal.PortalAccess | cmd/portal.go:394-407 | The conversation is fetched first and its error propagates. Then the organisation, whose failure is the handler's error. A contact the guard refuses gets a NotFoundError. |
| Portal.DenialLooksLikeMissing | cmd/portal.go:405-407 | A conversation the contact may not see is reported exactly as a missing one. |
| Portal.PortalDetail | cmd/portal.go:389-421 | The detail succeeds exactly when access holds and the messages load, returning the conversation. |
| Portal.PortalSend | cmd/portal.go:512-546 | After access, an empty message is an InputError; otherwise one HTML contact message is posted, and the reply is its outcome. |
| Portal.PortalClose | cmd/portal.go:549-583 | After access, an empty comment is an InputError. Otherwise the comment is posted as plain text and then, only if that worked, the status is set to Closed with the contact as actor. |
| Portal.CloseEndsClosed | cmd/portal.go:576-583 | A successful close leaves the conversation Closed. |
| Portal.StatusAfterPair | cmd/portal.go:580 | After a message and then a status write, the status is the written one. |
| Portal.FailedCommentKeepsStatus | cmd/portal.go:576-578 | A failed comment makes no status write and leaves the status alone. |
| Portal.PortalCreate | cmd/portal.go:424-496 | Checks run in order: settings, a non-zero default inbox, non-empty content, then the channel. Each failure is its own error with no effect, and empty content is an InputError. A request that passes all four creates the conversation in that inbox with the shared organisation, then posts an HTML message. A failed post deletes the conversation again. |
| Portal.MembershipErrorOpensUnshared | cmd/portal.go:462 | A failing membership lookup behaves as no membership: the conversation is opened unshared. |
| Portal.OnlyZeroInboxRefused | cmd/portal.go:437-440 | Only a zero default inbox is refused; a negative one passes. |
| Creation.ValidateCreateRequest | cmd/conversation.go:919-949 | Each field check, in order, is an InputError; then the inbox lookup's error propagates and a disabled inbox is an InputError. Validation passes exactly when all hold. |
| Creation.FieldsCheckedBeforeInbox | cmd/conversation.go:919-940 | A malformed request is an InputError whatever the inbox lookup says. |
| Creation.FirstMessage | cmd/conversation.go:876-895 | An agent's first message is queued as a reply; a contact's is stored as HTML. |
| Creation.OpenConversation | cmd/conversation.go:836-916 | The conversation is created with the organisation the sharing rule picks. Only a failed first message deletes it again; a failed attachment fetch keeps it. Success adds the team-first assignee writes. |
| Creation.CreateConversationAsAgent | cmd/conversation.go:798-916 | Validation, the agent and the contact come first and change nothing when they fail. Afterwards the contact has joined its domain's organisations, every failure is a GeneralError, and success is exactly every step succeeding. |
| Creation.MediaFailureKeepsConversation | cmd/conversation.go:865-874 | A failed attachment fetch reports an error but leaves the new conversation in place. |
| Creation.AutoJoinedContactStartsUnshared | cmd/conversation.go:836-847 | A contact added only by its domain, with no override, opens an unshared conversation. |
| Creation.CreatedConversationHasRequestedAssignees | cmd/conversation.go:900-907 | A created conversation ends up with both requested assignees. |

## Left out

- Unicode: case folding and whitespace follow ASCII only. Go's `strings.ToLower` and `strings.TrimSpace` also fold and trim non-ASCII characters.
- SQL: queries are not modelled. The organisation store is a value, and other store reads and writes come in as answers or go out as effects.
- Which membership `GetMembershipForContact` returns for a contact with several is unknown. `OrgStore.MembershipAnswer` admits any of them.
- The authorisation service's rules (`EnforceConversationAccess`, `EnforceMediaAccess`) are uninterpreted parameters.
- `time.ParseDuration`, `stringutil.ValidEmail`, `stringutil.SanitizeFilename` and the thumbnail prefix are parameters or inputs. They are not modelled.
- The status lookup by id and the status list are modelled as one catalogue value; a failed read of it is an InputError for an id and propagates for a name, as in the handler.
- Media size limits: the megabyte conversion and float comparison enter as the `tooLarge` boolean.
- Media storage: file reading, the upload record's insert and roll-back, thumbnails and image dimensions, file serving and S3 redirects. This is storage I/O.
- JSON: numbers are integers; floating-point settings values and decode errors on request bodies are not modelled.
- Portal login, logout, "me", set-password and forgot-password, and `sendPortalEmail`: session and e-mail plumbing.
- Message delivery: SMTP, CSAT delivery, webhooks and broadcasts are recorded as effects at most.
- Refetches: the refetch of a created conversation and the final contact refetch are outcomes only.
- The message listing of the portal detail is reduced to its success or failure.
- The contact update's password and avatar upload steps are not modelled.
- `EnsureContactChannel` in the portal create path is modelled only by whether it succeeds.
- cmd/organizations.go: the admin handlers pass straight through to the organisation manager operations modelled in `OrgStore`.
- Frontend: the app-settings store and the organisations table columns are UI state.
- The internals of the conversation store's writes (`UpdateConversationStatus`, `UpdateConversationTeamAssignee`, `CreateConversation`) are modelled only by their observable effect. The one exception is the stated rule that a team assignment clears the agent.
- Lifecycle.UpdateStatus: it uses the corrected target resolution, so it does not write a negative status id. The handler as written is `Lifecycle.UpdateStatusAsWritten`, which does; the first finding below covers the difference.
- Text.EmailDomain: its contract does not restate that the domain is lower-case and trimmed. That follows from `Text.Normalize`, whose contract states it.

## Findings

| source | as written | input that shows it | evidently intended | confidence | as-written member | corrected member |
|---|---|---|---|---|---|---|
| cmd/conversation.go:534-547 | Name resolution runs for any id that is not positive, and unknown names are detected by the id still being 0, so a negative id with an unknown name passes resolution. | status_id -1 with status "Nope" resolves to -1 instead of an InputError | Any id that is not positive falls to name resolution, and an unmatched name is an InputError | high; not executed | Lifecycle.ResolveTargetAsWritten | Lifecycle.ResolveTarget |
| cmd/conversation.go:789-796 | The filter returns an empty list when the current uuid is not among the previous conversations. | previous conversations [b] with current uuid a yields [] | Leave out only the current conversation and keep the others, so [b] stays [b] | low (the empty result may be deliberate); not executed | Lists.FilterCurrentPreviousConv | Lists.PreviousConversationsWithoutCurrent |
