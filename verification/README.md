# Dafny model of the SpaceWorks backend's protocols

A verification project for the parts of the SpaceWorks Django backend, and one host script, whose
promises are about whole runs rather than single calls. Database tables are maps of rows; a
transaction that holds its row locks is one atomic step. Services that change rows are methods of
classes, proved equal to functions on the stored rows; what the services guarantee together is proved
about those functions, over every finite run of arbitrary steps.

| modules | what they model |
|---|---|
| `PasswordReset`, `PasswordResetRuns`, `PasswordResetTiming`, `PasswordResetAccounts` | the password-recovery envelope: queue entry, lease, fencing token and one-time code in one row; when its mails leave; what it does to accounts |
| `ActionClosure`, `Rbac`, `Authority`, `UserPayload` | three computations of one authority, pointwise, as queries, and batched for the console, and what they answer on the raw tables |
| `DeviceFamilies`, `DeviceFamilyRuns`, `DeviceOutcomes` | native-device grants and refresh families with reuse detection (section 4.14.2 of RFC 9700) |
| `ClaimSessions`, `ClaimRuns`, `ClaimOutcomes` | physically handed claim codes, their bounded sessions, and the walk-in transition |
| `TransitionGate`, `GateSystem`, `GateOutcomes` | ordered admission to tenant locks, and deadlock freedom among any number of callers |
| `RecipientRules`, `RecipientSaves` | delegated editing of notification recipients as a projection and a merge |
| `Dotenv`, `DotenvOutcomes` | the byte-level rewriter of one dotenv assignment |
| `ObjectPublication`, `ObjectPublicationRuns`, `PublicationOutcomes` | create-once publication by conditional PUT (section 13.1.2 of RFC 9110) under racing publishers |
| `VersionDeletion` | version-exact deletion from a paginated listing |
| `DocumentQuota`, `DocumentQuotaRuns`, `QuotaOutcomes` | storage debits proven from an append-only log and refunded once |
| `BulkImport`, `BulkOutcomes` | preview and application of a product list |
| `Common` | options, results, least primary keys, ASCII text |

## How to read it

Each stateful component has a `Store`-like datatype, one function a service, and a class whose methods
are those services step by step. The `...Runs` modules add a `Step` datatype, an `Enabled`/`Next`
transition system and a ledger of what happened; services never read the ledger. Times handed to a
step may be stale, workers may crash between any two of their transactions, and account edits are
arbitrary. The `...Outcomes` modules and `Authority`, `RecipientSaves` and `PasswordResetAccounts` say
on the raw rows, without the services' own predicates, when each service succeeds and what it leaves.
Digests and token signatures are ideal: equal digests mean equal inputs, and a token
verifies only if it was minted. `first()` on an unordered query returns the least primary key.

## Where the code does not meet a promise

Each of these is kept as the code has it, with an input on which it fails and the exact condition.

* Recovery mails are not spaced by the resend cooldown, accepted requests are. If every mail leaves
  within D of its request, mails are a cooldown less D apart; that bound is reached for every D, so
  they are always a cooldown apart iff D = 0, and an ordinary slow delivery is enough
  (`PasswordResetTiming.SpacedUpToLateness`, `LatenessIsTheGap`, `ApartExactlyWhenPrompt`, `LateThenPrompt`).
* The query form of authority believes an action name that the pointwise form ignores
  (`Rbac.UndeclaredDisagrees`, `AgreementNeedsDeclaration`).
* The batched payload of a native-device session omits organization grants
  (`UserPayload.DeviceOmitsOrganizations`, `MembershipEntryAgrees`).
* The transition gate compares with the keys the caller records, not with the locks its transaction
  still holds (`GateSystem.LeftoverLocksCanDeadlock`, `BreachCanDeadlock`, `OrderlyExactly`).
* The merge's unreachable deletion is reachable through a foreign machine of an in-reach global type
  (`RecipientRules.FailSafeFiresExactly`, `ForeignMachineEmptiesTheRow`).
* A lone CR after the dotenv assignment glues the next line to it
  (`Dotenv.GluingBreaksTheLaws`, `OtherLinesKept`, `PutGet`, `PutPut`).
* Refunds stay within debits only while nobody but the charge itself and tenant imports, which drop
  an event's identity, writes events of a local debit's form
  (`DocumentQuotaRuns.SpentWithoutDebit`, `BoundedExactlyWhenNothingSpendable`).
* A false name that is not blank makes an import row an error that is not reported
  (`BulkImport.FalseNameGoesUnreported`, `SummaryAddsUp`).
* An import reserves one product for names of equal value that are stored as different texts, such as
  1 and true (`BulkImport.OneKeyTwoProducts`, `ReservationSuffices`).

## Model

| member | source | states |
|---|---|---|
| `PasswordReset.EnvelopeTable.RequestPasswordReset` | `backend/apps/accounts/services_password_reset.py:50-131` | Upsert by normalized address: opens a row, re-enters a settled one once the cooldown is over, and otherwise leaves the whole table as it was; the new row, generation included, is stated outright. |
| `PasswordReset.EnvelopeTable.ClaimPendingEnvelopes` | `backend/apps/accounts/services_password_reset_drain.py:87-121` | Exactly the picked rows are leased, each under a generation one above its old one, and the returned claims carry those generations in order. |
| `PasswordReset.EnvelopeTable.PrepareDelivery` | `backend/apps/accounts/services_password_reset_drain.py:124-178` | Only a claim whose generation still matches a claimed row commits a code; the account is looked up and fingerprinted here, ineligible or mail-less deliveries end terminally, a superseded claim changes nothing. |
| `PasswordReset.EnvelopeTable.FinishClaimedTerminal` | `backend/apps/accounts/services_password_reset_drain.py:211-228` | A claimed row ends with an unmailed secret, no lease, no credential and no user. |
| `PasswordReset.EnvelopeTable.FinalizeDelivery` | `backend/apps/accounts/services_password_reset_drain.py:181-208` | The provider's answer is recorded iff the generation still matches a delivering row; otherwise no row changes. |
| `PasswordReset.EnvelopeTable.ExpireDeliveryLeases` | `backend/apps/accounts/services_password_reset_maintenance.py:14-48` | Every picked delivering row whose lease ran out becomes delivery-unknown with a new secret and a new generation; no other row changes. |
| `PasswordReset.EnvelopeTable.DiscardExpiredIssued` | `backend/apps/accounts/services_password_reset_maintenance.py:51-78` | Every picked issued row that expired or used its attempts is discarded; no other row changes. |
| `PasswordReset.EnvelopeTable.ConfirmPasswordReset` | `backend/apps/accounts/services_password_reset.py:134-221` | One attempt is always counted; a code without a matching account state discards the row, a refused candidate keeps it, and only a full match spends the row and replaces the password hash. |
| `PasswordReset.EnvelopeTable.DiscardLocked` | `backend/apps/accounts/services_password_reset.py:252-271` | The locked row is disarmed in place: discarded, with an unmailed secret and neither credential nor expiry, and marked superseded iff the caller asks for it. |
| `PasswordReset.EnvelopeTable.Drain` | `backend/apps/accounts/services_password_reset_drain.py:49-84` | Whatever the claims meet, and whatever happens between their steps, claimed = issued + terminal + stale. |
| `PasswordResetRuns.StepKeeps` | `backend/apps/accounts/services_password_reset_drain.py:87-208` | Every transaction of requests, workers, sweeps, purges, confirmations and account edits keeps the row invariant. |
| `PasswordResetRuns.Reached` | `backend/apps/accounts/services_password_reset.py:50-242` | The invariant holds after every run from an empty table. |
| `PasswordResetRuns.MailsNeverExceedAcceptedRequests` | `backend/apps/accounts/services_password_reset_drain.py:87-178` | Over every interleaving, mails per row never exceed accepted requests; accepted requests are a cooldown apart; the n-th mail leaves at least n-1 cooldowns after the first request. |
| `PasswordResetTiming.SpacedUpToLateness` | `backend/apps/accounts/services_password_reset.py:62-131` | Over every interleaving each mail answers its own accepted request and never precedes it; if every mail leaves within D of that request, the mails answering requests i < j leave at least RESEND_COOLDOWN*(j-i) - D apart. |
| `PasswordResetTiming.LatenessIsTheGap` | `backend/apps/accounts/services_password_reset_drain.py:49-84` | The bound is reached: for every D a run within it has two successive mails exactly max(0, RESEND_COOLDOWN - D) apart. |
| `PasswordResetTiming.ApartExactlyWhenPrompt` | `backend/apps/accounts/services_password_reset_drain.py:49-84` | Mails are a cooldown apart on every run with lateness at most D iff D = 0. |
| `PasswordResetTiming.LateThenPrompt` | `backend/apps/accounts/services_password_reset_drain.py:49-84` | The witness has no crash, no expired lease and no second worker: the first request's mail leaves late, the next one's at once. |
| `PasswordResetTiming.MailsMayCoincide` | `backend/apps/accounts/services_password_reset_maintenance.py:14-48` | After a swept lease two workers' mails for one row may leave at the same instant. |
| `PasswordResetRuns.LiveExactlyWhileIssued` | `backend/apps/accounts/services_password_reset_drain.py:157-175` | In every reachable state the secret is marked live iff the row is being delivered or is issued. |
| `PasswordResetRuns.OnePasswordChangePerMail` | `backend/apps/accounts/services_password_reset.py:134-221` | Each committed code changes at most one password, and only if it was mailed; password changes never outnumber mails. |
| `PasswordResetRuns.ConfirmationRedeemsExactly` | `backend/apps/accounts/services_password_reset.py:134-242` | In every reachable state a confirmation succeeds iff the code is the one mailed for the row's current generation, fewer than five confirmations came since it was committed, it is in time, and the bound account's address and credential are those of the moment of preparation. |
| `PasswordResetRuns.ClaimsAreUnique` | `backend/apps/accounts/services_password_reset_drain.py:104-120` | No (row, generation) pair is ever handed to two claims. |
| `PasswordResetRuns.SupersededForever` | `backend/apps/accounts/services_password_reset_drain.py:129-208` | A superseded claim stays superseded along every continuation, and no code of its generation or an earlier one changes a password again. |
| `PasswordResetRuns.LateWorkerNeverWins` | `backend/apps/accounts/services_password_reset_maintenance.py:27-48` | After a lease sweep, whatever follows, the late worker's prepare and finalize leave all rows alone and its code is never redeemed. |
| `PasswordResetRuns.BatchIsARun` | `backend/apps/accounts/services_password_reset_maintenance.py:14-78` | A batch written under one lock equals its rows' own steps taken one after another. |
| `PasswordResetAccounts.ConfirmationChangesAccounts` | `backend/apps/accounts/services_password_reset.py:134-221` | Over every run a redeeming confirmation stores the submitted hash for the account its code was committed for and lifts the obligation to change it, and touches no other field or account; any other confirmation touches no account. |
| `PasswordResetAccounts.HashIsLastSubmitted` | `backend/apps/accounts/services_password_reset.py:134-221` | On every run without account edits an account's hash is the one submitted by the last confirmation that redeemed one of its codes, and the initial one if there was none. |
| `PasswordResetAccounts.RedemptionKillsOldCodes` | `backend/apps/accounts/services_password_reset.py:224-242` | A redemption that changes the hash leaves no redeemable code committed against the old one. |
| `PasswordResetAccounts.RequestAcceptedExactly` | `backend/apps/accounts/services_password_reset.py:50-131` | Over every run a request is accepted iff the address has no row, or its row is settled and the last accepted request is a cooldown old; otherwise nothing changes. |
| `PasswordResetAccounts.CodeCommittedExactly` | `backend/apps/accounts/services_password_reset_drain.py:124-178` | Over every run a code is committed iff the claim is current, mail is on and the address leads to an account that may recover; it is for that account and its present credential. |
| `PasswordResetAccounts.OneRowPerAddress` | `backend/apps/accounts/services_password_reset.py:78-103` | Over every run an address, up to case, has at most one row. |
| `PasswordResetAccounts.LeaseIsExclusive` | `backend/apps/accounts/services_password_reset_drain.py:104-175` | For the whole lease after a claim, and again after a committed code, nobody else claims, sweeps or resends the row, whatever runs meanwhile. |
| `PasswordResetAccounts.LeaseEndsExactly` | `backend/apps/accounts/services_password_reset_drain.py:87-121` | From the instant the lease runs out, and not before, a claimed row may be claimed anew and a delivering one is swept. |
| `PasswordResetAccounts.RedeemableStays` | `backend/apps/accounts/services_password_reset_maintenance.py:51-78` | A code redeemable at some instant stays so until then whatever sweeps, workers, requests and confirmations of other addresses do. |
| `PasswordResetAccounts.RowsAreShaped` | `backend/apps/accounts/services_password_reset_drain.py:129-228` | Over every run a row has a terminal instant iff settled for good, a lease iff a worker holds it, a consumption instant iff consumed, a credential and expiry iff a code of it was committed and not withdrawn. |
| `PasswordResetAccounts.NormalFormExactly` | `backend/apps/accounts/password_reset_crypto.py:15-19` | An address is its own normal form iff lower-case, stripped and of 1 to 254 characters; normalizing twice is normalizing once. |
| `PasswordResetAccounts.RecoveryWorks` | `backend/apps/accounts/services_password_reset.py:134-221` | Whoever may recover does: request, claim, mail and any confirmation within ten minutes end with the submitted hash, for every account. |
| `ActionClosure.ExpandImpliedActions` | `backend/apps/accounts/rbac_actions.py:49-59` | The worklist terminates on every finite implication map, cycles included, and returns the expansion. |
| `ActionClosure.ActionsSatisfying` | `backend/apps/accounts/rbac_actions.py:62-76` | The reversed worklist terminates and returns the set that satisfies the action. |
| `ActionClosure.ExpandIsLeast` | `backend/apps/accounts/rbac_actions.py:49-59` | The expansion is the least superset closed under implication. |
| `ActionClosure.SatisfyingIsLeast` | `backend/apps/accounts/rbac_actions.py:62-76` | The satisfying set is the least set containing the action and closed under being implied from. |
| `ActionClosure.Adjoint` | `backend/apps/accounts/rbac_actions.py:49-76` | An action is in the expansion of a grant iff the grant meets the action's satisfying set. |
| `Rbac.RoleRefines` | `backend/apps/accounts/rbac_actions.py:146-165` | For a role row of any shape, expansion of its usable grants contains the action iff the containment query over the raw grants matches. |
| `Rbac.MembershipRefines` | `backend/apps/accounts/rbac_actions.py:146-200` | A membership's actions contain the action iff the compiled filters match the row, across role, legacy and cross-tenant cases. |
| `Rbac.OrganizationRefines` | `backend/apps/accounts/rbac_actions.py:168-187` | An organization membership confers the action iff its raw grant list meets the organization-limited satisfying set. |
| `Rbac.OrgScopeRefines` | `backend/apps/accounts/rbac_organizations.py:48-106` | For each existing makerspace, the per-space organization actions contain the action iff the scope query returns the makerspace. |
| `Rbac.OrganizationsNeverForbidden` | `backend/apps/accounts/rbac_organizations.py:48-68` | Organizations never confer an action that no role may grant. |
| `Rbac.SetFormRefinesPointwise` | `backend/apps/accounts/rbac.py:76-225` | For every actor, declared action and existing makerspace of any population, the compiled set contains the makerspace iff the pointwise decision allows it. |
| `Rbac.UndeclaredDisagrees` | `backend/apps/accounts/rbac.py:76-106` | For every undeclared action string there is a population on which the two forms disagree. |
| `Rbac.AgreementNeedsDeclaration` | `backend/apps/accounts/rbac.py:200-225` | The two forms agree on all populations iff the action is declared. |
| `Authority.AuthorityExactly` | `backend/apps/accounts/rbac.py:200-225` | On the raw tables: the pointwise decision, and for declared actions the compiled scope, allow an action iff the actor may act, the makerspace is servable, and an active local role or, for others than superadmins, an organization grant suffices; superadmins need only that the makerspace is not hidden. |
| `Authority.OrganizationExactly` | `backend/apps/accounts/rbac_organizations.py:17-68` | Organizations confer an action iff an active grant of the user, by an active organization linked to a servable makerspace that is not hidden, lists an action that suffices. |
| `Authority.HiddenNeedsMembership` | `backend/apps/accounts/rbac_organizations.py:48-58` | In a hidden makerspace an action is allowed iff an active local membership of the actor confers it, whoever the actor is. |
| `Authority.ForbiddenExactly` | `backend/apps/accounts/rbac_actions.py:146-187` | What no role may grant is allowed only to superadmins, in servable makerspaces that are not hidden. |
| `Authority.DeploymentExactly` | `backend/apps/accounts/rbac.py:200-219` | Without a makerspace an action is allowed iff the actor is a superadmin in good standing. |
| `Authority.HardBlockExactly` | `backend/apps/accounts/rbac_superadmin.py:89-100` | The hard block stops exactly a superadmin in a hidden makerspace without an active membership there, and with one whose role does not confer the action asked for. |
| `Authority.VisibleExactly` | `backend/apps/accounts/rbac.py:50-63` | The action-agnostic scope is the servable makerspaces of the actor's active memberships, and for superadmins all that are not hidden besides. |
| `Rbac.EffectiveActionsAgree` | `backend/apps/accounts/rbac.py:153-167` | The materialized action set agrees with the decision, except for what a superadmin may do though no role can grant it. |
| `Rbac.HardBlockAgrees` | `backend/apps/accounts/rbac_superadmin.py:89-100` | In a servable space the superadmin hard block applies iff the decision denies. |
| `Rbac.AuthorityIsVisible` | `backend/apps/accounts/rbac.py:50-63` | An allowed action is inside the actor's visible scope or comes through an organization. |
| `Rbac.ActionScopeFilters` | `backend/apps/accounts/rbac_actions.py:190-201` | The filters collected for an action are the role containments of its satisfying set and the legacy roles that carry it. |
| `Rbac.CollectOrgActions` | `backend/apps/accounts/rbac_organizations.py:48-68` | The accumulated union over organization rows is the actor's organization actions in the makerspace. |
| `Rbac.CollectOrgScope` | `backend/apps/accounts/rbac_organizations.py:71-106` | The accumulated scope is the set of makerspaces whose organization rows grant the action. |
| `Rbac.MakerspacesForActions` | `backend/apps/accounts/rbac.py:109-122` | For any action strings, the accumulated scope contains a makerspace iff some action's own scope does; unlimited scope absorbs. |
| `Rbac.UnionRefinesPointwise` | `backend/apps/accounts/rbac.py:109-122` | For declared actions that is iff the pointwise decision allows some of them. |
| `UserPayload.OrganizationMakerspaceEntries` | `backend/apps/accounts/org_payload.py:68-138` | The organization map has exactly the allowed makerspaces with a non-empty organization grant, each with its full union. |
| `UserPayload.MembershipEntryAgrees` | `backend/apps/accounts/serializers.py:59-66` | A membership entry's actions are the per-space decision's; on native devices, which omit organizations, iff these add nothing. |
| `UserPayload.DeviceOmitsOrganizations` | `backend/apps/accounts/serializers.py:59-66` | A schema-valid population with a native-device entry that lacks an action the decision grants. |
| `UserPayload.OrganizationEntryAgrees` | `backend/apps/accounts/org_payload.py:68-138` | A makerspace shown only through organizations carries exactly the decision's actions. |
| `UserPayload.InViewIsReached` | `backend/apps/accounts/serializers.py:21-58` | An ordinary user's usable makerspace in view is reached by a visible membership or through organizations. |
| `UserPayload.BuildUserPayload` | `backend/apps/accounts/serializers.py:21-158` | Exactly the makerspaces with a shown membership row, or otherwise an organization grant in view, appear, each once, conditions spelled out on the raw rows; every entry agrees with the decision, and an ordinary user misses no makerspace in view with any effective action. |
| `DeviceFamilies.DeviceAuthority.IssueDeviceTokenPair` | `backend/apps/accounts/services_device_tokens.py:34-49` | A permitted issue records exactly one new refresh row for the family; a refused one records nothing. |
| `DeviceFamilies.DeviceAuthority.Enrol` | `backend/apps/accounts/views_device.py:159-186` | Grant, family and first token appear together under an approved registration, or not at all. |
| `DeviceFamilies.DeviceAuthority.RotateDeviceRefresh` | `backend/apps/accounts/services_device_tokens.py:52-115` | The verdict and the whole new state for every presented token: unknown tokens change nothing, spent ones end family and grant, lapsed ones end the family, a live one is exchanged, a refused issue undoes the exchange. |
| `DeviceFamilies.DeviceAuthority.BlacklistDeviceFamily` | `backend/apps/accounts/services_tokens.py:23-48` | The family is revoked, all its tokens stamped and blacklisted, and the grant ended when asked; nothing else changes. |
| `DeviceFamilies.DeviceAuthority.RevokeDeviceGrant` | `backend/apps/accounts/services_tokens.py:51-61` | The grant ends and exactly its unrevoked families are barred. |
| `DeviceFamilies.DeviceAuthority.BlacklistOutstandingTokens` | `backend/apps/accounts/services_tokens.py:1-20` | Every token of the account is blacklisted and every active grant revoked with its open families. |
| `DeviceFamilies.DeviceAuthority.RevokeRegistration` | `backend/apps/accounts/services_native_apps.py:14-49` | The registration is withdrawn and the active grants and families it issued are settled; tokens are left as they are. |
| `DeviceFamilies.DeviceAuthority.Authenticate` | `backend/apps/accounts/authentication.py:89-111` | A device access token is honoured iff grant, registration, account and an unrevoked family of that grant all stand. |
| `DeviceFamilies.RevokeOneMore` | `backend/apps/accounts/services_tokens.py:17-20` | Grants may be revoked one after another or all at once with the same result. |
| `DeviceFamilyRuns.StepKeeps` | `backend/apps/accounts/services_device_tokens.py:34-115` | Every enrolment, refresh, revocation, approval, purge and account edit keeps the token-family invariant. |
| `DeviceFamilyRuns.ExactlyOneLiveToken` | `backend/apps/accounts/services_device_tokens.py:52-115` | In every reachable state an unrevoked family has exactly one unspent token: the last one issued to it. |
| `DeviceFamilyRuns.ExchangedAtMostOnce` | `backend/apps/accounts/services_device_tokens.py:98-106` | No refresh token is ever exchanged twice. |
| `DeviceFamilyRuns.ExchangedExactly` | `backend/apps/accounts/services_device_tokens.py:66-106` | In every reachable state an exchange succeeds iff the token is its open family's latest, unexpired and of this generation, and account, grant, registration, blacklist and issuance all allow it. |
| `DeviceOutcomes.RotationExactly` | `backend/apps/accounts/services_device_tokens.py:52-115` | For every presented token, by what was issued: unknown ones change nothing; superseded ones end family as reused and grant; a blocked account's end both, a suspended grant's or registration's the family alone; void or refused ones change nothing; the latest one is replaced by one successor. |
| `DeviceOutcomes.EndedFamilyStaysEnded` | `backend/apps/accounts/services_device_tokens.py:74-97` | A family a refresh ended, for whatever reason, is never refreshed or honoured again on any later run. |
| `DeviceOutcomes.EnrolledExactly` | `backend/apps/accounts/views_device.py:159-186` | A device is enrolled iff registration, account and issuance allow it; it then is honoured and its token exchangeable, and nobody else's grants or families change. |
| `DeviceOutcomes.AccountIsCutOffExactly` | `backend/apps/accounts/services_tokens.py:1-61` | Blacklisting an account's tokens ends exactly its active grants and exactly their open families with their tokens, and bars beyond those exactly what was known of the account; instants already set stay. |
| `DeviceOutcomes.AccountIsCutOff` | `backend/apps/accounts/services_tokens.py:1-20` | So it has no active grant left, and a device is honoured afterwards iff it was before and is another account's. |
| `DeviceOutcomes.RegistrationIsCutOffExactly` | `backend/apps/accounts/services_native_apps.py:14-49` | Revoking a registration ends exactly the active grants issued under it and their families, and leaves all tokens as they are. |
| `DeviceOutcomes.RegistrationIsCutOff` | `backend/apps/accounts/services_native_apps.py:14-49` | So a device is honoured afterwards iff it was before and its grant was issued under another registration. |
| `DeviceFamilyRuns.SpentTokenEndsAuthority` | `backend/apps/accounts/services_device_tokens.py:74-84` | Presenting any issued but superseded token ends its family and grant along every later run: nothing of them is exchanged or honoured again. |
| `DeviceFamilyRuns.RevokedRegistrationSettles` | `backend/apps/accounts/services_native_apps.py:14-49` | Grants issued under a registration when it is revoked are never honoured and never refresh again, whatever approval follows. |
| `DeviceFamilyRuns.StatusAloneSuspends` | `backend/apps/accounts/services_native_apps.py:18-23` | Withdrawing only the status does not settle: the same device is honoured again after re-approval. |
| `DeviceFamilyRuns.RevokingIsARun` | `backend/apps/accounts/services_tokens.py:51-61` | Revoking grants is the run of its separate commits, so a crash in between is covered. |
| `ClaimSessions.ClaimDesk.IssueClaimCode` | `backend/apps/accounts/services_claim.py:93-133` | Every standing claim of the membership is revoked and one new code recorded, under authority and eligibility; otherwise nothing changes. |
| `ClaimSessions.ClaimDesk.RevokeClaimCode` | `backend/apps/accounts/services_claim.py:155-183` | A standing claim of that makerspace is revoked; a second revocation keeps the first instant. |
| `ClaimSessions.ClaimDesk.ConsumeClaimCode` | `backend/apps/accounts/services_claim.py:186-253` | Wrong secrets are counted and the fifth uses the code up; the right one consumes first and only then decides, opening a session with its deadline or nothing. |
| `ClaimSessions.ClaimDesk.TokensForClaim` | `backend/apps/accounts/claim_tokens.py:53-66` | A refresh and an access token bound to the row and its deadline, unless the deadline is past or issuance is refused. |
| `ClaimSessions.ClaimDesk.RotateClaimRefresh` | `backend/apps/accounts/claim_tokens.py:32-39` | One refresh identifier is consumed and its sole replacement minted, or neither. |
| `ClaimSessions.ClaimDesk.TransitionWalkInToAccount` | `backend/apps/accounts/transition_services.py:49-86` | Scope check, marker, hooks and revocation of every bearer happen together, or nothing changes. |
| `ClaimSessions.ClaimDesk.RunHooks` | `backend/apps/accounts/transition_services.py:77-79` | Running the registered hooks revokes exactly the person's standing claims iff the claim hook is among them. |
| `ClaimSessions.HookRegistry.RegisterHook` | `backend/apps/accounts/transition_services.py:26-41` | Unnamed hooks and a second hook of the same name are refused and change nothing. |
| `ClaimSessions.RegisteredExactly` | `backend/apps/accounts/transition_services.py:26-46` | A hook is registered iff named and its name is free or its own; it then is there, and no other name changes. |
| `ClaimSessions.ClaimHookStays` | `backend/apps/accounts/transition_services.py:26-46` | Once registered the claim hook survives every sequence of registry calls that does not remove it by name. |
| `ClaimRuns.StepKeeps` | `backend/apps/accounts/services_claim.py:93-283` | Every issue, guess, redemption, refresh, revocation, transition, device step and edit keeps the claim invariant. |
| `ClaimRuns.OneStandingClaimPerMembership` | `backend/apps/accounts/services_claim.py:103-112` | In every reachable state a membership has at most one unrevoked claim. |
| `ClaimRuns.CodeYieldsOneSession` | `backend/apps/accounts/services_claim.py:186-253` | Over every run a code yields a session at most once. |
| `ClaimRuns.RedeemedExactly` | `backend/apps/accounts/services_claim.py:186-253` | In every reachable state redemption succeeds iff the printed secret is typed for the first time, after fewer than five wrong ones, while the code stands, is in time and in the right makerspace, and the holder is an eligible walk-in. |
| `ClaimOutcomes.IssuedExactly` | `backend/apps/accounts/services_claim.py:93-133` | A code is minted iff the caller is authorised and the membership is an active one of that makerspace held by a visitor, field by field; it is then the membership's only standing one and carries its lifetime. |
| `ClaimOutcomes.CodeLifetime` | `backend/apps/accounts/services_claim.py:113-133` | Along every later run a code keeps membership and expiry and is redeemed only within its lifetime counted from its issue. |
| `ClaimOutcomes.TermsKept` | `backend/apps/accounts/services_claim.py:155-183` | Along every run a code keeps its terms, and each of its instants once set, so a repeated revocation keeps the first one. |
| `ClaimOutcomes.StandingEndsExactly` | `backend/apps/accounts/services_claim.py:103-183` | A standing code ends at a step iff that is a newer code of the membership, its own authorised revocation, or its holder's transition with the claim hook. |
| `ClaimOutcomes.EndedForGood` | `backend/apps/accounts/services_claim.py:155-183` | A code that ended opens nothing, and its session is over, along every later run. |
| `ClaimOutcomes.TransitionMakesAccount` | `backend/apps/accounts/transition_services.py:65-86` | After a committed transition the person is no walk-in, has a usable password if one was written, and, unless edited, is never transitioned again, gets no code, redeems none and has no session, whatever follows. |
| `ClaimOutcomes.TransitionTouchesOne` | `backend/apps/accounts/transition_services.py:65-86` | It touches nobody else's record, bars every refresh identifier of the person, and changes nothing if it does not commit. |
| `ClaimOutcomes.AccessExactly` | `backend/apps/accounts/claim_sessions.py:29-66` | In every reachable state an access token is honoured iff it was signed by this deployment generation, has not expired, and its session is redeemed, standing, in time, of an active membership of a visitor. |
| `ClaimOutcomes.RefreshExactly` | `backend/apps/accounts/claim_tokens.py:32-39` | A refresh token is exchanged iff it also is recorded and unbarred and a successor may be minted; then one identifier is spent and one recorded for the same session, else nothing changes. |
| `ClaimOutcomes.VisitWorks` | `backend/apps/accounts/services_claim.py:186-253` | A visitor's code typed within its lifetime opens a session at once, and its access token is honoured until it expires or the session does. |
| `ClaimRuns.RefreshExchangedOnce` | `backend/apps/accounts/services_refresh_tokens.py:12-33` | Over every run no refresh identifier is exchanged twice. |
| `ClaimRuns.NoChainOutlivesTheSession` | `backend/apps/accounts/claim_sessions.py:29-66` | Every honoured bearer, however many refreshes away from the code, is honoured before redemption time plus the session lifetime. |
| `ClaimRuns.ReissueEndsSession` | `backend/apps/accounts/services_claim.py:103-112` | Re-issuing ends the previous code's session along every later run. |
| `ClaimRuns.TransitionEndsEverySession` | `backend/apps/accounts/transition_services.py:65-86` | After a transition with the claim hook, no bearer of any session the person ever had is honoured along any later run. |
| `ClaimRuns.TransitionEndsEveryGrant` | `backend/apps/accounts/transition_services.py:65-86` | Nor is any device grant the person had. |
| `TransitionGate.Caller.BoundaryTenantWrite` | `backend/apps/tenant_migration/gate_runtime.py:67-110` | Entering a shared tenant boundary asks for a lock iff the key is not recorded as held, and where that lock then lives. |
| `TransitionGate.Caller.EnterGate` | `backend/apps/accounts/claim_transition_gate.py:30-63` | Nested entry for the same person takes nothing, another person is refused, an out-of-order request is refused before any lock, a frozen tenant unwinds; otherwise all tenants are entered in ascending order. |
| `TransitionGate.GuardMeansOutOfOrder` | `backend/apps/accounts/claim_transition_gate.py:50-54` | The least-against-greatest comparison refuses iff some new key lies below some recorded one. |
| `TransitionGate.AdmissionAscends` | `backend/apps/accounts/claim_transition_gate.py:46-57` | An admission asks for exactly the unrecorded tenants, ascending, each above every recorded key, and ends holding every tenant's lock. |
| `TransitionGate.OrderedAgainstLocks` | `backend/apps/accounts/claim_transition_gate.py:46-57` | Against the locks really held, the order is kept iff no lock left behind by the caller's transaction lies above a new key. |
| `TransitionGate.PlanIsWhatIsAsked` | `backend/apps/accounts/claim_transition_gate.py:55-57` | What an admission asks for is the unrecorded keys in ascending order, the plan a caller of `GateSystem` follows. |
| `TransitionGate.ScopeIsLocked` | `backend/apps/accounts/claim_transition_gate.py:66-76` | Nested entries leave the context alone, and a passed scope check means every current tenant of the person is locked. |
| `GateOutcomes.EntryExactly` | `backend/apps/accounts/claim_transition_gate.py:30-63` | An entry is nested for the same person, refused for another, refused iff an unrecorded tenant lies below a recorded one, stopped iff a tenant is frozen, and admitted otherwise. |
| `GateOutcomes.EntryLeaves` | `backend/apps/accounts/claim_transition_gate.py:30-63` | A nested or refused entry leaves the context as it was; a stopped one leaves exactly the locks its transaction took up to the first frozen tenant; an admitted one enters every tenant, puts each new lock where the transaction state says, and records person and tenants. |
| `GateOutcomes.LeavingRestores` | `backend/apps/accounts/claim_transition_gate.py:46-63` | Leaving restores the context, but for locks that live until the transaction ends. |
| `GateOutcomes.ScopeExactly` | `backend/apps/accounts/claim_transition_gate.py:66-76` | The scope check passes iff the admission is the person's and covers every tenant, and says which of the two fails. |
| `GateSystem.StepKeeps` | `backend/apps/accounts/claim_transition_gate.py:30-63` | Arriving, entering, asking, granting, leaving and committing keep the order between held and planned keys. |
| `GateSystem.NoWaitCycle` | `backend/apps/accounts/claim_transition_gate.py:30-63` | Any number of callers, shared and exclusive, with queueing: no reachable state contains a wait cycle, provided no transaction re-enters below a lock it left behind. |
| `GateSystem.SomeWaiterDependsOnRunnersOnly` | `backend/apps/accounts/claim_transition_gate.py:30-63` | While anyone waits, some waiting caller is held up by running callers only. |
| `GateSystem.OutsideTransactionsIsOrderly` | `backend/apps/accounts/claim_transition_gate.py:31-39` | Callers that leave tenants only outside transactions, as documented, satisfy the proviso on every run. |
| `GateSystem.BreachCanDeadlock` | `backend/apps/accounts/claim_transition_gate.py:46-57` | After any run whatever, an admitted entry below a lock the transaction left behind can be followed, by callers that keep the order, by a wait cycle. |
| `GateSystem.OrderlyExactly` | `backend/apps/accounts/claim_transition_gate.py:46-57` | Among callers that kept the order so far, an admitted entry keeps it iff no continuation that keeps it contains a wait cycle. |
| `GateSystem.LeftoverLocksCanDeadlock` | `backend/apps/accounts/claim_transition_gate.py:46-57` | Such an entry exists: a transaction that left tenant 2 behind passes the gate's check for tenant 1, and a wait cycle is reachable from there. |
| `GateOutcomes.LocksAreExclusive` | `backend/apps/tenant_migration/gate_runtime.py:67-110` | In every reachable state, whatever the callers do, a lock held exclusively is held by nobody else, and callers record only what they hold. |
| `GateOutcomes.GrantedExactly` | `backend/apps/tenant_migration/gate_runtime.py:67-110` | A waiting caller may be granted iff no holder and no earlier conflicting request stands in the way. |
| `GateOutcomes.GrantTakes` | `backend/apps/tenant_migration/gate_runtime.py:67-110` | A grant gives exactly the next lock of the plan, in the mode asked for, and touches nobody else. |
| `GateOutcomes.EntryCompletes` | `backend/apps/accounts/claim_transition_gate.py:46-57` | A caller that entered and has nothing left to ask for holds every tenant it entered, whatever the others did meanwhile. |
| `RecipientRules.PrepareRules` | `backend/apps/admin_api/recipient_rule_validation.py:73-136` | Rules are validated in order, the first fault wins, and the result is exactly the resolved targets and links. |
| `RecipientRules.RuleTable.Payload` | `backend/apps/admin_api/recipient_rule_access.py:207-245` | Rows are split in listing order into shown whole, shown reduced, and only counted. |
| `RecipientRules.PayloadPartitions` | `backend/apps/admin_api/recipient_rule_access.py:207-245` | Every row is shown whole or counted, never both, and the rows shown at all are the visible and the projected ones. |
| `RecipientRules.RuleTable.ReplaceRecipientRules` | `backend/apps/integrations/recipient_rule_management.py:9-84` | The caller's rows are replaced, kept rows merged or left, one row a recipient stays unique; a refusal leaves the table untouched. |
| `RecipientRules.RuleTable.MergePreserved` | `backend/apps/admin_api/recipient_rule_merge.py:73-112` | Kept shared rows are edited in place, space-wide ones refuse or stay, and the expressed recipients are reported. |
| `RecipientRules.RuleTable.ReplaceOwnedLinks` | `backend/apps/admin_api/recipient_rule_merge.py:123-151` | Owned links go, submitted ones come, and a row left without links is deleted. |
| `RecipientRules.MergeIsExact` | `backend/apps/admin_api/recipient_rule_merge.py:123-151` | Links outside the reach never change and the owned links afterwards are exactly the submitted ones; the row goes iff nothing at all is left. |
| `RecipientRules.LastMergeWins` | `backend/apps/admin_api/recipient_rule_merge.py:123-151` | Merging twice is merging the last rule. |
| `RecipientRules.MergingOwnShareIsIdentity` | `backend/apps/admin_api/recipient_rule_access.py:40-74` | Merging back one's own share changes nothing. |
| `RecipientRules.FailSafeFiresExactly` | `backend/apps/admin_api/recipient_rule_merge.py:141-151` | A kept linked row is deleted iff nothing is submitted, every link is owned, and some link is outside the tenant; under in-tenant links the fail-safe is dead. |
| `RecipientRules.ForeignMachineEmptiesTheRow` | `backend/apps/admin_api/recipient_rule_common.py:74-86` | One foreign machine of an in-reach global type makes it fire. |
| `RecipientRules.SpaceWideRowsStay` | `backend/apps/admin_api/recipient_rule_merge.py:93-110` | A linkless row is never narrowed, widened or removed by a delegate. |
| `RecipientRules.DelegateChangesNothingElsewhere` | `backend/apps/integrations/recipient_scope_matching.py:4-22` | Whatever a delegate submits, who is notified about any subject outside their reach, and about no subject, is the same after the save as before. |
| `RecipientSaves.SubmissionAcceptedExactly` | `backend/apps/admin_api/recipient_rule_validation.py:14-136` | A submission is accepted iff every rule names a target its sender may name, none twice, and gives links it may give, on the raw tables; it is read as just those rows. |
| `RecipientSaves.DelegateNamesOwnRole` | `backend/apps/admin_api/recipient_rule_access.py:152-180` | A delegate may name exactly their own role and its active holders with live accounts, superusers excepted. |
| `RecipientSaves.CoveredThroughALink` | `backend/apps/integrations/recipient_scope_matching.py:4-22` | A row with links covers a subject iff one of its links names the subject's machine, type or category. |
| `RecipientSaves.UnlimitedSaveIsExact` | `backend/apps/integrations/recipient_rule_management.py:9-84` | An accepted save of an actor with unlimited reach always succeeds and leaves exactly the submitted rows, one each, under new identifiers, whatever was there. |
| `RecipientSaves.DelegateSaveGoesThroughExactly` | `backend/apps/integrations/recipient_rule_management.py:9-84` | A delegate's accepted save goes through iff every existing row of a submitted target is wholly theirs or a shared one with links. |
| `RecipientSaves.DelegateSaveIsExact` | `backend/apps/admin_api/recipient_rule_merge.py:73-151` | Then, about every subject inside or outside the reach, exactly those are notified whom the delegate asked for and those whom space-wide rows, other people's rows and foreign links notify. |
| `RecipientRules.RoundTripAcceptedExactly` | `backend/apps/admin_api/recipient_rule_validation.py:14-136` | Submitting back exactly what was shown is accepted iff shown role rows name the tenant's own role and the shown links are in-tenant. |
| `RecipientRules.RoundTripPreserves` | `backend/apps/admin_api/recipient_rule_merge.py:73-151` | Then every preserved row keeps identity and links, and the event has exactly the same rules as before. |
| `Dotenv.QuoteClosed` | `scripts/provision-runtime-image.py:118-127` | The scan finds an unescaped closing quote iff there is one. |
| `Dotenv.DotenvPayload` | `scripts/provision-runtime-image.py:87-115` | The rewritten bytes, or the first of the three refusals, are the specified function of the file and the digest. |
| `Dotenv.KeyMatchIsPattern` | `scripts/provision-runtime-image.py:18-18` | The left-to-right key reading accepts exactly the written pattern. |
| `Dotenv.LinesAreShaped` | `scripts/provision-runtime-image.py:88-88` | Splitting keeps every byte and never yields lines that would be read differently together. |
| `Dotenv.LinesOfJoin` | `scripts/provision-runtime-image.py:112-112` | On such lists splitting is the inverse of joining. |
| `Dotenv.OtherLinesKept` | `scripts/provision-runtime-image.py:107-112` | All other lines keep bytes and place iff the assignment's line does not end in a lone CR before another line; lines inside a multi-line quote are never taken for it. |
| `Dotenv.PutGet` | `scripts/provision-runtime-image.py:87-115` | A fresh scan finds the written digest iff no non-empty line was glued to it. |
| `Dotenv.PutPut` | `scripts/provision-runtime-image.py:87-115` | Writing twice equals writing the last value iff no line other than a bare CRLF was glued. |
| `Dotenv.GluingBreaksTheLaws` | `scripts/provision-runtime-image.py:87-115` | A concrete two-line file on which, whatever is written, the next line is lost, the digest is not read back, and a second write is not the last one alone. |
| `Dotenv.PutOwn` | `scripts/provision-runtime-image.py:107-112` | Writing is the identity iff the line already is that assignment. |
| `Dotenv.Appended` | `scripts/provision-runtime-image.py:113-115` | With no assignment, every line is kept, the last one completed, and the assignment follows as a line of its own. |
| `Dotenv.AppendLaws` | `scripts/provision-runtime-image.py:113-115` | After an append both laws hold without exception. |
| `Dotenv.LawsWithoutLoneCr` | `scripts/provision-runtime-image.py:87-115` | Files whose every CR belongs to a CRLF obey all the laws. |
| `DotenvOutcomes.ClosesExactly` | `scripts/provision-runtime-image.py:118-127` | A value closes its quote iff the quote occurs in it after an even number of backslashes. |
| `DotenvOutcomes.OpensExactly` | `scripts/provision-runtime-image.py:99-104` | A line leaves a quote open iff it is no comment and its value, after the first sign and blanks, starts with that quote and never closes it. |
| `DotenvOutcomes.ScanExactly` | `scripts/provision-runtime-image.py:90-106` | The scan stops iff an assignment outside quotes leaves its own quote open; else a quote is open iff some line outside quotes opened it and none closed it since, and the assignments found are exactly those outside quotes, in order. |
| `DotenvOutcomes.RefusedExactly` | `scripts/provision-runtime-image.py:87-110` | A file is refused iff an assignment outside quotes spills, or else a quote is open at the end, or else there are two assignments outside quotes, each with its own reason; what is located is the one outside quotes. |
| `ObjectPublication.Drain` | `backend/apps/object_publication.py:69-82` | A stream is returned whole or refused, after reading at most one byte past the limit; a size refusal means it was empty or too long. |
| `ObjectPublication.Bucket.TakeSnapshot` | `backend/apps/object_publication.py:44-94` | A snapshot is the whole current object of an allowed size, a proven absence, or a refusal. |
| `ObjectPublication.Bucket.ValidateExisting` | `backend/apps/object_publication.py:97-99` | A result is the validator's on the current final object, and looking changes nothing. |
| `ObjectPublication.Bucket.PutIfAbsent` | `backend/apps/object_publication.py:113-119` | A conditional put writes at an absent key or not at all; a lost reply may hide a write. |
| `ObjectPublication.Bucket.TryToPut` | `backend/apps/object_publication.py:111-139` | The retry loop's own calls are one run of the program, with another put only after a conflict on a still absent key, and every state in between came by one storage action. |
| `ObjectPublication.Bucket.Publish` | `backend/apps/object_publication.py:102-139` | The publisher's own calls are exactly one run of the program; every state of the bucket meanwhile, whoever caused it, came by one storage action; a result is the validator's on the final object that is there; in calm weather every answer is plain. |
| `ObjectPublication.TurnIsAction` | `backend/apps/object_publication.py:102-139` | Every call of the program, from every place in it and with every answer, is one create-once storage action, and the publisher only ever carries vetted bytes. |
| `ObjectPublication.WrittenAtMostOnce` | `backend/apps/object_publication.py:109-138` | Any history of storage actions writes the final key at most once, only from absence, vetted, and keeps it. |
| `ObjectPublicationRuns.StepIsAction` | `backend/apps/object_publication.py:102-139` | Every step of any publisher or uploader is a storage action. |
| `ObjectPublicationRuns.CreateOnce` | `backend/apps/object_publication.py:102-139` | Over every interleaving of any number of publishers at most one object is written at the final key, none if one was there, it is vetted and stays, and every result of every publisher is the validator's on it. |
| `ObjectPublicationRuns.ReportsLast` | `backend/apps/object_publication.py:102-139` | Any two results reported at any two times are the same. |
| `PublicationOutcomes.CalmPublication` | `backend/apps/object_publication.py:102-139` | When nothing fails and nobody else touches the two keys: an existing object is judged and nothing written; a missing, ill-sized or refused staged object is reported so; an accepted one is written exactly once and the validator's word on it as read back is the result. |
| `PublicationOutcomes.RetriesOnlyAfterConflict` | `backend/apps/object_publication.py:111-139` | Whatever else happens: a failed put is the last call and ends in an unavailable store; after any other the publisher looks who won, and puts again only after a conflict that nobody won. |
| `PublicationOutcomes.AtMostThreePuts` | `backend/apps/object_publication.py:109-109` | No publication puts more than three times. |
| `PublicationOutcomes.LonePublication` | `backend/apps/object_publication.py:102-139` | Runs do reach their end: for every bucket, staged object and validator that accepts it, one publisher alone writes it once and reports the validator's word on it. |
| `VersionDeletion.AddGroup` | `backend/apps/object_storage.py:121-136` | A group is added iff its items are well-formed and none repeats; then all its identifiers for the key are added in order. |
| `VersionDeletion.IdsExactly` | `backend/apps/object_storage.py:126-136` | A group gives an identifier iff one of its items names the key with it. |
| `VersionDeletion.ListedExactly` | `backend/apps/object_storage.py:112-143` | The identifiers gathered from a listing's first pages are exactly those some of them list as versions or delete markers, and its data versions exactly those listed as versions. |
| `VersionDeletion.AcceptedVersionSnapshot` | `backend/apps/object_storage.py:112-143` | For any listing over finitely many markers the gathering ends, with the exact identifiers of a clean complete listing or at the first fault. |
| `VersionDeletion.UnusableIsNeverClean` | `backend/apps/object_storage.py:117-143` | A fault at one page means no prefix of the listing could ever have been accepted. |
| `VersionDeletion.VersionStore.DeleteAcceptedObjectVersions` | `backend/apps/object_storage.py:80-109` | An unusable listing deletes nothing; only listed versions of the key ever go; later versions stay; it returns normally iff versioning is on, the listing is clean and every batch is confirmed, and then exactly the snapshot went, in batches of at most 1000 that partition it, and its data versions are reported. |
| `DocumentQuota.QuotaLedger.Charge` | `backend/apps/document_storage_charge.py:97-116` | Debit and proof are recorded together, or neither. |
| `DocumentQuota.QuotaLedger.FindProof` | `backend/apps/document_storage_quota.py:31-60` | The one mark of this incarnation, if it proves a local unreleased debit; more marks, or an unsound one, prove nothing. |
| `DocumentQuota.QuotaLedger.ReleaseChargeOnce` | `backend/apps/document_storage_quota.py:103-141` | A refund happens iff the proof is re-derived from the log unchanged and the balance suffices; then usage and marker change together. |
| `DocumentQuotaRuns.RefundsAreOneShot` | `backend/apps/document_storage_quota.py:103-141` | Over every run each debit is refunded at most once, for exactly its bytes, target and makerspace. |
| `DocumentQuotaRuns.RefundsNeverExceedDebits` | `backend/apps/document_storage_quota.py:103-141` | Over every run, tenant imports of any content included, refunds never exceed debits, usage is never negative, and usage is other use plus debits minus refunds, if nothing spendable is written into the log by other means. |
| `DocumentQuotaRuns.BoundedExactlyWhenNothingSpendable` | `backend/apps/document_storage_charge.py:119-144` | For any set of events others may write: refunds stay within debits on every run iff no event of the set has the form of a local debit. |
| `DocumentQuotaRuns.SpentWithoutDebit` | `backend/apps/document_storage_charge.py:119-144` | Any one such event is refunded without a debit. |
| `DocumentQuotaRuns.ImportsAreNoDebits` | `backend/apps/tenant_migration/unique_values.py:61-64` | Tenant imports drop an event's identity, so charges, refunds and imports of any content keep refunds within debits without further assumption. |
| `DocumentQuotaRuns.AuthorityNeverReturns` | `backend/apps/document_storage_quota.py:22-60` | Authority lost by release or by a second mark of the incarnation is never regained, whatever is appended later and in any context. |
| `DocumentQuotaRuns.ChargeGivesAuthority` | `backend/apps/document_storage_quota.py:82-100` | A charge gives refund authority iff its incarnation had no mark yet. |
| `QuotaOutcomes.ProofExactly` | `backend/apps/document_storage_quota.py:22-60` | On the raw events: a debit is proven iff exactly one event speaks about this incarnation of the document, it says all a proof needs for this key, row, database and storage, and no release in the makerspace names it. |
| `QuotaOutcomes.ChargedExactly` | `backend/apps/document_storage_charge.py:97-116` | A charge goes through iff within the limit, positive, with a context and a removable document; usage grows by the bytes and the log by one event that proves them; otherwise nothing changes. |
| `QuotaOutcomes.ReleasedExactly` | `backend/apps/document_storage_quota.py:103-141` | A refund goes through iff hosted, under the verified exclusion, for a proof the log still gives, out of a sufficient balance; usage shrinks by its bytes and the log grows by one release that names it; otherwise nothing changes. |
| `QuotaOutcomes.ChargeThenRelease` | `backend/apps/document_storage_quota.py:103-141` | Charging a document nobody spoke about and refunding it leaves usage as it was, and nothing more can be had for it. |
| `BulkImport.NormalizeRow` | `backend/apps/admin_api/bulk_import_rows.py:64-139` | The row's data and faults, filled in step by step, are the specified ones. |
| `BulkImport.PreviewImport` | `backend/apps/admin_api/bulk_import_preview.py:10-49` | Every row is classified in order and exactly the faulty ones are reported. |
| `BulkImport.SummaryAddsUp` | `backend/apps/admin_api/bulk_import_preview.py:42-48` | Rows to create, rows to update and reported errors make up all rows iff no row's only defect is a false, non-blank name. |
| `BulkImport.FalseNameGoesUnreported` | `backend/apps/admin_api/bulk_import_rows.py:174-178` | Such a row exists. |
| `BulkImport.CreateIsClean` | `backend/apps/admin_api/bulk_import_rows.py:181-199` | A row let through as a creation yields zero reserved, issued, damaged and lost stock, 0 <= available <= total, and no stock at all if individually tracked. |
| `BulkImport.Importer.ApplyImportRow` | `backend/apps/admin_api/bulk_import_apply.py:105-142` | What one row does under its savepoint: creation, update, recorded failure, or an ambiguous name. |
| `BulkImport.RowMeaning` | `backend/apps/inventory/availability_tracking.py:21-41` | Existing products keep names and all quantities; only an empty, unheld product may change its mode, and only from a mapped column. |
| `BulkImport.Importer.ApplyRows` | `backend/apps/admin_api/bulk_import_apply.py:77-94` | The loop over rows, with failures recorded in place, is the row steps one after another, stopped by an ambiguous name. |
| `BulkImport.RowsAreSound` | `backend/apps/admin_api/bulk_import_apply.py:58-102` | Whatever fails at runtime, an import that is not aborted satisfies the accounting below. |
| `BulkImport.ReservationSuffices` | `backend/apps/admin_api/bulk_import_apply.py:58-76` | Whatever rows fail, the products created stay within the reserved quota iff the new names are no more as texts than as the values the reservation counts, where 1, 1.0 and true are one. |
| `BulkImport.OneKeyTwoProducts` | `backend/apps/admin_api/bulk_import_apply.py:58-76` | Two faultless rows named 1 and true create two products in an empty catalogue, on a reservation of one. |
| `BulkOutcomes.PreviewedExactly` | `backend/apps/admin_api/bulk_import_rows.py:64-199` | A row is let through iff it is in order, cell by cell: named, its mapped numbers whole and in range and within the total, its mode known, nothing refused, and without phantom stock unless its name is known; as an update iff it is. |
| `BulkOutcomes.ImportMeans` | `backend/apps/admin_api/bulk_import_apply.py:43-142` | For every catalogue, rows and failures: an import aborts iff a row in order looks up a name two products have; otherwise a row fails iff out of order, without its image, in trouble, or changing the mode of a pinned product; each new product holds the numbers written in the first row of its name that went through and is tracked as the last such row says; every other product keeps name and stock. |
| `BulkOutcomes.ErrorsNameRows` | `backend/apps/admin_api/bulk_import_apply.py:43-94` | The reported errors name exactly the failed rows, but for those whose only defect is a false name. |
| `BulkOutcomes.NumbersReadBack` | `backend/apps/admin_api/bulk_import_rows.py:142-153` | A whole number is read back from a number, a fraction, or its text, signed or padded. |
| `BulkImport.Importer.ApplyImport` | `backend/apps/admin_api/bulk_import_apply.py:19-102` | A rejected, over-quota or aborted import changes nothing, and which it is follows from the preview, the reserved quota and the rows in turn; an applied one leaves what the rows in turn leave and reports faithfully: created + updated = rows not in error = summary create + update even with repeated names, one product for each new name text if nothing failed, created within the reserved quota and the product limit when names of equal value have one text, new stock is clean, old stock is unchanged. |

## Left out

- NormalizeEmail: folds case and strips white space for ASCII only; Unicode folding and address validation are not modelled.
- QueryBatch: a locking query may return any distinct eligible rows up to its limit; the order by request time is not modelled, so neither is fairness of the queue.
- Interference: the methods of this name are contracts for what others may do between two calls; their bodies are one instance of it, and `ObjectPublicationRuns` interleaves real publishers instead.
- RefundsNeverExceedDebits: assumes that events written by means other than charge, refund and tenant import are not of a local debit's form; `BoundedExactlyWhenNothingSpendable` shows the assumption is needed.
- TransitionWalkInToAccount: a failing hook or writer is decided before the first write instead of being rolled back, the credential writer only makes a password usable, and hooks other than the claim hook leave the modelled rows alone.
- ConsumeClaimCode: starts from the parsed code; the code pattern, its alphabet and the redemption address are not modelled.
- ConfirmPasswordReset: blacklisting the account's tokens after the commit is a call of its own, the account revocation of `DeviceFamilies`.
- RotateClaimRefresh: validation and mint see one database state, as the surrounding transaction is one step.
- BoundaryTenantWrite: the shared form; the operator's exclusive form appears only as a caller of `GateSystem`.
- NormalizeRow: descriptive fields, box, category and image checks are one flag of the row; underscores in numbers are not parsed; infinities, dates and nested values are no cells.
- Payload: lists row identifiers in order; the feature list, pickers and marker counts are not modelled, and one event's rows are modelled at a time.
- BuildUserPayload: entries carry makerspace and actions; their order, the printing and machine flags and the session fields are not modelled.
- A new object version is assumed to get an identifier no earlier listing has shown, as versioned stores promise.
- Product names are looked up as given; two products of one name stop an import, and other writers during an import are not modelled.
- Audit events, presence rows, push devices, cookies, HTTP views and serializer plumbing: no property here depends on them.
- Real cryptography, token encoding, mail, object-storage transport and clocks: ideal digests, arbitrary outcomes and arbitrary times stand for them.
- Phone and email one-time codes, social nonces and OIDC attempts: simpler repeats of the envelope and claim-code shapes.
- Image repository canonicalisation, upload parsers, the recovery cut-over's global sweep and host orchestration: easy members or other protocols.
