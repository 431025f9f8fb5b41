# Verification of the identity authority

This project models the parts of the identity authority whose safety is a property of whole runs or of several functions
together, and proves what the code promises about them:

1. **Federated login, link and step-up** over one tenant's tables, with provider administration, the assurance reconcile,
   native Entra resolution and the platform challenge (`Federation*.dfy`, `Reconcile.dfy`, `PlatformChallenge.dfy`,
   `ExternalSubjects.dfy`).
2. **The account directory**: filter grammar and parser, printed form, translation to SQL, keyset pagination, cursors, sort
   lists, and department trees with their ancestor query (`Directory*.dfy`, `Department.dfy`).
3. **Password and source attempt limits** (`Limiter*.dfy`).
4. **Authentication facts, their codec, lifetimes and process deadlines** (`Facts.dfy`, `FactsExact.dfy`, `Deadlines.dfy`,
   `PersonnelWindow.dfy`, `Assurance.dfy`, `Json.dfy`).
5. **Credential key rotation and bounded profile values** (`Credentials.dfy`, `Profile.dfy`).

`Common.dfy`, `Text.dfy` and `Ordering.dfy` hold what several components share: optional values, checked 64-bit arithmetic,
UTF-8 and JSON lengths, string order, and ordered lists of identifiers.

`dafny verify dfyconfig.toml` verifies the whole project.

## How the protocol is modelled

Every database closure of the protocol is one transaction: a function from the tables it finds to the tables it commits,
or an error (`Federation.dfy`). `FederationStore.Store` holds the same tables as mutable fields and does each transaction
statement by statement, with a rollback when one fails; its methods are proved to leave exactly what the function says.
`FederationRuns.dfy` interleaves the transactions of any number of concurrent operations in any order: between two
transactions of one operation every other transaction may happen. The history of a run (events, provider rows ever
committed, identifiers ever drawn) is part of a world, so that theorems speak of everything that ever happened.
A claim whose reply is lost commits but hands out nothing.

The limiter and the platform challenge have the same shape: a function for each transaction, a class that does it row by
row, and runs over all interleavings. Times are in microseconds in the limiter and in seconds elsewhere. Every reading of the
clock that a modelled decision takes inside a transaction is its own argument, ordered but otherwise arbitrary; where the code
uses one reading for several decisions, so does the model, and a statement that reads the clock row by row has one for each row.

Assumptions, taken from the code that surrounds the modelled files:

- the tenant guard serialises transactions, and an error rolls a transaction back;
- identifiers, tokens and states are drawn fresh, and the database clock does not go back;
- every change of credentials, membership, enablement or "revoke all" raises the account's authentication epoch, a session
  is looked up against the current epochs, and the origin columns of a session are never updated
  (`crates/identity-postgres/src/session_storage.rs`, `crates/identity-core/src/account/policy.rs`);
- a transaction carries at most eight events (`crates/identity-postgres/src/transaction.rs:143`);
- an upstream result was obtained by exchanging the code under the provider row the claim returned, and passed its own
  validation;
- the authenticated cipher is ideal: a ciphertext opens only under its own key, nonce and associated data.

The transactions are also stated a second time, without the functions that make them up: `FederationExact.dfy`,
`FederationBindings.dfy`, `LimiterExact.dfy` and `FactsExact.dfy` say, for each, the condition under which it commits and
every table it leaves, with the limits and times as plain numbers, `FederationRefusals.dfy` with which error it ends
otherwise, and they prove that the transaction does exactly that. In the same way `DirectoryLanguage.dfy` gives the filter
language by what may be written, without a parser, and proves that the parser accepts exactly that language.

## Where the code and its intent differ

- **Credentials.** `seal` has no length check, `open` refuses more than 32,768 bytes of ciphertext, and JSON escaping can
  make a certificate of 16,384 bytes twice as long with quotes, and longer still with control characters. What is sealed opens
  again exactly when its encoding and tag fit (`Credentials.SealOpens`, with an input in `Credentials.SealCanOutgrowOpen`).
  Whether such a value is stored at all is decided by the table's own limit on the text of a row.
- **Rotation.** A row that authenticates can still stop a rotation: the table limits the text of a row, and a re-sealed row may
  have a longer key name and other digits. A rotation succeeds exactly when every row authenticates and every row under an old
  key fits again (`Credentials.Rekey`, with an input in `Credentials.RotationCanFail`); rows of at most 26,178 bytes of
  ciphertext always fit (`Credentials.ShortRowsRotate`).
- **Password claims.** The upsert of a claim reads the clock once for the failures and once for the window. When the window
  ends between the two readings the row would count failures without a window, the table's check refuses it, and the whole
  claim rolls back: exactly then and never otherwise (`Limiter.ClaimFailsExactlyWhenStraddled`, `Limiter.ClaimCanFail`).
  Two further readings in the settlement can carry the failures of a window into the next one; the bounds hold all the same.
- **Personnel window.** The beginning of a profile observed in the future is no boundary of the window, unlike that of a
  department fact. A profile keeps its status throughout the window exactly when it was not observed inside it
  (`PersonnelWindow.ProfileIsSteadyExactlyWhenObserved`, `PersonnelWindow.FutureProfileIsNotSteady`). It does not arise,
  because observations from the future are never stored (`PersonnelWindow.AcceptedProfilesAreSteady`).
- **Directory filters.** The documentation offers `=isnull=true` and `=isnotnull=true` without exception. They are accepted on
  exactly five of the twelve fields, `login`, `displayName`, `email`, `profileStatus` and `departmentStatus`
  (`DirectoryGrammar.NullTestsExactly`, `DirectoryGrammar.NullTestsAsDocumented`), and refused on `principalId`, the three
  boolean fields and the three department fields (`DirectoryGrammar.NullTestsCanFail`,
  `DirectoryGrammar.DepartmentNullTestsCanFail`).

## Model

| member | source | states |
|---|---|---|
| FederationTheorems.AttemptsAreOneUse | crates/identity-postgres/src/federation_login.rs:157-235 | In every interleaving an attempt releases its nonce and verifier at most once, ends at most once, and yields a session, grant or redirect only if it was released |
| FederationTheorems.EndedForever | crates/identity-postgres/src/federation_storage.rs:303-309 | Deletion is consumption: once an attempt has ended no later step releases or ends it again |
| FederationTheorems.OneRowPerAttempt | crates/identity-postgres/src/federation_login.rs:207-212 | The provider row an attempt was inserted, claimed and committed under is one and the same whole row |
| FederationTheorems.VersionsNeverReturn | crates/identity-postgres/src/federation.rs:199-240 | No ABA: a provider version seen at two points of a run names the same whole row at both, versions never go back and the issuer never changes |
| FederationTheorems.EditKillsAttempts | crates/identity-postgres/src/federation_storage.rs:46-54 | After any edit, toggle or reconcile of its provider, an attempt can no longer be cancelled, claimed, completed or redirected |
| FederationTheorems.AcceptedUntilWritten | crates/identity-postgres/src/federation_storage.rs:109-124 | An accepted session origin stays accepted at a later point if and only if its provider row was not written in between |
| FederationTheorems.RejectedForever | crates/identity-postgres/src/federation_storage.rs:109-124 | A session whose origin is rejected once is rejected ever after, disabling then re-enabling included |
| FederationTheorems.MintedIsAccepted | crates/identity-postgres/src/federation_login.rs:342-383 | A completion mints an accepted origin, and one carried through a link is still accepted |
| FederationTheorems.OneLiveAttemptPerIntent | crates/identity-postgres/src/federation_link.rs:187-247 | Every intent has at most one live attempt, whose purpose is the one its stage asks for and whose expiry is not after the intent's |
| FederationTheorems.StagesMoveOneAtATime | crates/identity-postgres/src/federation_link.rs:423-439 | A step leaves the stage of an intent alone or moves it from 0 to 1 or from 1 to 2 |
| FederationTheorems.LinkIsForItsStarter | crates/identity-postgres/src/federation_login.rs:342-366 | A completed link is for the browser, session, principal and epochs its intent started with; it raises the epoch by one, completes the intent, closes the old session and makes the subject the principal's |
| FederationExact.LinkLeaves | crates/identity-postgres/src/federation_login.rs:342-366 | What a completed link leaves of every table: the new identity, the raised epoch, the completed intent, the closed and the new session, and no attempt |
| FederationTheorems.OutdatedIntentIsDead | crates/identity-postgres/src/federation_login.rs:432-468 | Once an account's epoch has passed an intent's, no attempt of that intent has an actor in any later world |
| FederationTheorems.LinkKillsTheOthers | crates/identity-postgres/src/federation_login.rs:348-358 | A completed link kills every other open intent of its account, for ever |
| FederationTheorems.OwnershipIsForever | crates/identity-postgres/src/federation_login.rs:284-324 | Whoever owns an external subject owns it for the rest of the run |
| FederationTheorems.SubjectsDoNotShareRows | crates/identity-postgres/src/federation_login.rs:284-293 | Two different subjects of one provider never share an identity row |
| FederationTheorems.LosingLinkerConflicts | crates/identity-postgres/src/federation_login.rs:315-318 | In any reachable world a linker that is admitted acts for a session, and its completion ends in a conflict if and only if someone else owns the subject |
| FederationTheorems.ActsForTheOwner | crates/identity-postgres/src/federation_login.rs:312-400 | Whatever a completion is for, its session or grant belongs to the owner of the presented subject |
| FederationTheorems.CommittedForOneOnly | crates/identity-postgres/src/federation_login.rs:312-324 | Once a completion has committed a subject for one principal, every completion that commits it later in any run does so for the same principal; an admitted linker gets a conflict if and only if it acts for another one, and whatever is rolled back changes nothing |
| FederationTheorems.StepUpAddsNoIdentity | crates/identity-postgres/src/federation_login.rs:306-309 | A step-up or a reauthentication never adds an identity |
| FederationTheorems.LoginIsForTheOwner | crates/identity-postgres/src/federation_login.rs:366-392 | A completed login issues a session of the owner of the presented subject at the account's current epochs, with an accepted origin, and closes the session it replaces |
| FederationExact.LoginLeaves | crates/identity-postgres/src/federation_login.rs:366-414 | What a completed login leaves of every table: the identity and account it may have provisioned, the new session, the closed one it replaces, and no attempt |
| FederationTheorems.GrantIsForItsSession | crates/identity-postgres/src/federation_login.rs:331-341 | A step-up grant is for the presented session, whose principal owns the subject, under the current provider state, after a second factor younger than 300 seconds, and ends with the session or 300 seconds after the proof |
| FederationExact.StepUpLeaves | crates/identity-postgres/src/federation_login.rs:331-341 | What a completed step-up leaves of every table: one grant for its session that ends with it or 300 seconds after the proof, none of the principal's ended grants, and no attempt |
| FederationTheorems.OutdatedSessionIsDead | crates/identity-postgres/src/session_storage.rs:138-167 | A session older than its account's epoch, or revoked, is refused at every later time |
| FederationExact.ChangesExactly | crates/identity-core/src/account/policy.rs:119-183 | A change of an account commits if and only if the account is there, has a password to change or is active to be revoked, and its epochs can rise; every change raises the epoch by one, a changed membership its own, and nothing else changes |
| FederationExact.ChangeClosesSessions | crates/identity-postgres/src/session_storage.rs:138-167 | Any change of an account closes every session it had, for good |
| FederationBindings.EveryActIsBound | crates/identity-postgres/src/federation_login.rs:157-414 | No step of any run cancels, claims or completes an attempt unless its caller presents the attempt's state, browser and purpose, within its lifetime, under its current provider row, and from the live session it began from |
| FederationBindings.CancelsExactly | crates/identity-postgres/src/federation_login.rs:157-185 | A rejection commits if and only if its caller is bound, the attempt is unclaimed and the issuer is the provider's, and then only the attempt is gone; in a reachable world the stage check never adds a refusal |
| FederationBindings.ClaimsExactly | crates/identity-postgres/src/federation_login.rs:202-235 | A claim commits if and only if the same holds and, for a step-up, its session's principal is still linked to a provider that can prove a second factor; only the secrets of the attempt are then gone, and they are what it hands out with the row and the provider |
| FederationBindings.CompletesExactly | crates/identity-postgres/src/federation_login.rs:275-414 | A completion commits if and only if its caller is bound to a claimed attempt, the upstream authentication is no later than 30 seconds from now, outside a login no earlier than 30 seconds before the attempt began and for a step-up by a second factor, and nothing refuses what it is for: a step-up by its session's principal with a proof younger than 300 seconds, a live session and fewer than 32 grants; a link of a subject nobody else owns, from an accepted origin or a password; a login of an account that may sign in |
| FederationTheorems.AssuranceWhen | crates/identity-core/src/assurance.rs:133-151 | An authentication is enough if and only if the attempt began after the epoch and not in the future, the authentication is at most 30 seconds ahead, outside a login has a time no more than 30 seconds before the attempt, and for a step-up is a second factor |
| FederationTheorems.StepUpWhen | crates/identity-postgres/src/federation.rs:583-620 | A step-up is possible if and only if the provider is there, approved for a second factor under the expected profile, and linked to the principal |
| FederationBindings.ReleasesTheInserted | crates/identity-postgres/src/federation_storage.rs:158-218 | The nonce and verifier a claim hands out, whenever in a run, are those the attempt was inserted with |
| FederationBindings.AttemptsAreFixed | crates/identity-postgres/src/federation_storage.rs:266-302 | While an attempt exists nothing about it changes but that its secrets leave |
| FederationBindings.ReauthenticationIsForTheSource | crates/identity-postgres/src/federation_link.rs:302-387 | A finished reauthentication was by the owner of the session's own identity, after the attempt began; it keeps an accepted origin with the new facts and opens the linking attempt for the intent's target, same browser |
| FederationExact.FinishesExactly | crates/identity-postgres/src/federation_link.rs:250-406 | A reauthentication commits if and only if its caller is bound to a claimed attempt of an intent that waits for it, the authentication is enough, recent, of the identity the session came from, its origin is still accepted, and the target is offered with room for the next attempt; it leaves exactly the advanced intent with its new facts and the attempt at the target in the place of the finished one |
| FederationBindings.BegunForItsSession | crates/identity-postgres/src/federation_login.rs:110-153 | A login or step-up attempt begins under the current provider row for the presented live session; a step-up always has one, of a linked principal |
| FederationExact.BeginsExactly | crates/identity-postgres/src/federation_login.rs:97-152 | A login or step-up begins if and only if a presented session is live, a step-up has one whose principal can step up, the operation context is there exactly for a step-up, the provider is enabled at the version, and fewer than 10,000 attempts are left after the cleanup; it then inserts exactly this row, for 120 seconds, and deletes only what the cleanup does |
| FederationExact.InsertsExactly | crates/identity-postgres/src/federation_storage.rs:231-302 | An insertion succeeds if and only if the provider is current, the context fits the mode, its end is to come and there is room; the row ends after 120 seconds or at its given end, whichever is first |
| FederationBindings.LinkOpensForItsSession | crates/identity-postgres/src/federation_link.rs:187-247 | An intent is for the presented live session at its account's epochs, by password exactly when the account has one, otherwise through the session's own provider; it lives 300 seconds and its attempt no longer |
| FederationExact.LinksExactly | crates/identity-postgres/src/federation_link.rs:75-249 | A link opens if and only if the session is live on the account that was read, the target is offered, a password was proved exactly where the account has one and otherwise the session's own provider is offered too, and there is room; it leaves exactly this intent and this first attempt |
| FederationBindings.NativeResolveIsForTheOwner | crates/identity-postgres/src/entra.rs:181-207 | Native resolution answers with the owner of the subject, adds an identity if and only if there was none, and only where the provider may provision |
| FederationExact.NativeResolvesExactly | crates/identity-postgres/src/entra.rs:173-211 | Native resolution succeeds if and only if the provider is enabled at the proof's version, epoch, issuer and tenant, and the subject's owner is an active member or there is none and the provider may provision; it leaves exactly the account and identity it then adds |
| FederationRefusals.BeginRefuses | crates/identity-postgres/src/federation_login.rs:97-152 | A begin that is refused ends in a stale configuration if and only if its caller is admitted and the provider was written since it was read, or for a step-up the host approves another fingerprint; otherwise in a rejection |
| FederationRefusals.CancelRefuses | crates/identity-postgres/src/federation_login.rs:157-185 | A rejection that is refused ends in a stale configuration for a provider that was written since, in an error of the claims for another issuer, and otherwise in a rejection |
| FederationRefusals.ClaimRefuses | crates/identity-postgres/src/federation_login.rs:202-235 | The same of a claim, and in a stale configuration too when the host approves another fingerprint for a step-up |
| FederationRefusals.CompleteRefuses | crates/identity-postgres/src/federation_login.rs:275-414 | An admitted completion that is refused ends in a conflict if and only if somebody other than the linker owns the subject, in an error of the claims if and only if the principal is found and the authentication is not enough, in the error of its facts for a login of that principal, and otherwise in a rejection |
| FederationRefusals.LinkRefuses | crates/identity-postgres/src/federation_link.rs:75-249 | A link that is refused ends in a stale configuration if and only if its caller is admitted and its target, or the provider of its session, was written since |
| FederationRefusals.FinishRefuses | crates/identity-postgres/src/federation_link.rs:250-406 | A reauthentication that is refused ends in a stale configuration for a provider that was written since, in an error of the claims for another identity or an authentication that is not enough, in the error of its facts, and otherwise in a rejection |
| FederationBindings.LimitsHold | crates/identity-postgres/src/federation_storage.rs:231-302 | In every run attempts live for at most 120 seconds and intents for 300, and there are at most 10,000 attempts and 100 providers |
| FederationSteps.RunKeeps | crates/identity-postgres/src/federation_login.rs:187-416 | Every run keeps the whole invariant and never takes back what other operations rely on |
| FederationSteps.StepKeeps | crates/identity-postgres/src/federation_login.rs:157-414 | Every single transaction keeps it |
| FederationInvariants.WriteKeeps | crates/identity-postgres/src/federation.rs:236-238 | A provider write raises the version by one and keeps every origin and attempt either current or outdated for good |
| FederationStore.Store.BeginAuthentication | crates/identity-postgres/src/federation_login.rs:110-153 | The insertion ending a login or step-up start, statement by statement, commits or rolls back as specified |
| FederationStore.Store.Cancel | crates/identity-postgres/src/federation_login.rs:157-185 | Succeeds if and only if the caller is bound to an unclaimed attempt and names its issuer; then exactly that attempt is gone, otherwise nothing changed |
| FederationStore.Store.Claim | crates/identity-postgres/src/federation_login.rs:207-235 | Succeeds if and only if the attempt is claimable; then it hands out the row, provider and secrets it found and only the secrets are gone |
| FederationStore.Store.Complete | crates/identity-postgres/src/federation_login.rs:275-414 | The commit of login, step-up and link leaves exactly the specified tables, or the tables it found |
| FederationStore.Store.ResolvePrincipal | crates/identity-postgres/src/federation_login.rs:284-324 | Finds or provisions the principal of a subject, refusing an identity owned by another |
| FederationStore.Store.CompleteLinking | crates/identity-postgres/src/federation_login.rs:342-392 | Epoch bump, compare-and-set of the stage, origin check and session insertion, in the code's order |
| FederationStore.Store.BeginLink | crates/identity-postgres/src/federation_link.rs:187-247 | Opens an intent with its first attempt, or neither; the cleanup in it is one the protocol allows |
| FederationStore.Store.FinishReauthentication | crates/identity-postgres/src/federation_link.rs:302-387 | Stores the reauthenticated facts, advances the stage, consumes the old attempt and inserts the linking one, or changes nothing |
| FederationStore.Store.ReadTarget | crates/identity-postgres/src/federation_link.rs:266-276 | The whole provider row an intent links to, if and only if it is enabled and at the intent's version |
| FederationStore.Store.AdvanceIntent | crates/identity-postgres/src/federation_link.rs:423-439 | Compare-and-set of a stage; a completed intent never advances |
| FederationStore.Store.InsertNewAttempt | crates/identity-postgres/src/federation_storage.rs:231-302 | Exact provider, expiry of at most 120 seconds, cleanup, capacity and insertion |
| FederationStore.Store.Cleanup | crates/identity-postgres/src/federation_storage.rs:246-265 | Deletes at most 128 expired attempts, the earliest first and all of them if fewer, and at most 128 expired intents no remaining attempt refers to, all of them if fewer |
| FederationStore.Store.SelectIdentity | crates/identity-postgres/src/federation_login.rs:284-293 | The unique key finds the one row there can be |
| FederationStore.Store.CreateProvider | crates/identity-postgres/src/federation.rs:177-186 | Succeeds if and only if there are fewer than 100 providers; the new one is disabled at version, epoch and credential version one, no other changes |
| FederationStore.Store.EditProvider | crates/identity-postgres/src/federation.rs:220-239 | Succeeds if and only if the version is the expected one, the issuer the same and no counter at its end; version, epoch and credential version rise by one each, the enabled state stays, no other row changes |
| FederationStore.Store.EnableProvider | crates/identity-postgres/src/federation.rs:231-239 | Succeeds if and only if the version is the expected one and no counter at its end; the version rises by one, the epoch if and only if the state changes, nothing else changes |
| FederationExact.WritesExactly | crates/identity-postgres/src/federation.rs:163-240 | What each write of a provider needs and leaves: creation below 100, disabled at one; an edit at the expected version and the same issuer, all three counters one higher; a toggle at the expected version, the epoch higher if and only if the state changes |
| FederationStore.Store.ResolveEntra | crates/identity-postgres/src/entra.rs:181-207 | Native resolution on the shared identity table: current provider, existing owner or just-in-time account |
| Federation.ExactProvider | crates/identity-postgres/src/federation_storage.rs:46-54 | Succeeds if and only if the row is there, enabled and at this version |
| ExternalSubjects.StorageKeyInjective | crates/identity-core/src/entra.rs:35-40 | No two subjects, of one kind or of two, have the same storage key |
| ExternalSubjects.ValidExactly | crates/identity-core/src/entra.rs:23-33 | A subject is valid if and only if it has 1 to 255 bytes and no control character, or is a user of a tenant and neither is nil |
| Reconcile.ReconcileAssuranceProfiles | crates/identity-postgres/src/federation.rs:543-578 | Terminates; on success every fingerprint is the approved one and exactly the mismatched providers were rewritten once each; every transaction stays within the event limit; fails if and only if there are too many providers or a mismatched one is at its limit |
| Reconcile.Batch | crates/identity-postgres/src/federation.rs:551-573 | One transaction: a continuing batch rewrites exactly eight mismatched rows, a last one leaves none |
| Reconcile.Sweep | crates/identity-postgres/src/federation.rs:558-572 | The loop over the providers in order, stopping at the event limit |
| Reconcile.ReprofileRow | crates/identity-postgres/src/federation.rs:561-568 | Version and epoch rise by one, the fingerprint is replaced, everything else stays |
| Reconcile.RewriteIsReprofile | crates/identity-postgres/src/federation.rs:564-568 | The rewrite is the transaction step of the protocol's runs |
| Reconcile.RewrittenLeaves | crates/identity-postgres/src/federation.rs:558-571 | Each rewritten row is one mismatch fewer |
| Reconcile.OthersAddNoMismatch | crates/identity-postgres/src/federation.rs:543-578 | Other transactions of the same host add no mismatch between two batches |
| Reconcile.BatchIsMove | crates/identity-postgres/src/federation.rs:558-571 | What a committed batch promises of the tables is what its steps do in a run |
| Reconcile.BatchesRunOut | crates/identity-postgres/src/federation.rs:549-577 | With any other transactions of the same host between the batches, at most one batch for every eight providers mismatched at the start can ask for another, and a reconciled table stays reconciled |
| PlatformChallenge.OneSessionPerChallenge | crates/identity-postgres/src/platform.rs:347-389 | In every interleaving a challenge yields at most one session, and at most 10,000 challenges are stored |
| PlatformChallenge.LoginIsForTheStarter | crates/identity-postgres/src/platform.rs:347-389 | A completed login is for the challenge's principal, binding, audience, browser and starting epochs, within its lifetime of at most 120 seconds, and consumes it |
| PlatformChallenge.BeginsExactly | crates/identity-postgres/src/platform.rs:220-277 | A challenge begins if and only if the host allows a principal who is enabled and a member, for 1 to 120 seconds, and fewer than 10,000 are stored; it is then stored column by column as offered, at the account's current epochs |
| PlatformChallenge.CompletesExactly | crates/identity-postgres/src/platform.rs:347-389 | In every run a completion with verified evidence commits if and only if the challenge is there, unexpired at both readings and presented with its nonce and browser, its account is active and at the same epochs, the host still allows its audience and target, and an authentication time, if there is one, lies between 30 seconds before the challenge and now; it leaves exactly one session, column by column, in the place of the challenge |
| PlatformChallenge.CompletesWhen | crates/identity-postgres/src/platform.rs:347-389 | The same for any verified context, reachable or not: the row must be the verified one in binding, audience and purpose too, and every refusal is a rejection |
| PlatformChallenge.EpochChangeKillsChallenge | crates/identity-postgres/src/platform.rs:352-353 | An epoch change while a challenge is open ends it for good |
| PlatformChallenge.VerifiedAnyNumberOfTimes | crates/identity-postgres/src/platform.rs:300-329 | Reading and verifying can be repeated any number of times without touching the tables |
| PlatformChallenge.FindsExactly | crates/identity-postgres/src/platform.rs:392-409 | A challenge is found if and only if it is presented with its nonce and browser within its lifetime |
| PlatformChallenge.ChallengeStore.BeginLogin | crates/identity-postgres/src/platform.rs:257-275 | Checks, cleanup, capacity and insertion of a challenge |
| PlatformChallenge.ChallengeStore.CompleteLogin | crates/identity-postgres/src/platform.rs:347-389 | The completing transaction, every check repeated, the row deleted |
| DirectoryGrammar.PrintedFormParses | crates/identity-core/src/directory.rs:245-441 | Parsing the printed form of any tree within the budgets gives back that tree, groups and operands included |
| DirectoryLanguage.AcceptsExactly | crates/identity-core/src/directory.rs:245-441 | A text is accepted as a tree if and only if it is a written form of that tree within the limits: fields and operators by their names, groups in parentheses where AND must hold OR, and every operand bare, in single or in double quotes, with or without escapes |
| DirectoryLanguage.WrittenIsAccepted | crates/identity-core/src/directory.rs:245-260 | Every written form within 8,192 bytes, 128 nodes, 16 levels and 256 set items reads as what it means |
| DirectoryLanguage.AcceptedIsWritten | crates/identity-core/src/directory.rs:245-260 | Whatever is accepted is a written form of what it was read as |
| DirectoryLanguage.OneMeaning | crates/identity-core/src/directory.rs:276-306 | Two written forms of one text mean the same: the language is unambiguous |
| DirectoryLanguage.OperandRead | crates/identity-core/src/directory.rs:395-441 | An operand in any of the three forms, with any escapes, before any delimiter or the end, is read as its value and nothing beyond it is consumed |
| DirectoryGrammar.ExpressionParses | crates/identity-core/src/directory.rs:276-305 | The same at any place inside a filter: AND binds tighter than OR, and parentheses keep the shape of groups |
| DirectoryGrammar.AcceptedIsInBudget | crates/identity-core/src/directory.rs:276-394 | Every accepted filter is a sensible tree of at most 128 nodes, 16 levels and 256 set items |
| DirectoryGrammar.AcceptedReprints | crates/identity-core/src/directory.rs:245-260 | However a tree was written, its printed form, if short enough, reads as the same tree |
| DirectoryGrammar.ValueParses | crates/identity-core/src/directory.rs:395-440 | A quoted and escaped operand, empty or full of delimiters, reads back as itself |
| DirectoryGrammar.SetParses | crates/identity-core/src/directory.rs:335-353 | A printed set reads back item by item within both set limits |
| DirectoryGrammar.HeadParses | crates/identity-core/src/directory.rs:307-333 | A printed field and operator are read as themselves |
| DirectoryGrammar.OperatorsDiffer | crates/identity-core/src/directory.rs:318-333 | No two operators start the same text, so the order they are tried in does not matter |
| DirectoryGrammar.NullTestsExactly | crates/identity-core/src/directory.rs:354-380 | A filter that makes one null test, on any field and with any operand, is accepted if and only if the operand reads as `true`, the text is within 8,192 bytes, and the field is none of the identifier, the boolean and the department fields |
| DirectoryGrammar.NullTestsAsDocumented | crates/identity-core/src/directory.rs:115-116 | The documented form of a null test is accepted if and only if the field is one of five |
| DirectoryGrammar.NullTestsCanFail | crates/identity-core/src/directory.rs:373-380 | A documented null test the parser refuses, as text |
| DirectoryGrammar.DepartmentNullTestsCanFail | crates/identity-core/src/directory.rs:356-360 | Another, on a department |
| Directory.FieldNames | crates/identity-core/src/directory.rs:21-40 | Every field is found under its own name |
| DirectoryParser.ParseFilterText | crates/identity-core/src/directory.rs:245-260 | The running parser accepts exactly what the grammar accepts, and ends at the end of the text in bytes |
| DirectoryParser.Parser.Expression | crates/identity-core/src/directory.rs:276-306 | One call reads exactly what the grammar reads; the byte offset always stands between two characters |
| DirectoryParser.Parser.Group | crates/identity-core/src/directory.rs:282-298 | The loop over the items of a group |
| DirectoryParser.Parser.Comparison | crates/identity-core/src/directory.rs:307-386 | Field, operator, operand and the checks of their combination |
| DirectoryParser.Parser.Set | crates/identity-core/src/directory.rs:335-353 | The loop over the items of a set |
| DirectoryParser.Parser.Chars | crates/identity-core/src/directory.rs:403-440 | The loop over the characters of an operand |
| DirectoryParser.Parser.Eat | crates/identity-core/src/directory.rs:268-275 | Advances over a text if and only if it comes next |
| DirectorySql.FilterSelects | crates/identity-postgres/src/account_directory.rs:57-126 | The emitted predicate selects a row if and only if the filter holds, each operator by its own meaning on the cell and comparisons on null false |
| DirectorySql.FilterReads | crates/identity-postgres/src/account_directory.rs:64-126 | At every subtree the emitted tokens are one operand under SQL precedence, true exactly when the subtree holds |
| DirectorySql.CompareReads | crates/identity-postgres/src/account_directory.rs:79-122 | A finite OR for the in-set, a finite AND for the out-set, null tests, containment and departments each mean what they say |
| DirectorySql.CellsCompare | crates/identity-postgres/src/account_directory.rs:109-122 | A comparison of a cell and a value holds as the operator says, by code point in a text column and as a flag in a boolean one |
| DirectorySql.RelatedWhen | crates/identity-postgres/src/account_directory.rs:57-63 | Each emitted relation between two cells holds exactly in the order or equality it names |
| DirectorySql.MembershipMeans | crates/identity-postgres/src/account_directory.rs:84-93 | The ancestor query matches a department exactly when a membership is it, or lies at or below it |
| DirectoryListing.AcceptedFilterSelects | crates/identity-postgres/src/account_directory.rs:327-332 | From text to rows: an accepted filter selects what its tree says |
| DirectoryListing.QueryBuilder.Filter | crates/identity-postgres/src/account_directory.rs:64-126 | The pushes of the recursive builder are the emitted predicate |
| DirectoryListing.QueryBuilder.Comparison | crates/identity-postgres/src/account_directory.rs:79-122 | The pushes for one comparison |
| DirectoryListing.QueryBuilder.After | crates/identity-postgres/src/account_directory.rs:140-165 | The nested loops of the keyset predicate push exactly that predicate |
| DirectoryPages.AfterReads | crates/identity-postgres/src/account_directory.rs:140-165 | The keyset predicate is true exactly of the rows strictly later than the position |
| DirectoryPages.LaterSomewhere | crates/identity-postgres/src/account_directory.rs:140-164 | Equal in the first columns and later in the next one is the lexicographic order |
| DirectoryPages.LaterOrders | crates/identity-postgres/src/account_directory.rs:336-346 | That order, nulls last in either direction, is strict and total on keys |
| Text.BeforeOrders | crates/identity-postgres/src/account_directory.rs:43-56 | The collation by code point is a strict total order |
| Text.BeforeMeans | crates/identity-postgres/src/account_directory.rs:43-56 | One text comes before another exactly when it is a proper prefix of it or smaller at their first difference |
| DirectoryPages.ListedAsAsked | crates/identity-postgres/src/account_directory.rs:336-346 | Of two rows of a listing the first asked-for column that differs decides: ascending or descending as asked, and nulls last either way |
| DirectoryPages.KeyedRowsHaveKeys | crates/identity-core/src/directory.rs:176-181 | With the principal identifier among the sorts no two rows have the same key |
| DirectoryPages.ClauseSelects | crates/identity-postgres/src/account_directory.rs:327-335 | The whole WHERE clause is the filter and the position |
| DirectoryPages.EverythingIsComplete | crates/identity-postgres/src/account_directory.rs:327-348 | The unpaged listing is the matching rows, each once, strictly in order |
| DirectoryPages.SeekFindsTheRest | crates/identity-postgres/src/account_directory.rs:333-348 | After the position of a row the query finds exactly the rows after it |
| DirectoryListing.ListAccounts | crates/identity-postgres/src/account_directory.rs:327-370 | One page, with a cursor if and only if there is more |
| DirectoryListing.FollowCursors | crates/identity-postgres/src/account_directory.rs:347-370 | Following the cursors returns the whole listing without gap or duplicate, on as few pages as the limit allows |
| DirectoryListing.FollowPages | crates/identity-postgres/src/account_directory.rs:347-370 | The client's loop: every page but the last is full and hands out the position of its last row |
| DirectoryListing.FewestIsEnough | crates/identity-postgres/src/account_directory.rs:347-352 | The number of pages is what the rows fill, the last one perhaps in part, and one for an empty listing |
| DirectoryCursors.AcceptedExactly | crates/identity-postgres/src/account_directory.rs:288-308 | A cursor is accepted if and only if this key signed it, for the same instance, tenant, principal, session, generation and query, it has not expired, it is within 4,096 characters and holds one value of the right kind for every column; which refusal another one gets is exact too |
| DirectoryCursors.OwnCursorIsGood | crates/identity-postgres/src/account_directory.rs:166-189 | A cursor a page hands out is accepted by every later page of the same scope exactly until it expires: it is never too long or misshapen for the rows the tables allow |
| DirectoryCursors.ListPage | crates/identity-postgres/src/account_directory.rs:286-383 | A page succeeds if and only if its cursor is accepted and it ends in time; it is then the rows after the cursor's position, with a cursor of the same scope if and only if there are more |
| DirectoryCursors.FollowSigned | crates/identity-postgres/src/account_directory.rs:286-383 | A client that hands back each cursor before it expires gets the whole listing without gap or duplicate, and none of its cursors is refused |
| DirectoryListing.ParseSorts | crates/identity-core/src/directory.rs:163-181 | The sort list is unique, sortable and contains the principal identifier; a leading minus means descending and its absence ascending; it is refused only for a bad, unsortable or repeated name |
| DirectoryListing.TermParsed | crates/identity-core/src/directory.rs:163-175 | A term is read if and only if it is the name of a sortable field, with a minus before it exactly when it descends |
| DirectoryListing.Names | crates/identity-core/src/directory.rs:228-244 | A list of names is accepted if and only if it is within 4,096 bytes and 16 names of 1 to 128 bytes each |
| DirectoryListing.SplitJoins | crates/identity-core/src/directory.rs:228-244 | Splitting names at commas loses nothing |
| Department.NewSnapshot | crates/identity-core/src/department.rs:225-285 | Accepts exactly the single-rooted trees of at most 16 levels with distinct identifiers and distinct known memberships |
| Department.ChainEnds | crates/identity-core/src/department.rs:262-272 | The walk up one chain ends if and only if the chain ends within 16 known nodes |
| Department.CollectParents | crates/identity-core/src/department.rs:245-256 | The map of parents is filled if and only if no identifier repeats |
| Department.CountRoots | crates/identity-core/src/department.rs:257-259 | Counts the nodes without a parent |
| Department.KnownAndDistinct | crates/identity-core/src/department.rs:273-278 | Memberships are known and distinct |
| Department.LevelsAreClimbs | crates/identity-core/src/department.rs:260-272 | A levelling of the nodes exists exactly when every chain ends within 16 |
| Department.SubtreeMatches | crates/identity-postgres/src/account_directory.rs:85-93 | The recursive query holds an identifier exactly when some membership lies at or below it |
| Department.QueryCloses | crates/identity-postgres/src/account_directory.rs:85-93 | The recursive query ends at a fixpoint |
| Department.AncestorsAreNodes | crates/identity-postgres/src/account_directory.rs:85-93 | For an accepted snapshot its rows are nodes, at most 15 steps above a membership |
| LimiterRuns.RejectionsAreBounded | crates/identity-postgres/src/password_attempts.rs:62-87 | Rejections counted against a login since its last success or credential change, in any stretch of time: at most five for each 600 seconds begun, and five more |
| LimiterRuns.LimitsHold | crates/identity-postgres/src/password_attempts.rs:31-52 | In every run failures are at most five and below five under a claim, a running source counter is at most 30 and a running scope counter at most 5, and rows are within 10,000 |
| LimiterExact.ReservesExactly | crates/identity-postgres/src/attempts.rs:79-124 | A reservation is rate limited if and only if its source's running counter is at 30 or its scope's at 5 at the readings of the look, and then for the longer of the remaining waits, a second at least; otherwise it is refused as busy if and only if the rows it needs do not fit 10,000 |
| LimiterExact.ClaimsExactly | crates/identity-postgres/src/password_attempts.rs:21-55 | A claim is rate limited if and only if its source is at 30 attempts in a running window or its login at five failures in one, for the longer of the remaining waits; otherwise it is refused as busy if and only if another claim of the login is live or the rows it needs do not fit 10,000 |
| LimiterExact.ClaimLeavesExactly | crates/identity-postgres/src/password_attempts.rs:43-54 | An admitted claim counts once against its source and leaves exactly the login's row with its token and lease, the failures of a running window kept and those of a past one forgotten |
| LimiterExact.SettlesExactly | crates/identity-postgres/src/password_attempts.rs:56-91 | A settlement acts if and only if its token still owns an unexpired claim; a success deletes the row, a release frees it, and a rejection counts one failure in a window of 600 seconds |
| LimiterRuns.LiveClaimExcludes | crates/identity-postgres/src/password_attempts.rs:40-42 | No claim is admitted while another one of the login is live |
| LimiterRuns.DeadTokenChangesNothing | crates/identity-postgres/src/password_attempts.rs:65-67 | A token that lapsed, was overwritten or was settled changes nothing in any later world |
| LimiterRuns.SettledIsDead | crates/identity-postgres/src/password_attempts.rs:69-83 | A settlement releases its claim; that no other login holds the same token is part of what every run keeps |
| LimiterRuns.TokensSettleOnce | crates/identity-postgres/src/password_attempts.rs:62-87 | In every run a token settles at most once and owns at most one login at any time |
| LimiterRuns.ReserveCountsBothOrNeither | crates/identity-postgres/src/attempts.rs:87-122 | In every run a reservation counts once against its source and once against its scope, going on with a window that is still running and opening a new one otherwise, even when one ends meanwhile, and writes no other row; or it counts against neither |
| LimiterRuns.StepKeeps | crates/identity-postgres/src/attempts.rs:25-125 | Every claim, settlement, reservation and clear keeps the limiter's invariant |
| LimiterCleanup.CleanupIsInvisible | crates/identity-postgres/src/attempts.rs:70-76 | With and without cleanup every admission, refusal, retry time and settlement is the same, capacity apart |
| LimiterCleanup.SameClaim | crates/identity-postgres/src/password_attempts.rs:31-52 | One claim decides the same on both sides and leaves them the same but for lapsed rows |
| Limiter.ClaimFailsExactlyWhenStraddled | crates/identity-postgres/src/password_attempts.rs:48-49 | A claim that passed every check is lost if and only if its window ends between the two readings of the upsert |
| Limiter.ClaimCanFail | crates/identity-postgres/src/password_attempts.rs:48-49 | Such a claim exists |
| Limiter.LimiterStore.ClaimPasswordRow | crates/identity-postgres/src/password_attempts.rs:31-52 | The claim, row by row, with rollback when the table refuses the row |
| Limiter.LimiterStore.SettlePasswordRow | crates/identity-postgres/src/password_attempts.rs:62-87 | Nothing without ownership; otherwise the claim is gone and the row is deleted, released as it was, or counts one more failure in its window or the first of a new one |
| Limiter.LimiterStore.ReserveRows | crates/identity-postgres/src/attempts.rs:87-122 | The reservation, row by row |
| Limiter.LimiterStore.Cleanup | crates/identity-postgres/src/attempts.rs:70-76 | Deletes lapsed rows only, at most 128 over both tables; one that had lapsed is left only when the limit is reached, and only behind earlier ones |
| Limiter.LimiterStore.Consume | crates/identity-postgres/src/attempts.rs:25-31 | Counts one attempt: the count goes up by one, the window is kept or opened with the first, no other key changes |
| Facts.CollectedDecodes | crates/identity-postgres/src/auth_facts.rs:107-172 | Everything collected decodes back unchanged, assurance, groups and department |
| FactsExact.CollectsExactly | crates/identity-postgres/src/auth_facts.rs:53-144 | A collection succeeds if and only if the token is well formed and in time, the configuration version positive, departments answered exactly where they are mapped and the deadlines representable; it leaves exactly this record: not configured, claim missing or invalid claim as the token says, or the values with their window; every refusal is one of the claims |
| FactsExact.DecodesExactly | crates/identity-postgres/src/auth_facts.rs:86-173 | The encoding of a record decodes if and only if its format is 3, its version positive, its reasons among the stored ones, its windows 1 to 300 seconds, its identifiers not nil and its values canonical; then to the record itself |
| FactsExact.ProjectsExactly | crates/identity-postgres/src/auth_facts.rs:205-234 | What is shown of stored groups at any time: refused more than 30 seconds ahead, then not yet valid, then the values, then expired |
| FactsExact.ExpiresExactly | crates/identity-core/src/facts.rs:92-105 | A deadline exists if and only if the token was issued after the epoch and at most 30 seconds ahead, ends after its issue and after now, and the bound is representable |
| Assurances.Decodes | crates/identity-core/src/assurance.rs:84-113 | Assurance facts that can be constructed pass the validation of decoding and come back unchanged |
| Assurances.OnlyStoredFormsDecode | crates/identity-core/src/assurance.rs:91-113 | Nothing else decodes: no unknown member, name, order or inconsistent time, except that an absent time is none |
| Assurances.DecodesExactly | crates/identity-core/src/assurance.rs:91-113 | A value decodes if and only if it has these three members and no other, a known strength, known methods in the order of their names, and a positive 64-bit time, which a second factor must have; and to exactly what it names |
| Facts.StorableDecodes | crates/identity-postgres/src/auth_facts.rs:146-172 | So does every storable record, whatever its size |
| Facts.Encode | crates/identity-postgres/src/auth_facts.rs:175-204 | An encoded record fits 32,768 bytes and decodes to itself, or to itself with only the department withheld; it fails if and only if neither form fits |
| Facts.PhasesOnlyAdvance | crates/identity-postgres/src/auth_facts.rs:205-234 | As time passes the projection only moves from refused to not yet valid to available to expired |
| Facts.AvailableExactly | crates/identity-postgres/src/auth_facts.rs:214-232 | Values are available exactly from issue until the shorter of the token's end and the maximum age, at most 300 seconds, and are then valid and unchanged |
| Facts.ShownIsValid | crates/identity-core/src/groups.rs:44-65 | Whatever is shown of a storable record is structurally valid |
| FactsExact.ValidExactly | crates/identity-core/src/groups.rs:44-65 | Groups are structurally valid if and only if they are of version 1 and, when available, have an identifier, a positive configuration version, a window of 1 to 300 seconds, an observation at most 30 seconds ahead and canonical values |
| Facts.ExpiresAt | crates/identity-core/src/facts.rs:92-105 | The deadline is the shorter of both signed bounds and always makes a valid window |
| Facts.PresentGroups | crates/identity-core/src/groups.rs:109-117 | Sorting and removing repetitions gives the same values in canonical form, and succeeds exactly for at most 100 printable values of 1 to 256 bytes |
| Deadlines.DeadlineIsSafe | crates/identity-postgres/src/session_storage.rs:58-71 | Before its deadline, database time is strictly below the second it stands for |
| Deadlines.DeadlineIsTight | crates/identity-postgres/src/session_storage.rs:58-71 | No later deadline would be safe |
| FactsExact.DeadlinesExactly | crates/identity-postgres/src/session_storage.rs:58-71 | A second has a deadline if and only if it is after the epoch and its distance fits 64 bits of microseconds; one that has passed has the start of the sample |
| Deadlines.HostClockOnlyShortens | crates/identity-postgres/src/session_storage.rs:35-41 | A host clock ahead of the database only shortens a deadline |
| Deadlines.HoldingNeverFails | crates/identity-postgres/src/groups.rs:24-33 | Structurally valid groups always get a deadline |
| Deadlines.ValuesNeverOutliveTheirSnapshot | crates/identity-postgres/src/groups.rs:37-121 | Values are read only before the proof ends and while database time is before the snapshot's end |
| FactsExact.ValuesAreReadExactly | crates/identity-postgres/src/groups.rs:34-121 | A view shows the values exactly while proof and snapshot last, and a kept view's values are read exactly as long; which error or state comes afterwards is exact, the proof's end first |
| Deadlines.SnapshotNeverOutlivesItself | crates/identity-postgres/src/department.rs:35-178 | A department snapshot is read only between its observation and its end, and before the proof ends |
| FactsExact.DepartmentIsHeldExactly | crates/identity-postgres/src/department.rs:35-69 | A department fact is held as refused, not yet valid, available or expired by database time, with the last instant before its end as its deadline |
| FactsExact.SnapshotIsReadExactly | crates/identity-postgres/src/department.rs:78-178 | One access gives the snapshot exactly while proof and snapshot last, and the proof's end is reported first |
| Deadlines.ProofIsSafe | crates/identity-postgres/src/entra.rs:266-278 | A native proof is live only while database time is strictly before the token's end, ten seconds at most |
| Deadlines.ProofRefusal | crates/identity-postgres/src/entra.rs:272-276 | It is refused exactly when the token has ended or its times overflow |
| FactsExact.ProofExpiresExactly | crates/identity-postgres/src/entra.rs:266-278 | An accepted proof ends with the token or after ten seconds, whichever is first, and within the budget |
| PersonnelWindow.WindowIsSafe | crates/identity-postgres/src/personnel.rs:303-322 | Any instant inside the window has database time strictly before its end |
| PersonnelWindow.WindowIsExact | crates/identity-postgres/src/personnel.rs:303-316 | Nothing saturates for any clock a minute short of the end of 64-bit time |
| PersonnelWindow.WindowIsLongest | crates/identity-postgres/src/personnel.rs:284-306 | The window ends as late as it may: a time is no later than its end if and only if it is within a minute, not past the actor's end, and not past any time to come at which a session ends, a profile expires or ages out, or a department fact begins or ends |
| PersonnelWindow.SessionsAndFactsAreSteady | crates/identity-postgres/src/personnel.rs:284-302 | No session and no department fact changes its status inside the window |
| PersonnelWindow.ProfileIsSteadyExactlyWhenObserved | crates/identity-postgres/src/personnel.rs:285-285 | A profile keeps its status throughout the window if and only if it was not observed inside it |
| PersonnelWindow.FutureProfileIsNotSteady | crates/identity-postgres/src/personnel.rs:285-285 | A profile and a window for which it does not |
| PersonnelWindow.AcceptedProfilesAreSteady | crates/identity-postgres/src/profiles.rs:237-246 | Stored profiles always do, since none from the future is stored |
| PersonnelWindow.AcceptsProfileExactly | crates/identity-postgres/src/profiles.rs:238-248 | An observation is stored if and only if it is not from the future and none of its three ends has come, and until the first of them |
| Credentials.Rekey | app/identity/src/rekey.rs:16-43 | Succeeds if and only if every row authenticates and every row under an old key fits the table's text limit when sealed again; then all rows are rotated, or none is changed when only verifying or failing |
| Credentials.RotatableExactly | crates/identity-postgres/src/credentials.rs:82-152 | A row can be rotated if and only if it opens under its own authority, tenant, provider and version, and is under the active key already or takes at most 131,072 bytes of text when sealed again |
| Credentials.ReencryptsExactly | crates/identity-postgres/src/credentials.rs:82-106 | What rotation writes for a value that opens: the value itself under the active key, otherwise its plaintext sealed under the active key; a value that does not open is refused |
| Credentials.CredentialTable.ReencryptTenant | crates/identity-postgres/src/credentials.rs:137-152 | One tenant's rows in order, at most 100, under the same condition: same plaintext, same binding, active key; active rows untouched |
| Credentials.ShortRowsRotate | crates/identity-postgres/migrations/0001_authority.sql:68 | A row that authenticates and has at most 26,178 bytes of ciphertext always fits again |
| Credentials.RotationCanFail | crates/identity-postgres/migrations/0001_authority.sql:68 | A row at the limit that authenticates and cannot be rotated |
| Credentials.CheckCredentialKeys | crates/identity-postgres/src/credentials.rs:256-276 | Succeeds if and only if every row of every tenant authenticates |
| Credentials.OldKeysCanRetire | crates/identity-postgres/src/credentials.rs:245-276 | After a rotation the active key alone reads every row, and reads the same |
| Credentials.RotationIsIdempotent | crates/identity-postgres/src/credentials.rs:96-98 | Rotating again changes nothing |
| Credentials.BindingIsExact | crates/identity-postgres/src/credentials.rs:153-170 | No value opens under another authority, tenant, provider or version |
| Credentials.NewKeyring | crates/identity-postgres/src/credentials.rs:41-75 | Accepts exactly one to eight well-named keys, distinct in name and material, the active one among them |
| Credentials.SealOpens | crates/identity-postgres/src/credentials.rs:171-243 | What is sealed opens again if and only if its encoding and tag fit 32,768 bytes |
| Credentials.OpensExactly | crates/identity-postgres/src/credentials.rs:210-243 | A value opens as a plaintext if and only if it was sealed under the key it names for this authority, tenant, provider and version, is a valid credential, and is within 32,768 bytes |
| Credentials.SealCanOutgrowOpen | crates/identity-postgres/src/credentials.rs:218-220 | A valid credential that can be sealed but not opened |
| Profile.CheckObject | crates/identity-core/src/profile.rs:99-131 | Accepts an object if and only if nesting, total members, array lengths, keys, strings and numbers are within bounds, and counts exactly its members |
| Profile.CheckValue | crates/identity-core/src/profile.rs:132-158 | The same for any value inside a container |
| Profile.GoodKeysExactly | crates/identity-core/src/profile.rs:112-127 | A key is refused if and only if it has a control character or spells the name of one of eight secrets, in any case and with dashes for underscores |
| Profile.RoundingJudgesAlike | crates/identity-core/src/profile.rs:149-154 | Judging a number after it is rounded to floating point is judging the number itself |
| Profile.MembersUnderAny | crates/identity-core/src/profile.rs:108-111 | The member count does not depend on the order of keys |
| Profile.TighterAcceptsLess | crates/identity-core/src/profile.rs:16-24 | Tighter limits accept a subset |
| Profile.NewExtensions | crates/identity-core/src/profile.rs:79-89 | Extension values are the objects within the fixed limits |
| Profile.ProfileRecord.ApplyLimits | crates/identity-core/src/profile.rs:193-202 | Withholds extensions outside the limits and touches no other field |
| Profile.LimitsAreIdempotent | crates/identity-core/src/profile.rs:193-202 | Applying limits twice is applying them once, and order does not matter when one is tighter |

## Left out

- HTTP adapters, cookies, CSRF, data transfer objects, routing, configuration, schema installation and lifecycle: input and output around the modelled code.
- Discovery, transport, token and key-set verification, and the enterprise exchange: upstream results are arbitrary values that passed their own validation.
- Cryptography and randomness: digests and secrets are compared for equality only, fresh identifiers are new, and the cipher is ideal.
- Host policy, management authorisation, reauthentication freshness and audit contents: arbitrary outcomes, except the number of events in the reconcile.
- Return addresses, operation contexts, profile observations and session lifetimes inside the federation tables: carried along or dropped where no decision of the protocol depends on them.
- Consuming step-up grants, the tenant-wide sweep of expired ones, WebAuthn ceremonies and the inside of session and profile storage: only their effect on the modelled tables is kept.
- In the federation protocol the secret of a session is identified with the session, so the rotation of session tokens (crates/identity-postgres/src/sessions.rs:458) is not represented.
- A single tenant is modelled in the federation protocol; rows of different tenants never meet in its statements.
- PostgreSQL locking and isolation: transactions are serialised by the tenant guard; an unknown commit is either outcome, without a secret returned.
- FederationBindings.CompletesExactly: whether the facts of a new origin could be collected and encoded is an outcome given with the upstream result, and the profile observation of the same transaction is not modelled.
- LimiterCleanup.CleanupIsInvisible: supposes that the tables that are never cleaned have room, since there a full table refuses where a cleaned one admits.
- Reconcile.ReconcileAssuranceProfiles: the method runs its batches alone; what other transactions do between them is the theorem on runs, BatchesRunOut, not part of its loop.
- DirectoryCursors.AcceptedExactly: the length of a signed cursor is that of its widest form, so the length limit is exact for the model's length and never more lenient than for the actual one.
- DirectoryParser.Parser.Expression: reading of principal identifiers is a parameter, supposed to return printable fixed points and to refuse `true`.
- DirectorySql.FilterSelects: case folding of the database is a parameter, and the view the predicate filters is given as rows.
- DirectoryCursors.ListPage: the signature of a cursor is ideal and the digest it is bound by stands for the scope itself; the host's authorisation of the read is not part of this model.
- Profile.CheckObject: a JSON number is the exact value of the 64-bit integer or the double it was parsed to; reading numbers from text is not modelled.
- Facts.CollectedDecodes: identifiers are decoded from the hyphenated text they are encoded to; other spellings of a UUID are not accepted by the model.
- Deadlines.DeadlineIsSafe: instants are unbounded real numbers, so the platform's own overflow of an instant is not modelled.
- Department.NewSnapshot: the rules of display names are part of decoding a snapshot, not of the validator.
- Federated group and department facts inside an origin are an opaque value in the protocol; their content is modelled in the facts component.
