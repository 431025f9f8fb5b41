/** What holds of every run of the federation protocol, whatever the interleaving. */
module FederationTheorems {
  import opened Assurances
  import opened Common
  import opened ExternalSubjects
  import opened Federation
  import opened FederationRuns
  import opened FederationInvariants
  import opened FederationSteps

  /** A world some run can be in. */
  ghost predicate Reachable(w: World) {
    exists start, steps :: Initial(start) && w == Run(start, steps)
  }

  lemma ReachableInv(w: World)
    requires Reachable(w)
    ensures Inv(w)
  {
    var start, steps :| Initial(start) && w == Run(start, steps);
    InitialInv(start);
    RunKeeps(start, steps);
  }

  lemma {:induction false} RunOn(w: World, first: seq<Step>, more: seq<Step>)
    ensures Run(Run(w, first), more) == Run(w, first + more)
    decreases |first|
  {
    if first == [] {
      assert first + more == more;
    } else {
      RunOn(After(w, first[0]), first[1..], more);
      assert (first + more)[1..] == first[1..] + more;
    }
  }

  lemma ReachableOn(w: World, more: seq<Step>)
    requires Reachable(w)
    ensures Reachable(Run(w, more)) && Later(w, Run(w, more)) && Inv(Run(w, more))
  {
    var start, steps :| Initial(start) && w == Run(start, steps);
    RunOn(start, steps, more);
    ReachableInv(w);
    RunKeeps(w, more);
  }

  // The conditions of the transactions, written out

  /** The identity an origin names is the principal's, under the enabled provider row of exactly that epoch and version. */
  predicate OriginCurrent(db: Tables, principal: Id, origin: Origin) {
    && origin.identity in db.identities && db.identities[origin.identity].principal == principal
    && db.identities[origin.identity].provider in db.providers
    && var row := db.providers[db.identities[origin.identity].provider];
    && row.enabled && row.epoch == origin.epoch && row.version == origin.version
  }

  /**
    An upstream authentication counts: for an attempt begun and not in the future, at no time or at most thirty seconds
    ahead; outside a login at a time, and no more than thirty seconds before the attempt; for a step-up with two factors.
  */
  predicate Proves(a: Assurance, mode: Mode, created: int, now: int) {
    && 0 < created <= now
    && match a.authTime
       case None => mode == LoginMode
       case Some(t) =>
         && t <= now + 30
         && (mode == LoginMode || created - 30 <= t || t == I64_MAX)
         && (mode == StepUpMode ==> a.acr == Mfa)
  }

  lemma AssuranceWhen(a: Assurance, mode: Mode, created: int, now: int)
    ensures AssuranceMeets(a, mode, created, now) <==> Proves(a, mode, created, now)
  {
  }

  /** The provider is approved for step-up under its current fingerprint, and an identity of its issuer is theirs. */
  predicate CanStepUp(db: Tables, principal: Id, provider: Id, profile: AssuranceProfile) {
    && provider in db.providers && db.providers[provider].enabled
    && profile.supportsStepUp && profile.fingerprint == db.providers[provider].assurance
    && exists i :: i in db.identities && db.identities[i].principal == principal
         && db.identities[i].provider == provider && db.identities[i].issuer == db.providers[provider].settings.issuer
  }

  lemma StepUpWhen(db: Tables, principal: Id, provider: Id, profile: AssuranceProfile)
    requires provider in db.providers
    ensures StepUpReady(db, principal, provider, db.providers[provider], profile)
      <==> CanStepUp(db, principal, provider, profile)
  {
  }

  // At most once

  /**
    In every run the secrets of an attempt are released at most once; the attempt ends at most once, be it cancelled,
    in a session, in a grant or in a redirect; and it yields one of the latter three only if its secrets were released.
  */
  lemma AttemptsAreOneUse(w: World, attempt: Id)
    requires Reachable(w)
    ensures Releases(w.log, attempt) <= 1
    ensures Endings(w.log, attempt) <= 1
    ensures Yields(w.log, attempt) <= Releases(w.log, attempt)
    ensures attempt in w.db.attempts ==> Endings(w.log, attempt) == 0
  {
    ReachableInv(w);
    assert Releases(w.log, attempt) <= 1;
  }

  /** An attempt that ended never acts again: no step of any later run adds an event for it. */
  lemma EndedForever(w: World, attempt: Id, more: seq<Step>)
    requires Reachable(w) && Endings(w.log, attempt) == 1
    ensures Releases(Run(w, more).log, attempt) == Releases(w.log, attempt)
    ensures Endings(Run(w, more).log, attempt) == 1 && attempt !in Run(w, more).db.attempts
    decreases |more|
  {
    ReachableInv(w);
    if more != [] {
      ReachableOn(w, more[..1]);
      assert Run(w, more[..1]) == After(w, more[0]) by {
        assert more[..1][0] == more[0] && more[..1][1..] == [];
        assert Run(After(w, more[0]), []) == After(w, more[0]);
      }
      AbsentStays(w, more[0], attempt);
      EndedForever(After(w, more[0]), attempt, more[1..]);
    }
  }

  lemma AbsentStays(w: World, s: Step, attempt: Id)
    requires Inv(w) && attempt in w.used && attempt !in w.db.attempts
    ensures Releases(After(w, s).log, attempt) == Releases(w.log, attempt)
    ensures Endings(After(w, s).log, attempt) == Endings(w.log, attempt)
  {
    StepKeeps(w, s);
    Quiet(w, s, attempt);
  }

  /**
    A step logs nothing, or one event, or an ending followed by a beginning; only known attempts are released or end, and
    only a claim releases.
  */
  lemma LogShape(w: World, s: Step) returns (events: seq<Event>)
    ensures After(w, s).log == w.log + events && |events| <= 2
    ensures forall e :: e in events && (e.Released? || e.Ended?) ==> e.attempt in w.db.attempts
    ensures forall e :: e in events && e.Released? ==> Possible(w, s) && s.ClaimStep?
  {
    if !ProtocolStep(s) {
      events := OthersLog(w, s);
    } else if s.FinishReauthenticationStep? && Possible(w, s) {
      events := FinishLog(w, s);
    } else {
      events := if After(w, s).log == w.log then [] else [After(w, s).log[|w.log|]];
    }
  }

  lemma FinishLog(w: World, s: Step) returns (events: seq<Event>)
    requires s.FinishReauthenticationStep? && s.call.attempt in w.flights && w.flights[s.call.attempt].target.Some?
    ensures AfterFinishReauthentication(w, s).log == w.log + events && |events| <= 2
    ensures forall e :: e in events ==> !e.Released? && (e.Ended? ==> e.attempt in w.db.attempts)
  {
    if AfterFinishReauthentication(w, s) == Landed(w, s.call.attempt) {
      events := [];
    } else {
      var id, row, added := FinishShape(w, s);
      events := AfterFinishReauthentication(w, s).log[|w.log|..];
    }
  }

  lemma OthersLog(w: World, s: Step) returns (events: seq<Event>)
    requires !ProtocolStep(s)
    ensures After(w, s).log == w.log + events && |events| <= 1 && forall e :: e in events ==> e.Wrote?
  {
    events := if After(w, s).log == w.log then [] else [After(w, s).log[|w.log|]];
  }

  lemma QuietEvents(log: seq<Event>, events: seq<Event>, attempt: Id)
    requires |events| <= 2
    requires forall e :: e in events && (e.Released? || e.Ended?) ==> e.attempt != attempt
    ensures Releases(log + events, attempt) == Releases(log, attempt)
    ensures Endings(log + events, attempt) == Endings(log, attempt)
  {
    if |events| == 0 {
      assert log + events == log;
    } else {
      Push(log, events[0], attempt);
      if |events| == 1 {
        assert log + events == log + [events[0]];
      } else {
        Push(log + [events[0]], events[1], attempt);
        assert log + events == log + [events[0]] + [events[1]];
      }
    }
  }

  lemma Quiet(w: World, s: Step, attempt: Id)
    requires attempt !in w.db.attempts
    ensures Releases(After(w, s).log, attempt) == Releases(w.log, attempt)
    ensures Endings(After(w, s).log, attempt) == Endings(w.log, attempt)
  {
    var events := LogShape(w, s);
    QuietEvents(w.log, events, attempt);
  }

  // One provider row for the whole life of an attempt

  lemma {:induction false} RowIn(log: seq<Event>, i: nat)
    requires i < |log| && !log[i].Wrote?
    ensures log[i].row in RowsOf(log, log[i].attempt)
  {
    if i < |log| - 1 {
      RowIn(log[..|log| - 1], i);
    }
  }

  /** The settings an attempt was inserted, claimed and committed under are the same whole row. */
  lemma OneRowPerAttempt(w: World, i: nat, j: nat)
    requires Reachable(w)
    requires i < |w.log| && j < |w.log| && !w.log[i].Wrote? && !w.log[j].Wrote?
    requires w.log[i].attempt == w.log[j].attempt
    ensures w.log[i].row == w.log[j].row
  {
    ReachableInv(w);
    RowIn(w.log, i);
    RowIn(w.log, j);
    assert RowsOf(w.log, w.log[i].attempt) <= w.rows;
  }

  /** No ABA: a provider version seen twice in a run names the same whole row both times. */
  lemma VersionsNeverReturn(w: World, more: seq<Step>, id: Id)
    requires Reachable(w) && id in w.db.providers
    ensures id in Run(w, more).db.providers
    ensures
      var now, later := w.db.providers[id], Run(w, more).db.providers[id];
      && now.version <= later.version
      && (now.version == later.version <==> now == later)
      && now.settings.issuer == later.settings.issuer
  {
    ReachableOn(w, more);
    ReachableInv(w);
    assert Row(w.db, id) in Run(w, more).rows;
  }

  /** The attempt a step tries to take further. */
  function Subject(s: Step): Option<Id> {
    match s
    case CancelStep(call, _, _) => Some(call.attempt)
    case ClaimStep(call, _, _, _, _) => Some(call.attempt)
    case CompleteStep(call, _, _, _, _, _) => Some(call.attempt)
    case FinishReauthenticationStep(call, _, _, _, _) => Some(call.attempt)
    case _ => None
  }

  /** After any edit, toggle or reconcile of its provider, an attempt can no longer be cancelled, claimed or completed. */
  lemma EditKillsAttempts(w: World, began: nat, s: Step)
    requires Reachable(w)
    requires began < |w.log| && w.log[began].Began? && Subject(s) == Some(w.log[began].attempt)
    requires var row := w.log[began].row; row.0 in w.db.providers && w.db.providers[row.0] != row.1
    ensures After(w, s).db == w.db && After(w, s).log == w.log
  {
    ReachableInv(w);
    RowIn(w.log, began);
    var id, row := w.log[began].attempt, w.log[began].row;
    assert row in RowsOf(w.log, id) && RowsOf(w.log, id) <= w.rows;
    if id in w.db.attempts {
      assert w.db.attempts[id].provider == row.0 && w.db.attempts[id].version == row.1.version;
    }
    if id in w.flights {
      assert w.flights[id].source == row;
    }
    StaleStep(w, s, id, row);
  }

  lemma StaleStep(w: World, s: Step, id: Id, row: Seen)
    requires Subject(s) == Some(id)
    requires row.0 in w.db.providers && w.db.providers[row.0].version != row.1.version
    requires id in w.db.attempts ==> w.db.attempts[id].provider == row.0 && w.db.attempts[id].version == row.1.version
    requires id in w.flights ==> w.flights[id].source == row
    ensures After(w, s).db == w.db && After(w, s).log == w.log
  {
  }

  // Origins of federated sessions

  ghost predicate Accepted(w: World, principal: Id, origin: Origin) {
    OriginCurrent(w.db, principal, origin)
  }

  function ProviderOf(w: World, origin: Origin): Id
    requires origin.identity in w.db.identities
  {
    w.db.identities[origin.identity].provider
  }

  /** An accepted origin stays accepted exactly as long as its provider row is not written. */
  lemma AcceptedUntilWritten(w: World, more: seq<Step>, principal: Id, origin: Origin)
    requires Reachable(w) && Accepted(w, principal, origin)
    ensures var next := Run(w, more);
      Accepted(next, principal, origin)
      <==> Writes(next.log, ProviderOf(w, origin)) == Writes(w.log, ProviderOf(w, origin))
  {
    ReachableInv(w);
    ReachableOn(w, more);
    var next, id := Run(w, more), ProviderOf(w, origin);
    assert next.db.identities[origin.identity] == w.db.identities[origin.identity];
    assert w.db.providers[id].version == Writes(w.log, id);
    assert next.db.providers[id].version == Writes(next.log, id);
    assert ProviderLater(w.db.providers[id], next.db.providers[id]);
  }

  /** A session whose origin is rejected once is rejected ever after, whatever is re-enabled or edited back. */
  lemma RejectedForever(w: World, more: seq<Step>, session: Id)
    requires Reachable(w) && session in w.db.sessions && w.db.sessions[session].origin.Some?
    requires !Accepted(w, w.db.sessions[session].principal, w.db.sessions[session].origin.value)
    ensures session in Run(w, more).db.sessions
    ensures Run(w, more).db.sessions[session].origin == w.db.sessions[session].origin
    ensures !Accepted(Run(w, more), w.db.sessions[session].principal, w.db.sessions[session].origin.value)
  {
    ReachableInv(w);
    ReachableOn(w, more);
    var row := w.db.sessions[session];
    assert SessionTracked(row, w.db.accounts, w.db.identities, w.db.providers);
    assert SessionLater(row, Run(w, more).db.sessions[session]);
    StaysRejected(w, Run(w, more), row.principal, row.origin.value);
  }

  lemma StaysRejected(w: World, next: World, principal: Id, origin: Origin)
    requires Later(w, next)
    requires Tracked(w.db.identities, w.db.providers, principal, origin)
    requires !Accepted(w, principal, origin)
    ensures !Accepted(next, principal, origin)
  {
    var id := ProviderOf(w, origin);
    assert next.db.identities[origin.identity] == w.db.identities[origin.identity];
    assert ProviderLater(w.db.providers[id], next.db.providers[id]);
  }

  /** A completion mints an accepted origin, or carries over one that is still accepted. */
  lemma MintedIsAccepted(w: World, s: Step)
    requires Reachable(w) && Possible(w, s) && s.CompleteStep?
    requires var r := Complete(w.db, s.call, s.claims, s.profile, s.drawn, s.expires, s.at);
      r.Committed? && r.value.Issued?
    ensures s.drawn.session in After(w, s).db.sessions
    ensures var row := After(w, s).db.sessions[s.drawn.session];
      row.origin.Some? ==> Accepted(After(w, s), row.principal, row.origin.value)
    ensures s.call.purpose != Link ==> After(w, s).db.sessions[s.drawn.session].origin.Some?
  {
    ReachableInv(w);
    var r := Complete(w.db, s.call, s.claims, s.profile, s.drawn, s.expires, s.at);
    CompleteShape(w, s, r);
    var admission := Admit(w.db, s.call, s.profile, s.at).value;
    var resolved := Resolve(w.db, admission, s.claims, s.drawn).value;
    AdmittedShape(w, s.call, s.profile, s.at, admission);
    ResolvedShape(w.db, admission, s.claims, s.drawn, resolved);
    CompletionKind(s, admission, resolved, r);
    if admission.attempt.purpose == Link {
      LinkShape(w.db, s, admission, resolved, r);
    } else {
      var row := LoginShape(s, admission, resolved);
    }
  }

  // Links

  /** In every reachable world an intent has at most one live attempt: the one its stage asks for, ending no later. */
  lemma OneLiveAttemptPerIntent(w: World, a: Id, b: Id)
    requires Reachable(w) && a in w.db.attempts && b in w.db.attempts
    requires w.db.attempts[a].link.Some? && w.db.attempts[a].link == w.db.attempts[b].link
    ensures a == b
    ensures w.db.attempts[a].link.value in w.db.intents
    ensures var attempt, intent := w.db.attempts[a], w.db.intents[w.db.attempts[a].link.value];
      && intent.stage != Completed
      && attempt.purpose == (if intent.stage == ReauthenticationRequired then Reauthenticate else Link)
      && attempt.expiry <= intent.expiry
  {
    ReachableInv(w);
    assert PurposeFits(w.db.attempts[a]);
  }

  predicate StageMoved(before: Intent, after: Intent) {
    || after.stage == before.stage
    || (before.stage == ReauthenticationRequired && after.stage == TargetReady)
    || (before.stage == TargetReady && after.stage == Completed)
  }

  /** A step leaves the stage of an intent alone or moves it to the next one. */
  lemma StagesMoveOneAtATime(w: World, s: Step, i: Id)
    requires Reachable(w) && i in w.db.intents && i in After(w, s).db.intents
    ensures StageMoved(w.db.intents[i], After(w, s).db.intents[i])
  {
    ReachableInv(w);
    if Possible(w, s) {
      if s.CompleteStep? {
        StageOfCompletion(w, s, i);
      } else if s.FinishReauthenticationStep? {
        StageOfFinish(w, s, i);
      } else if s.BeginLinkStep? {
        StageOfBeginLink(w, s, i);
      } else {
        StageOfOther(w, s, i);
      }
    }
  }

  lemma CompletionIntents(db: Tables, s: Step, admission: Admission, resolved: Resolved, r: Transaction<Completion>)
    requires s.CompleteStep? && resolved.principal in resolved.db.accounts && resolved.db.intents == db.intents
    requires r == CompletionOf(s, admission, resolved) && r.Committed?
    ensures
      || r.db.intents == db.intents
      || (exists id :: id in db.intents && db.intents[id].stage == TargetReady
            && r.db.intents == db.intents[id := db.intents[id].(stage := Completed)])
  {
    if admission.attempt.mode != StepUpMode && admission.attempt.purpose == Link {
      var id := admission.attempt.link.value;
      assert r.db.intents == db.intents[id := db.intents[id].(stage := Completed)];
    }
  }

  lemma StageOfCompletion(w: World, s: Step, i: Id)
    requires s.CompleteStep? && i in w.db.intents && i in AfterComplete(w, s).db.intents
    ensures StageMoved(w.db.intents[i], AfterComplete(w, s).db.intents[i])
  {
    var r := Complete(w.db, s.call, s.claims, s.profile, s.drawn, s.expires, s.at);
    if r.Committed? {
      CompleteShape(w, s, r);
      var admission := Admit(w.db, s.call, s.profile, s.at).value;
      CompletionIntents(w.db, s, admission, Resolve(w.db, admission, s.claims, s.drawn).value, r);
    }
  }

  lemma StageOfFinish(w: World, s: Step, i: Id)
    requires Possible(w, s) && s.FinishReauthenticationStep?
    requires i in w.db.intents && i in AfterFinishReauthentication(w, s).db.intents
    ensures StageMoved(w.db.intents[i], AfterFinishReauthentication(w, s).db.intents[i])
  {
    if AfterFinishReauthentication(w, s) != Landed(w, s.call.attempt) {
      var id, row, added := FinishShape(w, s);
    }
  }

  lemma BeginLinkIntents(db: Tables, s: Step, i: Id)
    requires s.BeginLinkStep? && i != s.intent
    ensures
      var r := BeginLink(
        db, s.session, s.account, s.candidate, s.target.0, s.target.1.version, s.intent, s.input, s.at, s.purge);
      r.Committed? && i in r.db.intents ==> i in db.intents && r.db.intents[i] == db.intents[i]
  {
  }

  lemma StageOfBeginLink(w: World, s: Step, i: Id)
    requires IdsUsed(w.db, w.used) && Possible(w, s) && s.BeginLinkStep?
    requires i in w.db.intents && i in AfterBeginLink(w, s).db.intents
    ensures StageMoved(w.db.intents[i], AfterBeginLink(w, s).db.intents[i])
  {
    BeginLinkIntents(w.db, s, i);
  }

  lemma StageOfOther(w: World, s: Step, i: Id)
    requires Possible(w, s) && !s.CompleteStep? && !s.FinishReauthenticationStep? && !s.BeginLinkStep?
    requires Inv(w) && i in w.db.intents && i in After(w, s).db.intents
    ensures StageMoved(w.db.intents[i], After(w, s).db.intents[i])
  {
    if ProtocolStep(s) {
      StageOfAttempt(w, s, i);
    } else if ProviderStep(s) {
      var r, id, drawn := ProviderShape(w, s);
    } else {
      StageOfAccount(w, s, i);
    }
  }

  lemma StageOfAttempt(w: World, s: Step, i: Id)
    requires s.BeginAuthenticationStep? || s.CancelStep? || s.ClaimStep? || s.ReadTargetStep?
    requires i in w.db.intents && i in After(w, s).db.intents
    ensures After(w, s).db.intents[i] == w.db.intents[i]
  {
  }

  lemma StageOfAccount(w: World, s: Step, i: Id)
    requires !ProtocolStep(s) && !ProviderStep(s)
    requires i in w.db.intents && i in After(w, s).db.intents
    ensures After(w, s).db.intents[i] == w.db.intents[i]
  {
  }

  /** The intent of a completing link was started by the presented browser and session, at the account's current epochs. */
  ghost predicate StartedBy(db: Tables, call: Callback, id: Id) {
    && id in db.intents
    && var intent := db.intents[id];
    && call.browser == intent.browser && call.session == Some(intent.session)
    && intent.session in db.sessions && db.sessions[intent.session].principal == intent.principal
    && intent.principal in db.accounts
    && db.accounts[intent.principal].epoch == intent.epoch
    && db.accounts[intent.principal].memberEpoch == intent.memberEpoch
  }

  /** The link raised the account's epoch, completed the intent and issued its session, and the subject is now owned. */
  ghost predicate LinkDone(db: Tables, next: Tables, id: Id, session: Id, claims: Upstream)
    requires id in db.intents && db.intents[id].principal in db.accounts
  {
    var intent := db.intents[id];
    var account := db.accounts[intent.principal];
    && intent.epoch < I64_MAX
    && next.accounts == db.accounts[intent.principal := account.(epoch := intent.epoch + 1)]
    && next.intents == db.intents[id := intent.(stage := Completed)]
    && session in next.sessions
    && next.sessions[session].principal == intent.principal
    && next.sessions[session].epoch == intent.epoch + 1
    && next.sessions[session].origin == intent.origin
    && intent.session in next.sessions && (intent.session == session || next.sessions[intent.session].revoked)
    && Owner(next, intent.target, claims.issuer, claims.subject) == Some(intent.principal)
  }

  lemma ActorShape(db: Tables, call: Callback, attempt: Attempt, viewed: int, now: int, actor: Option<Actor>)
    requires CheckActor(db, attempt, call.session, viewed, now) == Ok(actor) && attempt.link.Some?
    requires attempt.browser == call.browser
    ensures StartedBy(db, call, attempt.link.value)
    ensures actor.Some? && actor.value.principal == db.intents[attempt.link.value].principal
  {
  }

  lemma LinkTables(
    db: Tables, s: Step, admission: Admission, resolved: Resolved, r: Transaction<Completion>)
    requires s.CompleteStep?
    requires CheckActor(db, admission.attempt, s.call.session, s.at.viewed, s.at.checked) == Ok(admission.actor)
    requires Resolve(db, admission, s.claims, s.drawn) == Ok(resolved) && admission.attempt.purpose == Link
    requires resolved.principal in resolved.db.accounts
    requires r == CompleteLink(s.call, admission, resolved, s.drawn, s.expires, s.at) && r.Committed?
    requires admission.attempt.link.Some? && StartedBy(db, s.call, admission.attempt.link.value)
    requires db.intents[admission.attempt.link.value].target == admission.attempt.provider
    requires IdentitiesUnique(r.db.identities, r.db.accounts.Keys, r.db.providers.Keys)
    ensures LinkDone(db, r.db, admission.attempt.link.value, s.drawn.session, s.claims)
  {
    LinkShape(db, s, admission, resolved, r);
    ResolvedKey(db, admission, s.claims, s.drawn, resolved);
    OwnerIs(r.db, resolved.identity, admission.attempt.provider, s.claims.issuer, s.claims.subject);
  }

  /**
    A completed link is for the browser, session, principal and epochs its intent started with; it raises the account's
    epoch by one, and the linked subject now belongs to that principal.
  */
  lemma LinkIsForItsStarter(w: World, s: Step) returns (id: Id)
    requires Reachable(w) && Possible(w, s) && s.CompleteStep? && s.call.purpose == Link
    requires Complete(w.db, s.call, s.claims, s.profile, s.drawn, s.expires, s.at).Committed?
    ensures s.call.attempt in w.db.attempts && w.db.attempts[s.call.attempt].link == Some(id)
    ensures StartedBy(w.db, s.call, id)
    ensures LinkDone(w.db, After(w, s).db, id, s.drawn.session, s.claims)
  {
    ReachableInv(w);
    var r := Complete(w.db, s.call, s.claims, s.profile, s.drawn, s.expires, s.at);
    var admission, resolved := LinkAdmitted(w, s, r);
    id := admission.attempt.link.value;
    ActorShape(w.db, s.call, admission.attempt, s.at.viewed, s.at.checked, admission.actor);
    StepKeeps(w, s);
    LinkTables(w.db, s, admission, resolved, r);
  }

  lemma LinkAdmitted(w: World, s: Step, r: Transaction<Completion>) returns (admission: Admission, resolved: Resolved)
    requires LinksConsistent(w.db.attempts, w.db.intents) && Possible(w, s) && s.CompleteStep? && s.call.purpose == Link
    requires r == Complete(w.db, s.call, s.claims, s.profile, s.drawn, s.expires, s.at) && r.Committed?
    ensures s.call.attempt in w.db.attempts && admission.attempt == w.db.attempts[s.call.attempt]
    ensures admission.attempt.purpose == Link && admission.attempt.browser == s.call.browser
    ensures admission.attempt.link.Some? && admission.attempt.link.value in w.db.intents
    ensures w.db.intents[admission.attempt.link.value].target == admission.attempt.provider
    ensures CheckActor(w.db, admission.attempt, s.call.session, s.at.viewed, s.at.checked) == Ok(admission.actor)
    ensures Resolve(w.db, admission, s.claims, s.drawn) == Ok(resolved)
    ensures resolved.principal in resolved.db.accounts
    ensures r == CompleteLink(s.call, admission, resolved, s.drawn, s.expires, s.at)
    ensures After(w, s).db == r.db
  {
    CompleteShape(w, s, r);
    admission := Admit(w.db, s.call, s.profile, s.at).value;
    resolved := Resolve(w.db, admission, s.claims, s.drawn).value;
    AdmittedShape(w, s.call, s.profile, s.at, admission);
    assert PurposeFits(admission.attempt);
  }

  /** Once an account's epoch has passed an intent's, no attempt of that intent has an actor again, in any later world. */
  lemma OutdatedIntentIsDead(
    w: World, more: seq<Step>, intent: Id, attempt: Attempt, session: Option<Id>, viewed: int, now: int)
    requires Reachable(w) && intent in w.db.intents && attempt.link == Some(intent)
    requires w.db.intents[intent].principal in w.db.accounts
    requires w.db.intents[intent].epoch < w.db.accounts[w.db.intents[intent].principal].epoch
    ensures CheckActor(Run(w, more).db, attempt, session, viewed, now).Err?
  {
    ReachableOn(w, more);
    ReachableInv(w);
    var next := Run(w, more);
    if intent in next.db.intents {
      assert intent in w.used && IntentLater(w.db.intents[intent], next.db.intents[intent]);
    }
    OutdatedHasNoActor(next.db, intent, attempt, session, viewed, now);
  }

  lemma OutdatedHasNoActor(db: Tables, intent: Id, attempt: Attempt, session: Option<Id>, viewed: int, now: int)
    requires attempt.link == Some(intent)
    requires intent in db.intents ==>
      var row := db.intents[intent]; row.principal in db.accounts && row.epoch < db.accounts[row.principal].epoch
    ensures CheckActor(db, attempt, session, viewed, now).Err?
  {
  }

  /** A completed link kills every intent its account had open. */
  lemma LinkKillsTheOthers(
    w: World, s: Step, more: seq<Step>, other: Id, attempt: Attempt, session: Option<Id>, viewed: int, now: int)
    requires Reachable(w) && Possible(w, s) && s.CompleteStep? && s.call.purpose == Link
    requires Complete(w.db, s.call, s.claims, s.profile, s.drawn, s.expires, s.at).Committed?
    requires s.drawn.session in After(w, s).db.sessions
    requires other in w.db.intents && attempt.link == Some(other)
    requires w.db.intents[other].principal == After(w, s).db.sessions[s.drawn.session].principal
    ensures CheckActor(Run(After(w, s), more).db, attempt, session, viewed, now).Err?
  {
    ReachableInv(w);
    var mine := LinkIsForItsStarter(w, s);
    assert IntentTracked(w.db.intents[other], w.db.accounts, w.db.identities, w.db.providers);
    ReachableStep(w, s);
    OutdatedIntentIsDead(After(w, s), more, other, attempt, session, viewed, now);
  }

  lemma ReachableStep(w: World, s: Step)
    requires Reachable(w)
    ensures Reachable(After(w, s))
  {
    ReachableOn(w, [s]);
    assert Run(w, [s]) == Run(After(w, s), [s][1..]) == After(w, s);
  }

  // Ownership of external identities

  /** The principal that owns an external subject. */
  ghost function Owner(db: Tables, provider: Id, issuer: string, subject: ExternalSubject): Option<Id> {
    var found := FindIdentity(db, provider, issuer, StorageKey(subject));
    if found.Some? then Some(db.identities[found.value].principal) else None
  }

  lemma OwnerIs(db: Tables, id: Id, provider: Id, issuer: string, subject: ExternalSubject)
    requires IdentitiesUnique(db.identities, db.accounts.Keys, db.providers.Keys)
    requires id in db.identities && Names(db.identities[id], provider, issuer, StorageKey(subject))
    ensures Owner(db, provider, issuer, subject) == Some(db.identities[id].principal)
  {
    var found := FindIdentity(db, provider, issuer, StorageKey(subject)).value;
    assert SameKey(db.identities[id], db.identities[found]);
  }

  lemma ResolvedKey(db: Tables, admission: Admission, claims: Upstream, drawn: Fresh, resolved: Resolved)
    requires Resolve(db, admission, claims, drawn) == Ok(resolved)
    ensures resolved.identity in resolved.db.identities
    ensures Names(resolved.db.identities[resolved.identity], admission.attempt.provider, claims.issuer,
        StorageKey(claims.subject))
    ensures resolved.db.identities[resolved.identity].principal == resolved.principal
  {
  }

  /** Whoever owns an external subject owns it for the rest of the run. */
  lemma OwnershipIsForever(w: World, more: seq<Step>, provider: Id, issuer: string, subject: ExternalSubject)
    requires Reachable(w) && Owner(w.db, provider, issuer, subject).Some?
    ensures Owner(Run(w, more).db, provider, issuer, subject) == Owner(w.db, provider, issuer, subject)
  {
    ReachableOn(w, more);
    var id := FindIdentity(w.db, provider, issuer, StorageKey(subject)).value;
    assert Run(w, more).db.identities[id] == w.db.identities[id];
    OwnerIs(Run(w, more).db, id, provider, issuer, subject);
  }

  /** The row of an external subject is its alone: another subject of the same provider has another row. */
  lemma SubjectsDoNotShareRows(w: World, provider: Id, issuer: string, a: ExternalSubject, b: ExternalSubject)
    requires Reachable(w)
    requires FindIdentity(w.db, provider, issuer, StorageKey(a)).Some?
    requires FindIdentity(w.db, provider, issuer, StorageKey(a)) == FindIdentity(w.db, provider, issuer, StorageKey(b))
    ensures a == b
  {
    StorageKeyInjective(a, b);
  }

  /** A linker that passes every other check gets a conflict exactly when someone else owns the subject. */
  lemma LosingLinkerConflicts(
    w: World, call: Callback, claims: Upstream, profile: AssuranceProfile, drawn: Fresh, expires: int, at: Reads)
    requires Reachable(w) && call.purpose == Link && Admit(w.db, call, profile, at).Ok?
    ensures
      var admission := Admit(w.db, call, profile, at).value;
      var owner := Owner(w.db, admission.attempt.provider, claims.issuer, claims.subject);
      && admission.actor.Some?
      && (Complete(w.db, call, claims, profile, drawn, expires, at) == RolledBack(Conflict)
          <==> owner.Some? && owner.value != admission.actor.value.principal)
  {
    ReachableInv(w);
    var admission := Admit(w.db, call, profile, at).value;
    AdmittedShape(w, call, profile, at, admission);
    assert PurposeFits(admission.attempt);
    ActorShape(w.db, call, admission.attempt, at.viewed, at.checked, admission.actor);
    OnlyOwnersConflict(w.db, call, claims, profile, drawn, expires, at);
  }

  /** The only conflict of a link is that of a subject someone else owns. */
  lemma OnlyOwnersConflict(
    db: Tables, call: Callback, claims: Upstream, profile: AssuranceProfile, drawn: Fresh, expires: int, at: Reads)
    requires Admit(db, call, profile, at).Ok? && Admit(db, call, profile, at).value.attempt.purpose == Link
    ensures Complete(db, call, claims, profile, drawn, expires, at) == RolledBack(Conflict) <==>
      Resolve(db, Admit(db, call, profile, at).value, claims, drawn) == Err(Conflict)
  {
  }

  /** A step-up or a reauthentication never adds an identity. */
  lemma StepUpAddsNoIdentity(w: World, s: Step)
    requires Reachable(w) && Subject(s).Some? && Subject(s).value in w.db.attempts
    requires w.db.attempts[Subject(s).value].mode != LoginMode
    ensures After(w, s).db.identities == w.db.identities
  {
    ReachableInv(w);
    if Possible(w, s) && s.CompleteStep? {
      assert PurposeFits(w.db.attempts[s.call.attempt]);
      StepUpIdentities(w, s);
    } else if Possible(w, s) && s.FinishReauthenticationStep? {
      if AfterFinishReauthentication(w, s) != Landed(w, s.call.attempt) {
        var id, row, added := FinishShape(w, s);
      }
    } else {
      PlainIdentities(w, s);
    }
  }

  lemma PlainIdentities(w: World, s: Step)
    requires s.CancelStep? || s.ClaimStep? || !Possible(w, s)
    ensures After(w, s).db.identities == w.db.identities
  {
  }

  lemma StepUpIdentities(w: World, s: Step)
    requires LinksConsistent(w.db.attempts, w.db.intents) && Possible(w, s) && s.CompleteStep?
    requires s.call.attempt in w.db.attempts && w.db.attempts[s.call.attempt].mode != LoginMode
    ensures AfterComplete(w, s).db.identities == w.db.identities
  {
    assert PurposeFits(w.db.attempts[s.call.attempt]);
    var r := Complete(w.db, s.call, s.claims, s.profile, s.drawn, s.expires, s.at);
    if r.Committed? {
      CompleteShape(w, s, r);
      var admission := Admit(w.db, s.call, s.profile, s.at).value;
      AdmittedShape(w, s.call, s.profile, s.at, admission);
      assert admission.attempt.purpose == s.call.purpose;
      GrantIdentities(w.db, s, admission, Resolve(w.db, admission, s.claims, s.drawn).value);
    }
  }

  lemma GrantIdentities(db: Tables, s: Step, admission: Admission, resolved: Resolved)
    requires s.CompleteStep? && admission.attempt.mode == StepUpMode && admission.attempt.purpose == Login
    requires Resolve(db, admission, s.claims, s.drawn) == Ok(resolved)
    requires GrantStepUp(s.call, s.claims, admission, resolved, s.drawn, s.at).Committed?
    ensures GrantStepUp(s.call, s.claims, admission, resolved, s.drawn, s.at).db.identities == db.identities
  {
  }

  // What a completion hands out

  /** The new session belongs to the owner of the presented subject, at the account's epochs, and closes the old one. */
  ghost predicate LoginDone(next: Tables, attempt: Attempt, session: Id, claims: Upstream) {
    && session in next.sessions
    && var row := next.sessions[session];
    && Owner(next, attempt.provider, claims.issuer, claims.subject) == Some(row.principal)
    && row.principal in next.accounts && next.accounts[row.principal].Active()
    && row.epoch == next.accounts[row.principal].epoch && row.memberEpoch == next.accounts[row.principal].memberEpoch
    && row.origin.Some? && OriginCurrent(next, row.principal, row.origin.value) && !row.revoked
    && (attempt.replacement.Some? && attempt.replacement.value in next.sessions && attempt.replacement.value != session ==>
          next.sessions[attempt.replacement.value].revoked)
  }

  lemma LoginTables(w: World, s: Step, admission: Admission, resolved: Resolved, r: Transaction<Completion>)
    requires Inv(w) && s.CompleteStep? && Admit(w.db, s.call, s.profile, s.at) == Ok(admission)
    requires Resolve(w.db, admission, s.claims, s.drawn) == Ok(resolved) && admission.attempt.purpose != Link
    requires resolved.principal in resolved.db.accounts && resolved.db.accounts[resolved.principal].Active()
    requires r == IssueLogin(s.call, s.claims, admission, resolved, s.drawn, s.expires, s.at) && r.Committed?
    requires IdentitiesUnique(r.db.identities, r.db.accounts.Keys, r.db.providers.Keys)
    ensures LoginDone(r.db, admission.attempt, s.drawn.session, s.claims)
  {
    AdmittedShape(w, s.call, s.profile, s.at, admission);
    ResolvedShape(w.db, admission, s.claims, s.drawn, resolved);
    LoginOwner(w.db, s, admission, resolved, r);
    var row := LoginShape(s, admission, resolved);
  }

  lemma LoginOwner(db: Tables, s: Step, admission: Admission, resolved: Resolved, r: Transaction<Completion>)
    requires s.CompleteStep? && Resolve(db, admission, s.claims, s.drawn) == Ok(resolved)
    requires resolved.principal in resolved.db.accounts
    requires r == IssueLogin(s.call, s.claims, admission, resolved, s.drawn, s.expires, s.at) && r.Committed?
    requires IdentitiesUnique(r.db.identities, r.db.accounts.Keys, r.db.providers.Keys)
    ensures Owner(r.db, admission.attempt.provider, s.claims.issuer, s.claims.subject) == Some(resolved.principal)
  {
    ResolvedKey(db, admission, s.claims, s.drawn, resolved);
    var row := LoginShape(s, admission, resolved);
    OwnerIs(r.db, resolved.identity, admission.attempt.provider, s.claims.issuer, s.claims.subject);
  }

  lemma CompletionActive(db: Tables, s: Step, r: Transaction<Completion>)
    requires s.CompleteStep? && r == Complete(db, s.call, s.claims, s.profile, s.drawn, s.expires, s.at) && r.Committed?
    ensures Admit(db, s.call, s.profile, s.at).Ok?
    ensures var admission := Admit(db, s.call, s.profile, s.at).value;
      && Resolve(db, admission, s.claims, s.drawn).Ok?
      && var resolved := Resolve(db, admission, s.claims, s.drawn).value;
      && resolved.principal in resolved.db.accounts && resolved.db.accounts[resolved.principal].Active()
      && AssuranceMeets(s.claims.assurance, admission.attempt.mode, admission.attempt.created, s.at.now)
  {
  }

  lemma LoginAdmitted(w: World, s: Step, r: Transaction<Completion>) returns (admission: Admission, resolved: Resolved)
    requires s.CompleteStep? && s.call.purpose == Login
    requires r == Complete(w.db, s.call, s.claims, s.profile, s.drawn, s.expires, s.at) && r.Committed? && r.value.Issued?
    ensures Admit(w.db, s.call, s.profile, s.at) == Ok(admission)
        && Resolve(w.db, admission, s.claims, s.drawn) == Ok(resolved)
    ensures s.call.attempt in w.db.attempts && admission.attempt == w.db.attempts[s.call.attempt]
    ensures admission.attempt.purpose != Link
    ensures resolved.principal in resolved.db.accounts && resolved.db.accounts[resolved.principal].Active()
    ensures r == IssueLogin(s.call, s.claims, admission, resolved, s.drawn, s.expires, s.at)
    ensures AfterComplete(w, s).db == r.db
  {
    CompleteShape(w, s, r);
    CompletionActive(w.db, s, r);
    admission := Admit(w.db, s.call, s.profile, s.at).value;
    resolved := Resolve(w.db, admission, s.claims, s.drawn).value;
    AdmittedShape(w, s.call, s.profile, s.at, admission);
    CompletionKind(s, admission, resolved, r);
  }

  /** A completed login issues a session of the owner of the presented subject. */
  lemma LoginIsForTheOwner(w: World, s: Step)
    requires Reachable(w) && Possible(w, s) && s.CompleteStep? && s.call.purpose == Login
    requires var r := Complete(w.db, s.call, s.claims, s.profile, s.drawn, s.expires, s.at);
      r.Committed? && r.value.Issued?
    ensures s.call.attempt in w.db.attempts
    ensures LoginDone(After(w, s).db, w.db.attempts[s.call.attempt], s.drawn.session, s.claims)
  {
    ReachableInv(w);
    StepKeeps(w, s);
    var r := Complete(w.db, s.call, s.claims, s.profile, s.drawn, s.expires, s.at);
    var admission, resolved := LoginAdmitted(w, s, r);
    LoginTables(w, s, admission, resolved, r);
  }

  /**
    A step-up grant is for the session that asked for it, whose principal owns the presented subject; it names the provider
    state that proved it, and the proof was a fresh second factor.
  */
  ghost predicate GrantDone(next: Tables, call: Callback, attempt: Attempt, grant: Id, claims: Upstream, granted: int) {
    && grant in next.grants
    && var row := next.grants[grant];
    && call.session == Some(row.session) && attempt.replacement == Some(row.session)
    && row.session in next.sessions && next.sessions[row.session].principal == row.principal
    && Owner(next, attempt.provider, claims.issuer, claims.subject) == Some(row.principal)
    && row.provider == attempt.provider && row.provider in next.providers
    && row.version == next.providers[row.provider].version && row.epoch == next.providers[row.provider].epoch
    && claims.assurance.acr == Mfa && claims.assurance.authTime.Some?
    && claims.assurance.authTime.value >= Saturated(attempt.created - 30)
    && granted - 300 < claims.assurance.authTime.value <= granted
    && row.authenticated == claims.assurance.authTime.value
    && granted < row.expires == Min(row.authenticated + 300, next.sessions[row.session].expires)
  }

  lemma GrantTables(w: World, s: Step, admission: Admission, resolved: Resolved, r: Transaction<Completion>)
    requires Inv(w) && s.CompleteStep? && Admit(w.db, s.call, s.profile, s.at) == Ok(admission)
    requires Resolve(w.db, admission, s.claims, s.drawn) == Ok(resolved)
    requires admission.attempt.mode == StepUpMode && admission.attempt.link.None?
    requires r == GrantStepUp(s.call, s.claims, admission, resolved, s.drawn, s.at) && r.Committed?
    requires AssuranceMeets(s.claims.assurance, StepUpMode, admission.attempt.created, s.at.now)
    requires IdentitiesUnique(r.db.identities, r.db.accounts.Keys, r.db.providers.Keys)
    ensures GrantDone(r.db, s.call, admission.attempt, s.drawn.grant, s.claims, s.at.granted)
  {
    AdmittedShape(w, s.call, s.profile, s.at, admission);
    ResolvedShape(w.db, admission, s.claims, s.drawn, resolved);
    ResolvedKey(w.db, admission, s.claims, s.drawn, resolved);
    OwnerIs(r.db, resolved.identity, admission.attempt.provider, s.claims.issuer, s.claims.subject);
  }

  lemma GrantAdmitted(w: World, s: Step, r: Transaction<Completion>) returns (admission: Admission, resolved: Resolved)
    requires LinksConsistent(w.db.attempts, w.db.intents) && s.CompleteStep?
    requires r == Complete(w.db, s.call, s.claims, s.profile, s.drawn, s.expires, s.at) && r.Committed? && r.value.Granted?
    ensures Admit(w.db, s.call, s.profile, s.at) == Ok(admission)
        && Resolve(w.db, admission, s.claims, s.drawn) == Ok(resolved)
    ensures s.call.attempt in w.db.attempts && admission.attempt == w.db.attempts[s.call.attempt]
    ensures admission.attempt.mode == StepUpMode && admission.attempt.link.None?
    ensures AssuranceMeets(s.claims.assurance, StepUpMode, admission.attempt.created, s.at.now)
    ensures r == GrantStepUp(s.call, s.claims, admission, resolved, s.drawn, s.at)
    ensures AfterComplete(w, s).db == r.db
  {
    CompleteShape(w, s, r);
    CompletionActive(w.db, s, r);
    admission := Admit(w.db, s.call, s.profile, s.at).value;
    resolved := Resolve(w.db, admission, s.claims, s.drawn).value;
    AdmittedShape(w, s.call, s.profile, s.at, admission);
    CompletionKind(s, admission, resolved, r);
    assert PurposeFits(admission.attempt);
  }

  lemma GrantIsForItsSession(w: World, s: Step)
    requires Reachable(w) && Possible(w, s) && s.CompleteStep?
    requires var r := Complete(w.db, s.call, s.claims, s.profile, s.drawn, s.expires, s.at);
      r.Committed? && r.value.Granted?
    ensures s.call.attempt in w.db.attempts
    ensures GrantDone(After(w, s).db, s.call, w.db.attempts[s.call.attempt], s.drawn.grant, s.claims, s.at.granted)
  {
    ReachableInv(w);
    StepKeeps(w, s);
    var r := Complete(w.db, s.call, s.claims, s.profile, s.drawn, s.expires, s.at);
    var admission, resolved := GrantAdmitted(w, s, r);
    GrantTables(w, s, admission, resolved, r);
  }

  // A subject is committed for one principal only

  /** Whom a committed completion acts for: the principal of its session or of its grant. */
  ghost function ActsFor(db: Tables, value: Completion): Option<Id> {
    match value
    case Issued(_, principal, _, _) => Some(principal)
    case Granted(grant) => if grant in db.grants then Some(db.grants[grant].principal) else None
  }

  ghost function Completing(w: World, s: Step): Transaction<Completion>
    requires s.CompleteStep?
  {
    Complete(w.db, s.call, s.claims, s.profile, s.drawn, s.expires, s.at)
  }

  lemma ActsForResolved(s: Step, admission: Admission, resolved: Resolved, r: Transaction<Completion>)
    requires s.CompleteStep? && resolved.principal in resolved.db.accounts
    requires r == CompletionOf(s, admission, resolved) && r.Committed?
    ensures r.db.identities == resolved.db.identities && ActsFor(r.db, r.value) == Some(resolved.principal)
  {
  }

  lemma CompletingTables(w: World, s: Step)
    requires Possible(w, s) && s.CompleteStep?
    ensures After(w, s).db == if Completing(w, s).Committed? then Completing(w, s).db else w.db
  {
    if Completing(w, s).Committed? {
      CompleteShape(w, s, Completing(w, s));
    }
  }

  lemma OwnerActs(w: World, s: Step, r: Transaction<Completion>)
    requires s.CompleteStep? && r == Completing(w, s) && r.Committed?
    requires IdentitiesUnique(r.db.identities, r.db.accounts.Keys, r.db.providers.Keys)
    ensures s.call.attempt in w.db.attempts && ActsFor(r.db, r.value).Some?
    ensures ActsFor(r.db, r.value) == Owner(r.db, w.db.attempts[s.call.attempt].provider, s.claims.issuer, s.claims.subject)
  {
    CompleteShape(w, s, r);
    var admission := Admit(w.db, s.call, s.profile, s.at).value;
    var resolved := Resolve(w.db, admission, s.claims, s.drawn).value;
    AdmittedShape(w, s.call, s.profile, s.at, admission);
    ActsForResolved(s, admission, resolved, r);
    ResolvedKey(w.db, admission, s.claims, s.drawn, resolved);
    OwnerIs(r.db, resolved.identity, admission.attempt.provider, s.claims.issuer, s.claims.subject);
  }

  /** Whatever a completion is for, it acts for the owner of the presented subject. */
  lemma ActsForTheOwner(w: World, s: Step)
    requires Reachable(w) && Possible(w, s) && s.CompleteStep? && Completing(w, s).Committed?
    ensures s.call.attempt in w.db.attempts && ActsFor(After(w, s).db, Completing(w, s).value).Some?
    ensures ActsFor(After(w, s).db, Completing(w, s).value)
      == Owner(After(w, s).db, w.db.attempts[s.call.attempt].provider, s.claims.issuer, s.claims.subject)
  {
    ReachableInv(w);
    StepKeeps(w, s);
    CompletingTables(w, s);
    OwnerActs(w, s, Completing(w, s));
  }

  /** Of a subject that has an owner, completions are for that owner, and linkers of others get a conflict. */
  lemma OwnedForOneOnly(w: World, s: Step, owner: Id)
    requires Reachable(w) && Possible(w, s) && s.CompleteStep? && s.call.attempt in w.db.attempts
    requires Owner(w.db, w.db.attempts[s.call.attempt].provider, s.claims.issuer, s.claims.subject) == Some(owner)
    ensures Completing(w, s).Committed? ==> ActsFor(After(w, s).db, Completing(w, s).value) == Some(owner)
    ensures s.call.purpose == Link && Admit(w.db, s.call, s.profile, s.at).Ok? ==>
      var actor := Admit(w.db, s.call, s.profile, s.at).value.actor;
      && actor.Some?
      && (Completing(w, s) == RolledBack(Conflict) <==> actor.value.principal != owner)
  {
    if Completing(w, s).Committed? {
      ActsForTheOwner(w, s);
      OwnershipIsForever(w, [s], w.db.attempts[s.call.attempt].provider, s.claims.issuer, s.claims.subject);
      assert Run(w, [s]) == Run(After(w, s), [s][1..]) == After(w, s);
    }
    if s.call.purpose == Link && Admit(w.db, s.call, s.profile, s.at).Ok? {
      AdmittedShape(w, s.call, s.profile, s.at, Admit(w.db, s.call, s.profile, s.at).value);
      LosingLinkerConflicts(w, s.call, s.claims, s.profile, s.drawn, s.expires, s.at);
    }
  }

  /** Both completions present the same subject of the same provider. */
  ghost predicate SameSubject(w: World, s: Step, v: World, t: Step) {
    && s.CompleteStep? && t.CompleteStep? && s.call.attempt in w.db.attempts && t.call.attempt in v.db.attempts
    && w.db.attempts[s.call.attempt].provider == v.db.attempts[t.call.attempt].provider
    && s.claims.issuer == t.claims.issuer && s.claims.subject == t.claims.subject
  }

  /**
    Once a completion has committed a subject for one principal, every completion that commits it later in any run commits
    it for the same principal, and a linker that passes every other check gets a conflict exactly when it acts for another
    one; whatever is rolled back changes nothing.
  */
  lemma CommittedForOneOnly(w: World, s: Step, more: seq<Step>, v: World, t: Step, owner: Id)
    requires Reachable(w) && Possible(w, s) && s.CompleteStep? && Completing(w, s).Committed?
    requires ActsFor(After(w, s).db, Completing(w, s).value) == Some(owner)
    requires v == Run(After(w, s), more) && Possible(v, t) && SameSubject(w, s, v, t)
    ensures Completing(v, t).Committed? ==> ActsFor(After(v, t).db, Completing(v, t).value) == Some(owner)
    ensures t.call.purpose == Link && Admit(v.db, t.call, t.profile, t.at).Ok? ==>
      var actor := Admit(v.db, t.call, t.profile, t.at).value.actor;
      && actor.Some?
      && (Completing(v, t) == RolledBack(Conflict) <==> actor.value.principal != owner)
    ensures Completing(v, t).RolledBack? ==> After(v, t).db == v.db
  {
    var provider := w.db.attempts[s.call.attempt].provider;
    ActsForTheOwner(w, s);
    ReachableStep(w, s);
    OwnershipIsForever(After(w, s), more, provider, s.claims.issuer, s.claims.subject);
    ReachableOn(After(w, s), more);
    OwnedForOneOnly(v, t, owner);
    CompletingTables(v, t);
  }

  /** A session older than its account's epoch, or revoked, is refused at every later time. */
  lemma OutdatedSessionIsDead(w: World, more: seq<Step>, session: Id, now: int)
    requires Reachable(w) && session in w.db.sessions
    requires var row := w.db.sessions[session];
      row.revoked || (row.principal in w.db.accounts && row.epoch < w.db.accounts[row.principal].epoch)
    ensures Lookup(Run(w, more).db, session, now).Err?
  {
    ReachableOn(w, more);
    assert SessionLater(w.db.sessions[session], Run(w, more).db.sessions[session]);
  }
}
