/**
  Platform login: a challenge is read and its evidence verified outside any transaction, any number of times and
  concurrently; the completing transaction repeats every check and deletes the row instead of claiming it.
*/
module PlatformChallenge {
  import opened Common
  import opened Federation

  datatype Challenge = Challenge(
    principal: Id,
    binding: Id,
    audience: Id,
    nonce: Id,
    browser: Id,
    epoch: I64,
    memberEpoch: I64,
    created: int,
    expires: int,
    purpose: Id,
    target: Option<Id>
  )

  datatype PlatformSession = PlatformSession(
    principal: Id, epoch: I64, memberEpoch: I64, binding: Id, audience: Id, authenticatedAt: Option<int>)

  datatype Rows = Rows(
    challenges: map<Id, Challenge>, accounts: map<Id, Account>, sessions: map<Id, PlatformSession>)

  /** What the host's verifier resolved for a binding, and whether every host check of it passed. */
  datatype Resolution = Resolution(principal: Id, allowed: bool)

  datatype Offer = Offer(
    id: Id, binding: Id, audience: Id, nonce: Id, browser: Id, purpose: Id, target: Option<Id>, seconds: int)

  /** The challenge a browser names. */
  datatype Named = Named(id: Id, nonce: Id, browser: Id)

  datatype Evidence = Evidence(keyPossession: bool, userVerification: bool, authenticatedAt: Option<int>)

  /** What the host answers while the completion runs: its audience, its target, and the outcome of its other checks. */
  datatype Host = Host(audience: Id, target: Option<Id>, allowed: bool)

  const CHALLENGE_LIMIT: int := 10000
  const CLEANUP_LIMIT: int := 128
  const LONGEST: int := 120
  const CLOCK_SKEW: int := 30

  // The transactions

  ghost predicate CleanupAllowed(challenges: map<Id, Challenge>, now: int, gone: set<Id>) {
    && gone <= challenges.Keys && |gone| <= 128
    && (forall id :: id in gone ==> challenges[id].expires <= now)
    && (|gone| < 128 ==> forall id :: id in challenges && challenges[id].expires <= now ==> id in gone)
  }

  function BeginChallenge(rows: Rows, offer: Offer, resolved: Resolution, now: int, gone: set<Id>): Result<Rows, Error> {
    if !(1 <= offer.seconds <= LONGEST) then Err(Configuration)
    else if !resolved.allowed || resolved.principal !in rows.accounts || !rows.accounts[resolved.principal].Active()
    then Err(Rejected)
    else
      var account := rows.accounts[resolved.principal];
      var kept := rows.challenges - gone;
      if |kept| >= CHALLENGE_LIMIT then Err(Rejected)
      else Ok(rows.(challenges := kept[offer.id := Challenge(
        resolved.principal, offer.binding, offer.audience, offer.nonce, offer.browser, account.epoch, account.memberEpoch,
        now, now + offer.seconds, offer.purpose, offer.target)]))
  }

  function Find(rows: Rows, call: Named, now: int): Result<Challenge, Error> {
    if call.id !in rows.challenges then Err(Rejected)
    else
      var row := rows.challenges[call.id];
      if row.nonce != call.nonce || row.browser != call.browser || now < row.created || now >= row.expires
      then Err(Rejected)
      else Ok(row)
  }

  predicate Acceptable(evidence: Evidence) {
    evidence.keyPossession && (evidence.authenticatedAt.Some? ==> evidence.userVerification)
  }

  /** `context` is the row an earlier transaction read and the evidence was verified against. */
  function CompleteChallenge(
    rows: Rows, call: Named, context: Challenge, evidence: Evidence, host: Host, session: Id, at: Reads
  ): Result<Rows, Error>
  {
    var found := Find(rows, call, at.first);
    if found.Err? then Err(found.error) else
    var row := found.value;
    if row.binding != context.binding || row.audience != context.audience then Err(Rejected)
    else if row.principal !in rows.accounts then Err(Rejected) else
    var account := rows.accounts[row.principal];
    if !account.Active() || account.epoch != row.epoch || account.memberEpoch != row.memberEpoch then Err(Rejected)
    else if host.audience != context.audience || !host.allowed then Err(Rejected)
    else if row.purpose != context.purpose || row.target != host.target then Err(Rejected)
    else if evidence.authenticatedAt.Some?
      && !(Saturated(context.created - CLOCK_SKEW) <= evidence.authenticatedAt.value <= at.now)
    then Err(Rejected)
    else if at.last >= row.expires then Err(Rejected)
    else
      Ok(Rows(
        rows.challenges - {call.id},
        rows.accounts,
        rows.sessions[session := PlatformSession(
          row.principal, account.epoch, account.memberEpoch, row.binding, row.audience, evidence.authenticatedAt)]))
  }

  // The tables changed row by row

  class ChallengeStore {
    var challenges: map<Id, Challenge>
    var accounts: map<Id, Account>
    var sessions: map<Id, PlatformSession>

    function View(): Rows
      reads this
    {
      Rows(challenges, accounts, sessions)
    }

    method Cleanup(now: int) returns (ghost gone: set<Id>)
      modifies this`challenges
      ensures CleanupAllowed(old(challenges), now, gone) && challenges == old(challenges) - gone
    {
      gone := {};
      var n := 0;
      assert challenges - gone == challenges;
      while n < CLEANUP_LIMIT && exists id :: id in challenges && challenges[id].expires <= now
        invariant n == |gone| <= CLEANUP_LIMIT
        invariant gone <= old(challenges).Keys && challenges == old(challenges) - gone
        invariant forall id :: id in gone ==> old(challenges)[id].expires <= now
      {
        var id :| id in challenges && challenges[id].expires <= now;
        challenges := challenges - {id};
        gone := gone + {id};
        n := n + 1;
      }
      forall id | |gone| < CLEANUP_LIMIT && id in old(challenges) && old(challenges)[id].expires <= now ensures id in gone {
        assert id in gone || id in challenges;
      }
    }

    method Insert(id: Id, row: Challenge, now: int) returns (r: Result<(), Error>, ghost gone: set<Id>)
      modifies this`challenges
      ensures CleanupAllowed(old(challenges), now, gone)
      ensures r.Err? <==> |old(challenges) - gone| >= CHALLENGE_LIMIT
      ensures challenges == if r.Err? then old(challenges) else (old(challenges) - gone)[id := row]
      ensures r == Ok(()) || r == Err(Rejected)
    {
      var before := challenges;
      gone := Cleanup(now);
      if |challenges| >= CHALLENGE_LIMIT {
        challenges := before;
        return Err(Rejected), gone;
      }
      challenges := challenges[id := row];
      r := Ok(());
    }

    method BeginLogin(offer: Offer, resolved: Resolution, now: int) returns (r: Result<(), Error>, ghost gone: set<Id>)
      modifies this`challenges
      ensures r.Ok? ==> CleanupAllowed(old(challenges), now, gone)
      ensures match BeginChallenge(old(View()), offer, resolved, now, gone)
        case Ok(rows) => r == Ok(()) && View() == rows
        case Err(e) => r == Err(e) && View() == old(View())
    {
      gone := {};
      if !(1 <= offer.seconds <= LONGEST) { return Err(Configuration), gone; }
      if !resolved.allowed || resolved.principal !in accounts { return Err(Rejected), gone; }
      var state := accounts[resolved.principal];
      if !state.Active() { return Err(Rejected), gone; }
      var row := Challenge(
        resolved.principal, offer.binding, offer.audience, offer.nonce, offer.browser, state.epoch, state.memberEpoch,
        now, now + offer.seconds, offer.purpose, offer.target);
      r, gone := Insert(offer.id, row, now);
    }

    method CompleteLogin(call: Named, context: Challenge, evidence: Evidence, host: Host, session: Id, at: Reads)
      returns (r: Result<(), Error>)
      modifies this
      ensures match CompleteChallenge(old(View()), call, context, evidence, host, session, at)
        case Ok(rows) => r == Ok(()) && View() == rows
        case Err(e) => r == Err(e) && View() == old(View())
    {
      var found := Find(View(), call, at.first);
      if found.Err? { return Err(found.error); }
      var row := found.value;
      if row.binding != context.binding || row.audience != context.audience { return Err(Rejected); }
      if row.principal !in accounts { return Err(Rejected); }
      var state := accounts[row.principal];
      if !state.Active() || state.epoch != row.epoch || state.memberEpoch != row.memberEpoch { return Err(Rejected); }
      if host.audience != context.audience || !host.allowed { return Err(Rejected); }
      if row.purpose != context.purpose || row.target != host.target { return Err(Rejected); }
      if evidence.authenticatedAt.Some? {
        var t := evidence.authenticatedAt.value;
        if t < Saturated(context.created - CLOCK_SKEW) || t > at.now { return Err(Rejected); }
      }
      var before := sessions;
      sessions := sessions[session := PlatformSession(
        row.principal, state.epoch, state.memberEpoch, row.binding, row.audience, evidence.authenticatedAt)];
      if at.last >= row.expires {
        sessions := before;
        return Err(Rejected);
      }
      challenges := challenges - {call.id};
      r := Ok(());
    }
  }

  // Runs

  datatype Event = Offered(id: Id) | Verified(id: Id) | LoggedIn(id: Id, session: Id, at: int)

  /** `contexts` are the rows handed to verifications so far; a process may complete with any of them, at any time. */
  datatype World = World(rows: Rows, clock: int, used: set<Id>, contexts: set<(Id, Challenge)>, log: seq<Event>)

  datatype Step =
    | BeginStep(offer: Offer, resolved: Resolution, now: int, gone: set<Id>)
    | VerifyStep(call: Named, now: int, evidence: Evidence)
    | CompleteStep(call: Named, context: Challenge, evidence: Evidence, host: Host, session: Id, at: Reads)
    | AccountStep(principal: Id, account: Account)

  function Times(log: seq<Event>, id: Id): nat {
    if log == [] then 0
    else
      var e := log[|log| - 1];
      Times(log[..|log| - 1], id) + (if e.LoggedIn? && e.id == id then 1 else 0)
  }

  lemma TimesPush(log: seq<Event>, e: Event, id: Id)
    ensures Times(log + [e], id) == Times(log, id) + (if e.LoggedIn? && e.id == id then 1 else 0)
  {
    assert (log + [e])[..|log|] == log;
  }

  ghost predicate Possible(w: World, s: Step) {
    match s
    case BeginStep(offer, resolved, now, gone) =>
      w.clock <= now && offer.id !in w.used && CleanupAllowed(w.rows.challenges, now, gone)
    case VerifyStep(call, now, evidence) => w.clock <= now
    case CompleteStep(call, context, evidence, host, session, at) =>
      && w.clock <= at.first <= at.now <= at.last
      && (call.id, context) in w.contexts && Acceptable(evidence) && session !in w.used
    case AccountStep(principal, account) =>
      principal in w.rows.accounts ==>
        w.rows.accounts[principal].epoch <= account.epoch && w.rows.accounts[principal].memberEpoch <= account.memberEpoch
  }

  /** A step that is not possible, or is rejected, changes nothing. */
  ghost function After(w: World, s: Step): World {
    if !Possible(w, s) then w else
    match s
    case BeginStep(offer, resolved, now, gone) =>
      var r := BeginChallenge(w.rows, offer, resolved, now, gone);
      if r.Err? then w
      else World(r.value, now, w.used + {offer.id}, w.contexts, w.log + [Offered(offer.id)])
    case VerifyStep(call, now, evidence) =>
      var r := Find(w.rows, call, now);
      if r.Err? then w
      else w.(clock := now, contexts := w.contexts + {(call.id, r.value)}, log := w.log + [Verified(call.id)])
    case CompleteStep(call, context, evidence, host, session, at) =>
      var r := CompleteChallenge(w.rows, call, context, evidence, host, session, at);
      if r.Err? then w
      else World(r.value, at.last, w.used + {session}, w.contexts, w.log + [LoggedIn(call.id, session, at.last)])
    case AccountStep(principal, account) => w.(rows := w.rows.(accounts := w.rows.accounts[principal := account]))
  }

  ghost function Run(w: World, steps: seq<Step>): World
    decreases |steps|
  {
    if steps == [] then w else Run(After(w, steps[0]), steps[1..])
  }

  ghost predicate Initial(w: World) {
    w.rows.challenges == map[] && w.contexts == {} && w.log == []
  }

  /** Every login's session is in the tables or was closed there; what matters is which challenge it used up. */
  ghost predicate Inv(w: World) {
    && w.rows.challenges.Keys <= w.used
    && |w.rows.challenges| <= CHALLENGE_LIMIT
    && (forall id {:trigger Times(w.log, id)} ::
          && Times(w.log, id) <= 1
          && (id !in w.used ==> Times(w.log, id) == 0)
          && (id in w.rows.challenges ==> Times(w.log, id) == 0))
    && (forall id :: id in w.rows.challenges ==>
          0 < w.rows.challenges[id].expires - w.rows.challenges[id].created <= LONGEST)
    && (forall c :: c in w.contexts ==>
          c.0 in w.used && (c.0 in w.rows.challenges ==> w.rows.challenges[c.0] == c.1))
  }

  ghost predicate Later(v: World, w: World) {
    && v.used <= w.used && v.contexts <= w.contexts && v.log <= w.log && v.clock <= w.clock
    && (forall p :: p in v.rows.accounts ==>
          && p in w.rows.accounts
          && v.rows.accounts[p].epoch <= w.rows.accounts[p].epoch
          && v.rows.accounts[p].memberEpoch <= w.rows.accounts[p].memberEpoch)
    && (forall id :: id in w.rows.challenges && id in v.used ==>
          id in v.rows.challenges && w.rows.challenges[id] == v.rows.challenges[id])
  }

  lemma BeginKeeps(w: World, s: Step)
    requires Inv(w) && s.BeginStep?
    ensures Inv(After(w, s)) && Later(w, After(w, s))
  {
    if After(w, s) != w {
      var kept := w.rows.challenges - s.gone;
      assert |kept| < CHALLENGE_LIMIT;
      assert After(w, s).rows.challenges.Keys == kept.Keys + {s.offer.id};
      forall id ensures Times(After(w, s).log, id) == Times(w.log, id) {
        TimesPush(w.log, Offered(s.offer.id), id);
      }
    }
  }

  lemma VerifyKeeps(w: World, s: Step)
    requires Inv(w) && s.VerifyStep?
    ensures Inv(After(w, s)) && Later(w, After(w, s))
  {
    if After(w, s) != w {
      forall id ensures Times(After(w, s).log, id) == Times(w.log, id) {
        TimesPush(w.log, Verified(s.call.id), id);
      }
    }
  }

  lemma CompleteKeeps(w: World, s: Step)
    requires Inv(w) && s.CompleteStep?
    ensures Inv(After(w, s)) && Later(w, After(w, s))
  {
    if After(w, s) != w {
      assert w.rows.challenges.Keys == After(w, s).rows.challenges.Keys + {s.call.id};
      forall id ensures Times(After(w, s).log, id) == Times(w.log, id) + (if id == s.call.id then 1 else 0) {
        TimesPush(w.log, LoggedIn(s.call.id, s.session, s.at.last), id);
      }
    }
  }

  lemma StepKeeps(w: World, s: Step)
    requires Inv(w)
    ensures Inv(After(w, s)) && Later(w, After(w, s))
  {
    match s
    case BeginStep(_, _, _, _) => BeginKeeps(w, s);
    case VerifyStep(_, _, _) => VerifyKeeps(w, s);
    case CompleteStep(_, _, _, _, _, _) => CompleteKeeps(w, s);
    case AccountStep(_, _) =>
  }

  lemma {:induction false} RunKeeps(w: World, steps: seq<Step>)
    requires Inv(w)
    ensures Inv(Run(w, steps)) && Later(w, Run(w, steps))
    decreases |steps|
  {
    if steps != [] {
      StepKeeps(w, steps[0]);
      RunKeeps(After(w, steps[0]), steps[1..]);
    }
  }

  /** However often its evidence was verified, and by however many processes, a challenge yields at most one session. */
  lemma OneSessionPerChallenge(start: World, steps: seq<Step>, id: Id)
    requires Initial(start)
    ensures Times(Run(start, steps).log, id) <= 1
    ensures |Run(start, steps).rows.challenges| <= 10000
  {
    RunKeeps(start, steps);
    assert Times(Run(start, steps).log, id) <= 1;
  }

  /**
    A completed login is for the principal of the challenge the evidence was verified against, at the epochs the
    account had when the challenge began, within its lifetime, under its binding and audience, and on evidence no older
    than the challenge but for the clock skew.
  */
  lemma LoginIsForTheStarter(start: World, steps: seq<Step>, s: Step)
    requires Initial(start) && s.CompleteStep? && After(Run(start, steps), s) != Run(start, steps)
    ensures
      var w := Run(start, steps);
      var next := After(w, s);
      && s.call.id in w.rows.challenges && w.rows.challenges[s.call.id] == s.context
      && s.call.id !in next.rows.challenges
      && s.session in next.rows.sessions
      && var session := next.rows.sessions[s.session];
      && session.principal == s.context.principal && session.binding == s.context.binding
      && session.audience == s.context.audience == s.host.audience
      && session.epoch == s.context.epoch && session.memberEpoch == s.context.memberEpoch
      && session.principal in w.rows.accounts && w.rows.accounts[session.principal].epoch == s.context.epoch
      && s.context.created <= s.at.first && s.at.last < s.context.expires <= s.context.created + 120
      && s.call.browser == s.context.browser && s.call.nonce == s.context.nonce
      && s.evidence.keyPossession
      && (s.evidence.authenticatedAt.Some? ==>
            && s.evidence.userVerification
            && Saturated(s.context.created - 30) <= s.evidence.authenticatedAt.value <= s.at.now)
  {
    RunKeeps(start, steps);
  }

  // When the transactions commit

  /**
    A challenge is stored exactly for a lifetime of one to 120 seconds, an active account the host allows, and where the
    cleanup leaves room; it is bound to all that was offered and to the account's epochs.
  */
  lemma BeginsExactly(rows: Rows, offer: Offer, resolved: Resolution, now: int, gone: set<Id>)
    ensures
      var r := BeginChallenge(rows, offer, resolved, now, gone);
      && (r.Ok? <==>
            && 1 <= offer.seconds <= 120
            && resolved.allowed && resolved.principal in rows.accounts
            && rows.accounts[resolved.principal].enabled && rows.accounts[resolved.principal].memberActive
            && |rows.challenges - gone| < 10000)
      && (r.Err? ==> r.error == if 1 <= offer.seconds <= 120 then Rejected else Configuration)
      && (r.Ok? ==>
            var account := rows.accounts[resolved.principal];
            r.value == rows.(challenges := (rows.challenges - gone)[offer.id := Challenge(
              resolved.principal, offer.binding, offer.audience, offer.nonce, offer.browser, account.epoch,
              account.memberEpoch, now, now + offer.seconds, offer.purpose, offer.target)]))
  {
  }

  /** A challenge is read, to be verified, exactly with its nonce and browser and within its lifetime. */
  lemma FindsExactly(rows: Rows, call: Named, now: int)
    ensures
      var r := Find(rows, call, now);
      && (r.Ok? <==>
            && call.id in rows.challenges
            && var row := rows.challenges[call.id];
            && row.nonce == call.nonce && row.browser == call.browser && row.created <= now < row.expires)
      && (if r.Ok? then r.value == rows.challenges[call.id] else r.error == Rejected)
  {
  }

  /**
    Whatever was verified, a completion commits exactly when the row it finds is the one that was verified, in binding,
    audience and purpose, and nothing has changed since; every refusal is a rejection.
  */
  lemma CompletesWhen(
    rows: Rows, call: Named, context: Challenge, evidence: Evidence, host: Host, session: Id, at: Reads)
    ensures
      var r := CompleteChallenge(rows, call, context, evidence, host, session, at);
      && (r.Ok? <==>
            && call.id in rows.challenges
            && var row := rows.challenges[call.id];
            && call.nonce == row.nonce && call.browser == row.browser
            && row.created <= at.first < row.expires && at.last < row.expires
            && row.binding == context.binding && row.audience == context.audience && row.purpose == context.purpose
            && row.principal in rows.accounts
            && var account := rows.accounts[row.principal];
            && account.enabled && account.memberActive
            && account.epoch == row.epoch && account.memberEpoch == row.memberEpoch
            && host.allowed && host.audience == row.audience && host.target == row.target
            && (evidence.authenticatedAt.Some? ==>
                  Saturated(context.created - 30) <= evidence.authenticatedAt.value <= at.now))
      && (r.Err? ==> r.error == Rejected)
  {
  }

  /** What a caller can check before it completes the challenge it had verified. */
  predicate Completable(rows: Rows, call: Named, evidence: Evidence, host: Host, at: Reads) {
    && call.id in rows.challenges
    && var row := rows.challenges[call.id];
    && call.nonce == row.nonce && call.browser == row.browser
    && row.created <= at.first < row.expires && at.last < row.expires
    && row.principal in rows.accounts
    && var account := rows.accounts[row.principal];
    && account.enabled && account.memberActive && account.epoch == row.epoch && account.memberEpoch == row.memberEpoch
    && host.allowed && host.audience == row.audience && host.target == row.target
    && (evidence.authenticatedAt.Some? ==>
          Saturated(row.created - 30) <= evidence.authenticatedAt.value <= at.now)
  }

  /**
    In every run a completion commits exactly when the named challenge is open and its own, its account is as it was, and
    the host still allows its audience and target; it leaves the session and deletes the challenge.
  */
  lemma CompletesExactly(start: World, steps: seq<Step>, s: Step)
    requires Initial(start) && s.CompleteStep? && Possible(Run(start, steps), s)
    ensures
      var rows := Run(start, steps).rows;
      var r := CompleteChallenge(rows, s.call, s.context, s.evidence, s.host, s.session, s.at);
      && (r.Ok? <==> Completable(rows, s.call, s.evidence, s.host, s.at))
      && (r.Ok? ==>
            var row := rows.challenges[s.call.id];
            r.value == rows.(
              challenges := rows.challenges - {s.call.id},
              sessions := rows.sessions[s.session := PlatformSession(
                row.principal, row.epoch, row.memberEpoch, row.binding, row.audience, s.evidence.authenticatedAt)]))
  {
    RunKeeps(start, steps);
  }

  /** A change of the account's epochs while a challenge is open ends it: no later completion of it commits. */
  lemma EpochChangeKillsChallenge(w: World, more: seq<Step>, id: Id, s: Step)
    requires Inv(w) && id in w.rows.challenges && s.CompleteStep? && s.call.id == id
    requires var row := w.rows.challenges[id];
      && row.principal in w.rows.accounts
      && (w.rows.accounts[row.principal].epoch > row.epoch || w.rows.accounts[row.principal].memberEpoch > row.memberEpoch)
    ensures After(Run(w, more), s) == Run(w, more)
  {
    RunKeeps(w, more);
    var next := Run(w, more);
    if id in next.rows.challenges {
      assert next.rows.challenges[id] == w.rows.challenges[id];
    }
  }

  ghost function Repeat(s: Step, n: nat): seq<Step> {
    if n == 0 then [] else [s] + Repeat(s, n - 1)
  }

  function Verifications(log: seq<Event>, id: Id): nat {
    if log == [] then 0
    else
      var e := log[|log| - 1];
      Verifications(log[..|log| - 1], id) + (if e.Verified? && e.id == id then 1 else 0)
  }

  lemma VerifiedOnce(w: World, s: Step)
    requires s.VerifyStep? && w.clock <= s.now && Find(w.rows, s.call, s.now).Ok?
    ensures After(w, s).rows == w.rows && After(w, s).clock == s.now
    ensures Verifications(After(w, s).log, s.call.id) == Verifications(w.log, s.call.id) + 1
  {
    var log := After(w, s).log;
    assert log == w.log + [Verified(s.call.id)] && log[..|w.log|] == w.log;
  }

  lemma RunFirst(w: World, s: Step, more: seq<Step>)
    ensures Run(w, [s] + more) == Run(After(w, s), more)
  {
    assert ([s] + more)[1..] == more;
  }

  /** Reading and verifying can be repeated any number of times; the tables do not notice. */
  lemma {:induction false} VerifiedAnyNumberOfTimes(w: World, s: Step, n: nat)
    requires s.VerifyStep? && w.clock <= s.now && Find(w.rows, s.call, s.now).Ok?
    ensures Run(w, Repeat(s, n)).rows == w.rows
    ensures Verifications(Run(w, Repeat(s, n)).log, s.call.id) == Verifications(w.log, s.call.id) + n
    decreases n
  {
    if n > 0 {
      VerifiedOnce(w, s);
      RunFirst(w, s, Repeat(s, n - 1));
      VerifiedAnyNumberOfTimes(After(w, s), s, n - 1);
    }
  }
}
