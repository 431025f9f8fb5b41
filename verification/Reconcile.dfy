/**
  The assurance reconcile: rewrites every provider whose stored fingerprint is not the approved one, in batches of at
  most `MAX_MUTATION_EVENTS` rows, each batch one transaction.
*/
module Reconcile {
  import opened Common
  import opened Federation
  import opened FederationRuns
  import opened FederationInvariants
  import opened FederationSteps
  import opened FederationStore
  import opened FederationTheorems
  import opened Ordering

  const MAX_MUTATION_EVENTS: nat := 8

  type Providers = map<Id, Provider>

  predicate Mismatch(row: Provider, approve: Settings -> Id) {
    row.assurance != approve(row.settings)
  }

  function Mismatched(providers: Providers, approve: Settings -> Id): set<Id> {
    set id | id in providers && Mismatch(providers[id], approve)
  }

  predicate AtLimit(row: Provider) {
    row.version == I64_MAX || row.epoch == I64_MAX
  }

  /** One rewrite of a row: version and epoch rise by one, the fingerprint is the approved one, the rest stays. */
  predicate RewrittenRow(before: Provider, after: Provider, approve: Settings -> Id) {
    && after.version == before.version + 1
    && after.epoch == before.epoch + 1
    && after.assurance == approve(before.settings)
    && after == before.(version := after.version, epoch := after.epoch, assurance := after.assurance)
  }

  /** Exactly the rows in `done` were rewritten, once each, and each of them was mismatched. */
  ghost predicate Rewritten(before: Providers, after: Providers, done: set<Id>, approve: Settings -> Id) {
    && after.Keys == before.Keys
    && (forall id :: id in done ==>
          id in before && Mismatch(before[id], approve) && RewrittenRow(before[id], after[id], approve))
    && (forall id :: id in before && id !in done ==> after[id] == before[id])
  }

  /** Too many providers, or a mismatched one whose version or epoch cannot rise. */
  ghost predicate Blocked(providers: Providers, approve: Settings -> Id) {
    || |providers| > PROVIDER_LIMIT
    || (exists id :: id in providers && Mismatch(providers[id], approve) && AtLimit(providers[id]))
  }

  /** What blocks a later batch blocked the reconcile from the start. */
  lemma BlockedBefore(before: Providers, was: Providers, done: set<Id>, approve: Settings -> Id)
    requires Rewritten(before, was, done, approve) && Blocked(was, approve)
    ensures Blocked(before, approve)
  {
    assert |before| == |before.Keys| && |was| == |was.Keys|;
    if |was| <= PROVIDER_LIMIT {
      var id :| id in was && Mismatch(was[id], approve) && AtLimit(was[id]);
      assert id !in done && was[id] == before[id];
    }
  }

  /** With nothing mismatched left, exactly the mismatched providers were rewritten, and none was at its limit. */
  lemma NothingLeft(before: Providers, after: Providers, done: set<Id>, approve: Settings -> Id)
    requires Rewritten(before, after, done, approve) && Mismatched(after, approve) == {} && |after| <= PROVIDER_LIMIT
    ensures done == Mismatched(before, approve) && !Blocked(before, approve)
  {
    assert |before| == |before.Keys| && |after| == |after.Keys|;
    forall id | id in before && Mismatch(before[id], approve) ensures id in done && !AtLimit(before[id]) {
      assert id !in Mismatched(after, approve);
    }
  }

  lemma RewrittenLeaves(before: Providers, after: Providers, done: set<Id>, approve: Settings -> Id)
    requires Rewritten(before, after, done, approve)
    ensures Mismatched(after, approve) == Mismatched(before, approve) - done
    ensures |Mismatched(after, approve)| == |Mismatched(before, approve)| - |done|
  {
    assert Mismatched(after, approve) == Mismatched(before, approve) - done;
  }

  lemma RewrittenCompose(a: Providers, b: Providers, c: Providers, ab: set<Id>, bc: set<Id>, approve: Settings -> Id)
    requires Rewritten(a, b, ab, approve) && Rewritten(b, c, bc, approve)
    ensures ab !! bc && Rewritten(a, c, ab + bc, approve)
  {
    RewrittenLeaves(a, b, ab, approve);
  }

  /** Rewriting one row is the transaction step of the federation runs. */
  lemma RewriteIsReprofile(db: Tables, id: Id, approve: Settings -> Id)
    requires id in db.providers && Mismatch(db.providers[id], approve)
    ensures
      var r := Reprofile(db, id, approve(db.providers[id].settings));
      && (r.RolledBack? <==> AtLimit(db.providers[id]))
      && (r.Committed? ==>
            Rewritten(db.providers, r.db.providers, {id}, approve) && r.db == db.(providers := r.db.providers))
  {
  }

  /** The turn of one provider in a batch; tells whether its row was rewritten. */
  method ReprofileRow(store: Store, id: Id, approve: Settings -> Id) returns (r: Result<bool, Error>)
    requires id in store.providers
    modifies store`providers
    ensures r.Err? ==> Mismatch(old(store.providers)[id], approve) && AtLimit(old(store.providers)[id])
    ensures r == Ok(false) ==> store.providers == old(store.providers) && !Mismatch(store.providers[id], approve)
    ensures r == Ok(true) ==> Rewritten(old(store.providers), store.providers, {id}, approve)
  {
    var view := store.providers[id];
    var profile := approve(view.settings);
    if profile == view.assurance { return Ok(false); }
    var version := Checked(view.version + 1);
    if version.None? { return Err(Rejected); }
    var epoch := Checked(view.epoch + 1);
    if epoch.None? { return Err(Rejected); }
    store.providers := store.providers[id := view.(version := version.value, epoch := epoch.value, assurance := profile)];
    r := Ok(true);
  }

  /** One transaction; `more` asks for another. The events are the identifiers of the rewritten providers. */
  method Batch(store: Store, approve: Settings -> Id) returns (r: Result<(bool, seq<Id>), Error>)
    modifies store`providers
    ensures r.Err? ==> store.providers == old(store.providers)
    ensures r.Err? ==> Blocked(old(store.providers), approve)
    ensures r.Ok? ==>
      && Distinct(r.value.1) && |r.value.1| <= 8
      && Rewritten(old(store.providers), store.providers, Elements(r.value.1), approve)
      && (r.value.0 ==> |r.value.1| == 8)
      && (!r.value.0 ==> Mismatched(store.providers, approve) == {} && |store.providers| <= PROVIDER_LIMIT)
  {
    ghost var before := store.providers;
    var ids := SelectIds(store.providers.Keys, PROVIDER_LIMIT + 1);
    AscendingCount(ids, store.providers.Keys);
    if |ids| > PROVIDER_LIMIT { return Err(Rejected); }
    if ids == [] { return Ok((false, [])); }
    r := Sweep(store, ids, approve);
    if r.Ok? && !r.value.0 {
      Visited(ids, store.providers, approve);
    }
  }

  method Sweep(store: Store, ids: seq<Id>, approve: Settings -> Id) returns (r: Result<(bool, seq<Id>), Error>)
    requires Ascending(ids) && forall id :: id in ids ==> id in store.providers
    modifies store`providers
    ensures r.Err? ==> store.providers == old(store.providers) && Blocked(old(store.providers), approve)
    ensures r.Ok? ==>
      && Distinct(r.value.1) && |r.value.1| <= 8
      && Rewritten(old(store.providers), store.providers, Elements(r.value.1), approve)
      && (if r.value.0 then |r.value.1| == 8
          else forall id :: id in ids ==> !Mismatch(store.providers[id], approve))
  {
    var before := store.providers;
    var events: seq<Id> := [];
    for i := 0 to |ids|
      invariant Progress(before, store.providers, ids, i, events, approve) && |events| < MAX_MUTATION_EVENTS
    {
      ghost var was := store.providers;
      var row := ReprofileRow(store, ids[i], approve);
      if row.Err? {
        BlockedBefore(before, was, Elements(events), approve);
        store.providers := before;
        return Err(row.error);
      }
      if row.value {
        RowRewritten(before, was, store.providers, ids, i, events, approve);
        events := events + [ids[i]];
        if |events| == MAX_MUTATION_EVENTS { return Ok((true, events)); }
      }
    }
    r := Ok((false, events));
  }

  /** After the turns of the first `i` identifiers. */
  ghost predicate Progress(
    before: Providers, now: Providers, ids: seq<Id>, i: nat, events: seq<Id>, approve: Settings -> Id)
  {
    && i <= |ids| && Distinct(events)
    && Rewritten(before, now, Elements(events), approve)
    && (forall id :: id in ids ==> id in now)
    && (forall j :: i <= j < |ids| ==> ids[j] !in events)
    && (forall j :: 0 <= j < i ==> !Mismatch(now[ids[j]], approve))
  }

  lemma RowRewritten(
    before: Providers, was: Providers, now: Providers, ids: seq<Id>, i: nat, events: seq<Id>, approve: Settings -> Id)
    requires Progress(before, was, ids, i, events, approve) && i < |ids| && Ascending(ids)
    requires Rewritten(was, now, {ids[i]}, approve)
    ensures Progress(before, now, ids, i + 1, events + [ids[i]], approve)
  {
    RewrittenCompose(before, was, now, Elements(events), {ids[i]}, approve);
    ElementsAppend(events, ids[i]);
  }

  lemma Visited(ids: seq<Id>, providers: Providers, approve: Settings -> Id)
    requires |ids| <= PROVIDER_LIMIT && Ascending(ids)
    requires (forall id :: id in ids ==> id in providers) && (forall id :: id in providers ==> id in ids)
    requires forall id :: id in ids ==> !Mismatch(providers[id], approve)
    ensures Mismatched(providers, approve) == {} && |providers| <= PROVIDER_LIMIT
  {
    AscendingCount(ids, providers.Keys);
    assert |providers| == |providers.Keys|;
  }

  /**
    The whole reconcile. It ends because every continuing batch leaves fewer mismatched providers. `batches` lists the
    events of each committed transaction.
  */
  method ReconcileAssuranceProfiles(store: Store, approve: Settings -> Id)
    returns (r: Result<(), Error>, batches: seq<seq<Id>>)
    modifies store`providers
    ensures Reconciling(old(store.providers), store.providers, batches, approve)
    ensures r.Ok? <==> !Blocked(old(store.providers), approve)
    ensures r.Ok? ==>
      && Elements(Flat(batches)) == Mismatched(old(store.providers), approve)
      && Mismatched(store.providers, approve) == {}
  {
    batches := [];
    ghost var before := store.providers;
    var more := true;
    while more
      invariant Reconciling(before, store.providers, batches, approve)
      invariant !more ==> Mismatched(store.providers, approve) == {} && |store.providers| <= PROVIDER_LIMIT
      decreases more, |Mismatched(store.providers, approve)|
    {
      ghost var was := store.providers;
      var batch := Batch(store, approve);
      if batch.Err? {
        BlockedBefore(before, was, Elements(Flat(batches)), approve);
        return Err(batch.error), batches;
      }
      BatchCommitted(before, was, store.providers, batches, batch.value.1, approve);
      batches := batches + [batch.value.1];
      more := batch.value.0;
    }
    NothingLeft(before, store.providers, Elements(Flat(batches)), approve);
    r := Ok(());
  }

  /** After the committed transactions of these batches. */
  ghost predicate Reconciling(before: Providers, now: Providers, batches: seq<seq<Id>>, approve: Settings -> Id) {
    && Distinct(Flat(batches))
    && Rewritten(before, now, Elements(Flat(batches)), approve)
    && (forall i :: 0 <= i < |batches| ==> |batches[i]| <= 8)
  }

  lemma BatchLeaves(was: Providers, now: Providers, batch: seq<Id>, approve: Settings -> Id)
    requires Distinct(batch) && Rewritten(was, now, Elements(batch), approve)
    ensures |Mismatched(now, approve)| == |Mismatched(was, approve)| - |batch|
  {
    RewrittenLeaves(was, now, Elements(batch), approve);
    DistinctCount(batch);
  }

  lemma BatchCommitted(
    before: Providers, was: Providers, now: Providers, batches: seq<seq<Id>>, batch: seq<Id>, approve: Settings -> Id)
    requires Reconciling(before, was, batches, approve)
    requires Distinct(batch) && |batch| <= 8 && Rewritten(was, now, Elements(batch), approve)
    ensures Reconciling(before, now, batches + [batch], approve)
    ensures |Mismatched(now, approve)| == |Mismatched(was, approve)| - |batch|
  {
    BatchLeaves(was, now, batch, approve);
    RewrittenCompose(before, was, now, Elements(Flat(batches)), Elements(batch), approve);
    Appended(batches, batch);
  }

  ghost function Flat<T>(s: seq<seq<T>>): seq<T> {
    if s == [] then [] else Flat(s[..|s| - 1]) + s[|s| - 1]
  }

  lemma Appended(batches: seq<seq<Id>>, batch: seq<Id>)
    requires Distinct(Flat(batches)) && Distinct(batch) && Elements(Flat(batches)) !! Elements(batch)
    ensures Flat(batches + [batch]) == Flat(batches) + batch && Distinct(Flat(batches + [batch]))
    ensures Elements(Flat(batches + [batch])) == Elements(Flat(batches)) + Elements(batch)
  {
    assert (batches + [batch])[..|batches|] == batches;
    var all := Flat(batches) + batch;
    forall i, j | 0 <= i < j < |all| ensures all[i] != all[j] {
      if i < |Flat(batches)| <= j {
        assert all[i] in Elements(Flat(batches)) && all[j] in Elements(batch);
      }
    }
  }

  // Under interference

  /** Provider writes of this host carry the fingerprint it approves for the settings they store. */
  predicate Approved(s: Step, approve: Settings -> Id) {
    match s
    case CreateProviderStep(_, settings, assurance) => assurance == approve(settings)
    case EditProviderStep(_, _, settings, assurance) => assurance == approve(settings)
    case _ => !s.ReprofileStep?
  }

  /** Transactions of the same host between two batches add no mismatch, so the batches still run out of them. */
  lemma OthersAddNoMismatch(w: World, s: Step, approve: Settings -> Id)
    requires Approved(s, approve) && (forall id :: id in w.db.providers ==> id in w.used)
    ensures Mismatched(After(w, s).db.providers, approve) <= Mismatched(w.db.providers, approve)
  {
    if Possible(w, s) && ProviderStep(s) {
      OneRowWritten(w, s, approve);
    } else {
      SameProviders(w, s);
    }
  }

  lemma OneRowWritten(w: World, s: Step, approve: Settings -> Id)
    requires Approved(s, approve) && ProviderStep(s) && Possible(w, s)
    ensures Mismatched(After(w, s).db.providers, approve) <= Mismatched(w.db.providers, approve)
  {
  }

  lemma SameProviders(w: World, s: Step)
    requires !Possible(w, s) || !ProviderStep(s)
    ensures After(w, s).db.providers == w.db.providers
  {
    if Possible(w, s) {
      if s.CompleteStep? {
        CompletionProviders(w, s);
      } else if s.FinishReauthenticationStep? {
        if AfterFinishReauthentication(w, s) != Landed(w, s.call.attempt) {
          var id, row, added := FinishShape(w, s);
        }
      } else {
        OtherProviders(w, s);
      }
    }
  }

  lemma CompletionProviders(w: World, s: Step)
    requires s.CompleteStep?
    ensures AfterComplete(w, s).db.providers == w.db.providers
  {
    var r := Complete(w.db, s.call, s.claims, s.profile, s.drawn, s.expires, s.at);
    if r.Committed? {
      CompleteShape(w, s, r);
      var admission := Admit(w.db, s.call, s.profile, s.at).value;
      TailProviders(s, admission, Resolve(w.db, admission, s.claims, s.drawn).value);
    }
  }

  lemma TailProviders(s: Step, admission: Admission, resolved: Resolved)
    requires s.CompleteStep? && resolved.principal in resolved.db.accounts
    ensures var r := CompletionOf(s, admission, resolved); r.Committed? ==> r.db.providers == resolved.db.providers
  {
  }

  lemma OtherProviders(w: World, s: Step)
    requires Possible(w, s) && !ProviderStep(s) && !s.CompleteStep? && !s.FinishReauthenticationStep?
    ensures After(w, s).db.providers == w.db.providers
  {
    if s.BeginAuthenticationStep? {
      if AfterBegin(w, s) != w {
        var row := BeginShape(w, s);
      }
    } else if s.BeginLinkStep? {
      LinkProviders(w, s);
    } else {
      PlainProviders(w, s);
    }
  }

  lemma LinkProviders(w: World, s: Step)
    requires s.BeginLinkStep?
    ensures AfterBeginLink(w, s).db.providers == w.db.providers
  {
  }

  lemma PlainProviders(w: World, s: Step)
    requires Possible(w, s) && !ProviderStep(s) && !s.CompleteStep? && !s.FinishReauthenticationStep?
    requires !s.BeginAuthenticationStep? && !s.BeginLinkStep?
    ensures After(w, s).db.providers == w.db.providers
  {
  }

  /**
    What may happen while the reconcile runs: a transaction of another operation, or a batch (of this reconcile or of
    another one of the host) that commits these events.
  */
  datatype Move = Other(step: Step) | Batched(events: seq<Id>)

  ghost predicate Rewritable(providers: Providers, ids: seq<Id>, approve: Settings -> Id) {
    && Distinct(ids)
    && forall id :: id in ids ==> id in providers && Mismatch(providers[id], approve) && !AtLimit(providers[id])
  }

  ghost predicate Allowed(w: World, m: Move, approve: Settings -> Id) {
    match m
    case Other(s) => Approved(s, approve)
    case Batched(events) => |events| <= 8 && Rewritable(w.db.providers, events, approve)
  }

  /** The steps of a batch, one row after the other. */
  ghost function Rewriting(w: World, ids: seq<Id>, approve: Settings -> Id): World
    requires forall id :: id in ids ==> id in w.db.providers
  {
    if ids == [] then w
    else
      var n := |ids| - 1;
      After(Rewriting(w, ids[..n], approve), ReprofileStep(ids[n], approve(w.db.providers[ids[n]].settings)))
  }

  ghost function Moved(w: World, m: Move, approve: Settings -> Id): World
    requires Allowed(w, m, approve)
  {
    match m case Other(s) => After(w, s) case Batched(events) => Rewriting(w, events, approve)
  }

  ghost predicate AllAllowed(w: World, moves: seq<Move>, approve: Settings -> Id)
    decreases |moves|
  {
    moves != [] ==> Allowed(w, moves[0], approve) && AllAllowed(Moved(w, moves[0], approve), moves[1..], approve)
  }

  ghost function Interleaved(w: World, moves: seq<Move>, approve: Settings -> Id): World
    requires AllAllowed(w, moves, approve)
    decreases |moves|
  {
    if moves == [] then w else Interleaved(Moved(w, moves[0], approve), moves[1..], approve)
  }

  /** The batches that ask for another one: those that reached the event limit. */
  function Continuing(moves: seq<Move>): nat {
    if moves == [] then 0
    else (if moves[0].Batched? && |moves[0].events| == 8 then 1 else 0) + Continuing(moves[1..])
  }

  /** One more row: the step of the runs rewrites it, and no other. */
  lemma RowReprofiled(w: World, id: Id, approve: Settings -> Id)
    requires id in w.db.providers && Mismatch(w.db.providers[id], approve) && !AtLimit(w.db.providers[id])
    ensures Rewritten(
      w.db.providers, After(w, ReprofileStep(id, approve(w.db.providers[id].settings))).db.providers, {id}, approve)
  {
    RewriteIsReprofile(w.db, id, approve);
  }

  lemma {:induction false} RewritingKeeps(w: World, ids: seq<Id>, approve: Settings -> Id)
    requires Inv(w) && Rewritable(w.db.providers, ids, approve)
    ensures Inv(Rewriting(w, ids, approve))
    ensures Rewritten(w.db.providers, Rewriting(w, ids, approve).db.providers, Elements(ids), approve)
    decreases |ids|
  {
    if ids != [] {
      var n := |ids| - 1;
      var before, mid := w.db.providers, Rewriting(w, ids[..n], approve);
      RewritingKeeps(w, ids[..n], approve);
      NextRow(before, mid.db.providers, ids, approve);
      RowReprofiled(mid, ids[n], approve);
      StepKeeps(mid, ReprofileStep(ids[n], approve(before[ids[n]].settings)));
      OneMoreRow(before, mid.db.providers, Rewriting(w, ids, approve).db.providers, ids, approve);
    }
  }

  lemma NextRow(before: Providers, mid: Providers, ids: seq<Id>, approve: Settings -> Id)
    requires ids != [] && Rewritable(before, ids, approve)
    requires Rewritten(before, mid, Elements(ids[..|ids| - 1]), approve)
    ensures var id := ids[|ids| - 1]; id in mid && mid[id] == before[id]
  {
    assert ids[|ids| - 1] !in Elements(ids[..|ids| - 1]);
  }

  lemma OneMoreRow(before: Providers, mid: Providers, after: Providers, ids: seq<Id>, approve: Settings -> Id)
    requires ids != [] && Rewritten(before, mid, Elements(ids[..|ids| - 1]), approve)
    requires Rewritten(mid, after, {ids[|ids| - 1]}, approve)
    ensures Rewritten(before, after, Elements(ids), approve)
  {
    var n := |ids| - 1;
    RewrittenCompose(before, mid, after, Elements(ids[..n]), {ids[n]}, approve);
    assert Elements(ids) == Elements(ids[..n]) + {ids[n]};
  }

  lemma RewrittenOnce(before: Providers, a: Providers, b: Providers, done: set<Id>, approve: Settings -> Id)
    requires Rewritten(before, a, done, approve) && Rewritten(before, b, done, approve)
    ensures a == b
  {
    forall id | id in a ensures a[id] == b[id] {
      if id in done {
        assert RewrittenRow(before[id], a[id], approve) && RewrittenRow(before[id], b[id], approve);
      }
    }
  }

  /** What a committed batch promises of the tables is what its steps do in a run. */
  lemma BatchIsMove(w: World, after: Providers, events: seq<Id>, approve: Settings -> Id)
    requires Inv(w) && Distinct(events) && |events| <= 8
    requires Rewritten(w.db.providers, after, Elements(events), approve)
    ensures Allowed(w, Batched(events), approve) && Moved(w, Batched(events), approve).db.providers == after
  {
    forall id | id in events
      ensures id in w.db.providers && Mismatch(w.db.providers[id], approve) && !AtLimit(w.db.providers[id])
    {
      assert id in Elements(events) && RewrittenRow(w.db.providers[id], after[id], approve);
    }
    RewritingKeeps(w, events, approve);
    RewrittenOnce(w.db.providers, Moved(w, Batched(events), approve).db.providers, after, Elements(events), approve);
  }

  lemma MoveLeaves(w: World, m: Move, approve: Settings -> Id)
    requires Inv(w) && Allowed(w, m, approve)
    ensures var next := Moved(w, m, approve);
      && Inv(next)
      && |Mismatched(next.db.providers, approve)| + (if m.Batched? then |m.events| else 0)
         <= |Mismatched(w.db.providers, approve)|
  {
    match m
    case Other(s) =>
      StepKeeps(w, s);
      OthersAddNoMismatch(w, s, approve);
      SubsetSize(Mismatched(After(w, s).db.providers, approve), Mismatched(w.db.providers, approve));
    case Batched(events) =>
      RewritingKeeps(w, events, approve);
      BatchLeaves(w.db.providers, Rewriting(w, events, approve).db.providers, events, approve);
  }

  lemma {:induction false} MovesLeave(w: World, moves: seq<Move>, approve: Settings -> Id)
    requires Inv(w) && AllAllowed(w, moves, approve)
    ensures |Mismatched(Interleaved(w, moves, approve).db.providers, approve)| + 8 * Continuing(moves)
      <= |Mismatched(w.db.providers, approve)|
    decreases |moves|
  {
    if moves != [] {
      MoveLeaves(w, moves[0], approve);
      MovesLeave(Moved(w, moves[0], approve), moves[1..], approve);
    }
  }

  /**
    Whatever the host does between the batches, only so many of them can ask for another: one for every eight providers
    mismatched at the start. The loop therefore ends under interference too.
  */
  lemma BatchesRunOut(w: World, moves: seq<Move>, approve: Settings -> Id)
    requires Reachable(w) && AllAllowed(w, moves, approve)
    ensures Continuing(moves) <= |Mismatched(w.db.providers, approve)| / 8
    ensures Mismatched(w.db.providers, approve) == {} ==>
      Mismatched(Interleaved(w, moves, approve).db.providers, approve) == {}
  {
    ReachableInv(w);
    MovesLeave(w, moves, approve);
  }
}
