/** Every interleaving of the allocator's steps for one DID.

Writers run concurrently, but each allocator method is atomic, so a run is any sequence of
events. `outstanding` counts, per nonce, the submissions this client started (take, or begin)
that have not settled: it is history, which the allocator itself cannot see. Reports are
arbitrary, however old or out of order. The clock never goes backwards. */
module NonceRuns {
  import opened Bytes
  import opened Nonces

  datatype Event =
    | Take(report: NonceState)
    | Reserve(report: NonceState)
    | Start(nonce: U64, given: Option<NonceState>)
    | Finish(nonce: U64, outcome: Outcome)
    | Observe(report: NonceState)
    | Tick(to: Time)

  datatype Client = Client(acct: Account, outstanding: multiset<U64>, clock: Time)

  const INITIAL := Client(NEW_ACCOUNT, multiset{}, 0)

  /** A submission settles once for each start, and time does not run backwards. Nothing else is
      asked of the environment. */
  predicate Enabled(c: Client, e: Event) {
    match e
    case Finish(n, _) => n in c.outstanding
    case Tick(to) => c.clock <= to
    case _ => true
  }

  function Step(c: Client, e: Event): (d: Client)
    requires c.acct.Valid()
    ensures d.acct.Valid()
  {
    match e
    case Take(r) =>
      var p := Pick(c.acct, r, ForSubmission, c.clock);
      c.(acct := p.account,
         outstanding := c.outstanding + if p.nonce.Some? then multiset{p.nonce.value} else multiset{})
    case Reserve(r) => c.(acct := Pick(c.acct, r, ForReservation, c.clock).account)
    case Start(n, given) =>
      var b := Begin(c.acct, n, given, c.clock);
      c.(acct := b.account, outstanding := c.outstanding + if b.result.Started? then multiset{n} else multiset{})
    case Finish(n, o) => c.(acct := Settle(c.acct, n, o, c.clock), outstanding := c.outstanding - multiset{n})
    case Observe(r) => c.(acct := Merge(c.acct, r, c.clock))
    case Tick(to) => c.(clock := to)
  }

  /** The nonce an event hands out. */
  function Handed(c: Client, e: Event): Option<U64> {
    match e
    case Take(r) => Pick(c.acct, r, ForSubmission, c.clock).nonce
    case Reserve(r) => Pick(c.acct, r, ForReservation, c.clock).nonce
    case _ => None
  }

  lemma StepForgetsNothing(c: Client, e: Event, n: U64)
    requires c.acct.Valid() && c.acct.KnownUsed(n)
    ensures Step(c, e).acct.KnownUsed(n)
  {
    match e
    case Take(r) => PickForgetsNothing(c.acct, r, ForSubmission, c.clock, n);
    case Reserve(r) => PickForgetsNothing(c.acct, r, ForReservation, c.clock, n);
    case Start(_, given) => if given.Some? { MergeIsUnion(c.acct, given.value, c.clock, n); }
    case Finish(_, _) =>
    case Observe(r) => MergeIsUnion(c.acct, r, c.clock, n);
    case Tick(_) =>
  }

  lemma PickForgetsNothing(a: Account, r: NonceState, hand: Hand, now: Time, n: U64)
    requires a.Valid() && a.KnownUsed(n)
    ensures Pick(a, r, hand, now).account.KnownUsed(n)
  {
    MergeIsUnion(a, r, now, n);
    hide Merge, Lowest;
  }

  /** The report an event reads, if any. */
  function Reported(e: Event): Option<NonceState> {
    match e
    case Take(r) => Some(r)
    case Reserve(r) => Some(r)
    case Start(_, given) => given
    case Observe(r) => Some(r)
    case Finish(_, _) => None
    case Tick(_) => None
  }

  /** The base a step leaves is the one it had, or the report's if that is higher. */
  lemma StepBase(c: Client, e: Event)
    requires c.acct.Valid()
    ensures Step(c, e).acct.base == if Reported(e).Some? then Max(c.acct.base, Reported(e).value.base) else c.acct.base
  {
    if Reported(e).Some? { MergeBase(c.acct, Reported(e).value, c.clock); }
    hide Merge, Lowest, View;
  }

  /** What a step adds to the nonces known used: what its report shows, or the answer's own. */
  lemma StepLearns(c: Client, e: Event, n: U64)
    requires c.acct.Valid() && Step(c, e).acct.KnownUsed(n)
    ensures || c.acct.KnownUsed(n)
            || (Reported(e).Some? && Reported(e).value.IsUsed(n))
            || e == Finish(n, Used)
  {
    if Reported(e).Some? { MergeIsUnion(c.acct, Reported(e).value, c.clock, n); }
    hide Merge, Lowest, View;
  }

  /** A nonce handed out lies in the window of the base the step leaves. */
  lemma HandedInWindow(c: Client, e: Event)
    requires c.acct.Valid() && Handed(c, e).Some?
    ensures Handed(c, e).value <= Step(c, e).acct.base + NONCE_WINDOW
  {
    PickIsLeastAvailable(c.acct, e.report, if e.Take? then ForSubmission else ForReservation, c.clock);
    hide Pick, Merge;
  }

  lemma MergeBase(a: Account, r: NonceState, now: Time)
    ensures Merge(a, r, now).base == Max(a.base, r.base)
  {
  }

  // ----- runs

  /** Whether every event of a run is enabled where it happens, and where the run ends. */
  predicate Runs(c: Client, es: seq<Event>)
    requires c.acct.Valid()
    decreases |es|
  {
    es == [] || (Enabled(c, es[0]) && Runs(Step(c, es[0]), es[1..]))
  }

  function End(c: Client, es: seq<Event>): (d: Client)
    requires c.acct.Valid()
    ensures d.acct.Valid()
    decreases |es|
  {
    if es == [] then c else End(Step(c, es[0]), es[1..])
  }

  // ----- no nonce is handed out while a submission under it is outstanding

  /** A nonce with submissions outstanding is known used, or has exactly one, which its claim
      counts. */
  predicate Tracked(c: Client, n: U64) {
    || c.acct.KnownUsed(n)
    || (c.outstanding[n] == if n in c.acct.claims then c.acct.claims[n].inFlight else 0)
  }

  predicate AtMostOne(c: Client, n: U64) {
    c.acct.KnownUsed(n) || c.outstanding[n] <= 1
  }

  ghost predicate Safe(c: Client) {
    && c.acct.Valid()
    && forall n: U64 :: Tracked(c, n) && AtMostOne(c, n)
  }

  /** The claims a merge drops hold no submission, unless their nonce is known used. */
  lemma MergeTracks(c: Client, r: NonceState, n: U64)
    requires c.acct.Valid() && Tracked(c, n) && AtMostOne(c, n)
    ensures var d := c.(acct := Merge(c.acct, r, c.clock)); Tracked(d, n) && AtMostOne(d, n)
  {
    MergeIsUnion(c.acct, r, c.clock, n);
    MergeKeepsLiveClaims(c.acct, r, c.clock, n);
  }

  lemma PickTracks(c: Client, r: NonceState, hand: Hand, n: U64)
    requires c.acct.Valid() && Tracked(c, n) && AtMostOne(c, n)
    ensures var p := Pick(c.acct, r, hand, c.clock);
            && (p.nonce == Some(n) ==> c.outstanding[n] == 0)
            && var d := c.(acct := p.account,
                           outstanding := c.outstanding +
                             if hand.ForSubmission? && p.nonce.Some? then multiset{p.nonce.value} else multiset{});
               Tracked(d, n) && AtMostOne(d, n)
  {
    PickIsLeastAvailable(c.acct, r, hand, c.clock);
    MergeTracks(c, r, n);
    MergeIsUnion(c.acct, r, c.clock, n);
    MergeKeepsLiveClaims(c.acct, r, c.clock, n);
  }

  lemma StepTracks(c: Client, e: Event, n: U64)
    requires c.acct.Valid() && Enabled(c, e) && Tracked(c, n) && AtMostOne(c, n)
    ensures Tracked(Step(c, e), n) && AtMostOne(Step(c, e), n)
    ensures Handed(c, e) == Some(n) ==> c.outstanding[n] == 0
  {
    match e
    case Take(r) =>
      PickTracks(c, r, ForSubmission, n);
      hide Pick;
    case Reserve(r) =>
      PickTracks(c, r, ForReservation, n);
      hide Pick;
      assert c.outstanding + multiset{} == c.outstanding;
    case Start(m, given) => StartTracks(c, m, given, n);
    case Finish(m, o) => FinishTracks(c, m, o, n);
    case Observe(r) => MergeTracks(c, r, n);
    case Tick(_) =>
  }

  lemma StartTracks(c: Client, m: U64, given: Option<NonceState>, n: U64)
    requires c.acct.Valid() && Tracked(c, n) && AtMostOne(c, n)
    ensures Tracked(Step(c, Start(m, given)), n) && AtMostOne(Step(c, Start(m, given)), n)
  {
    if given.Some? { MergeTracks(c, given.value, n); }
    hide Merge, View;
  }

  lemma FinishTracks(c: Client, m: U64, o: Outcome, n: U64)
    requires c.acct.Valid() && m in c.outstanding && Tracked(c, n) && AtMostOne(c, n)
    ensures Tracked(Step(c, Finish(m, o)), n) && AtMostOne(Step(c, Finish(m, o)), n)
  {
  }

  lemma StepKeepsSafe(c: Client, e: Event)
    requires Safe(c) && Enabled(c, e)
    ensures Safe(Step(c, e))
  {
    forall n: U64 ensures Tracked(Step(c, e), n) && AtMostOne(Step(c, e), n) {
      StepTracks(c, e, n);
    }
  }

  lemma {:induction false} RunKeepsSafe(c: Client, es: seq<Event>)
    requires Safe(c) && Runs(c, es)
    ensures Safe(End(c, es))
    decreases |es|
  {
    if es == [] {
    } else {
      StepKeepsSafe(c, es[0]);
      RunKeepsSafe(Step(c, es[0]), es[1..]);
    }
  }

  /** The safety of the allocator: after any run from its start, neither take nor reserve hands
      out a nonce with a submission outstanding, and a nonce not known used has at most one. */
  lemma NeverHandsOutOutstanding(es: seq<Event>, e: Event)
    requires Runs(INITIAL, es)
    ensures var c := End(INITIAL, es);
            && (Handed(c, e).Some? ==> c.outstanding[Handed(c, e).value] == 0)
            && forall n: U64 :: !c.acct.KnownUsed(n) ==> c.outstanding[n] <= 1
  {
    assert Safe(INITIAL);
    RunKeepsSafe(INITIAL, es);
    var c := End(INITIAL, es);
    if Handed(c, e).Some? {
      assert Enabled(c, e);
      StepTracks(c, e, Handed(c, e).value);
    }
    forall n: U64 | !c.acct.KnownUsed(n) ensures c.outstanding[n] <= 1 {
      assert AtMostOne(c, n);
    }
  }

  /** begin given no report can claim a nonce already known used, so claims and used nonces need
      not be disjoint: three steps make them overlap after any run, at any nonce above the base. */
  lemma ClaimsAndUsedMayOverlap(es: seq<Event>, n: U64)
    requires Runs(INITIAL, es) && n > End(INITIAL, es).acct.base && n !in End(INITIAL, es).outstanding
    ensures var c := Step(Step(Step(End(INITIAL, es), Start(n, None)), Finish(n, Used)), Start(n, None));
            n in c.acct.claims && n in c.acct.used
  {
    assert Safe(INITIAL);
    RunKeepsSafe(INITIAL, es);
    assert Tracked(End(INITIAL, es), n);
  }

  // ----- a nonce left held is not handed out again before its hold ends

  /** The nonce is known used, or its claim records a hold from `since` or later. */
  predicate HeldSince(a: Account, n: U64, since: Time) {
    || a.KnownUsed(n)
    || (n in a.claims && a.claims[n].held.Some? && since <= a.claims[n].held.value)
  }

  predicate ReservedSince(a: Account, n: U64, since: Time) {
    || a.KnownUsed(n)
    || (n in a.claims && a.claims[n].reserved.Some? && since <= a.claims[n].reserved.value)
  }

  lemma StepKeepsHold(c: Client, e: Event, n: U64, since: Time)
    requires c.acct.Valid() && Enabled(c, e) && since <= c.clock < since + NONCE_HOLD
    requires HeldSince(c.acct, n, since)
    ensures HeldSince(Step(c, e).acct, n, since) && Handed(c, e) != Some(n)
  {
    match e
    case Take(r) => PickKeeps(c.acct, r, ForSubmission, c.clock, n);
    case Reserve(r) => PickKeeps(c.acct, r, ForReservation, c.clock, n);
    case Start(_, given) => if given.Some? { MergeKeeps(c.acct, given.value, c.clock, n); }
    case Finish(_, _) =>
    case Observe(r) => MergeKeeps(c.acct, r, c.clock, n);
    case Tick(_) =>
  }

  /** A live claim survives a merge, or its nonce is known used after it. */
  lemma MergeKeeps(a: Account, r: NonceState, now: Time, n: U64)
    requires a.Valid() && (a.KnownUsed(n) || a.HeldAt(n, now))
    ensures var m := Merge(a, r, now);
            m.KnownUsed(n) || (!a.KnownUsed(n) && n in m.claims && m.claims[n] == a.claims[n])
  {
    MergeIsUnion(a, r, now, n);
    MergeKeepsLiveClaims(a, r, now, n);
  }

  lemma PickKeeps(a: Account, r: NonceState, hand: Hand, now: Time, n: U64)
    requires a.Valid() && (a.KnownUsed(n) || a.HeldAt(n, now))
    ensures var p := Pick(a, r, hand, now);
            && p.nonce != Some(n)
            && (|| p.account.KnownUsed(n)
                || (!a.KnownUsed(n) && n in p.account.claims && p.account.claims[n] == a.claims[n]))
  {
    MergeKeeps(a, r, now, n);
    PickIsLeastAvailable(a, r, hand, now);
  }

  /** No event of the run hands out n. */
  ghost predicate NeverHands(c: Client, es: seq<Event>, n: U64)
    requires c.acct.Valid()
  {
    forall k :: 0 <= k < |es| ==> Handed(End(c, es[..k]), es[k]) != Some(n)
  }

  lemma NeverHandsCons(c: Client, es: seq<Event>, n: U64)
    requires c.acct.Valid() && es != [] && Handed(c, es[0]) != Some(n)
    requires NeverHands(Step(c, es[0]), es[1..], n)
    ensures NeverHands(c, es, n)
  {
    forall k | 0 <= k < |es| ensures Handed(End(c, es[..k]), es[k]) != Some(n) {
      if k > 0 {
        assert es[..k][1..] == es[1..][..k - 1];
        assert es[k] == es[1..][k - 1];
      }
    }
  }

  lemma {:induction false} ClockNeverRunsBack(c: Client, es: seq<Event>)
    requires c.acct.Valid() && Runs(c, es)
    ensures c.clock <= End(c, es).clock
    decreases |es|
  {
    if es == [] {
    } else {
      ClockNeverRunsBack(Step(c, es[0]), es[1..]);
    }
  }

  lemma {:induction false} RunKeepsHold(c: Client, es: seq<Event>, n: U64, since: Time)
    requires c.acct.Valid() && Runs(c, es) && HeldSince(c.acct, n, since) && since <= c.clock
    requires End(c, es).clock < since + NONCE_HOLD
    ensures NeverHands(c, es, n) && HeldSince(End(c, es).acct, n, since)
    decreases |es|
  {
    ClockNeverRunsBack(c, es);
    if es == [] {
    } else {
      StepKeepsHold(c, es[0], n, since);
      RunKeepsHold(Step(c, es[0]), es[1..], n, since);
      NeverHandsCons(c, es, n);
    }
  }

  /** The hold: once a submission settles as accepted, held or unknown at time t, no run that ends
      before t + NONCE_HOLD hands its nonce out, whatever else settles under it, even as free. */
  lemma HoldLasts(c: Client, n: U64, outcome: Outcome, es: seq<Event>)
    requires c.acct.Valid() && n in c.outstanding && outcome.Holds()
    requires Runs(Step(c, Finish(n, outcome)), es)
    requires End(Step(c, Finish(n, outcome)), es).clock < c.clock + NONCE_HOLD
    ensures NeverHands(Step(c, Finish(n, outcome)), es, n)
  {
    RunKeepsHold(Step(c, Finish(n, outcome)), es, n, c.clock);
  }

  /** No submission under n starts in the run by the caller's own choice of n. */
  predicate NeverStarts(es: seq<Event>, n: U64) {
    forall e :: e in es ==> !(e.Start? && e.nonce == n)
  }

  lemma StepKeepsReservation(c: Client, e: Event, n: U64, since: Time)
    requires c.acct.Valid() && Enabled(c, e) && since <= c.clock < since + NONCE_HOLD
    requires ReservedSince(c.acct, n, since) && !(e.Start? && e.nonce == n)
    ensures ReservedSince(Step(c, e).acct, n, since) && Handed(c, e) != Some(n)
  {
    match e
    case Take(r) => PickKeeps(c.acct, r, ForSubmission, c.clock, n);
    case Reserve(r) => PickKeeps(c.acct, r, ForReservation, c.clock, n);
    case Start(_, given) => if given.Some? { MergeKeeps(c.acct, given.value, c.clock, n); }
    case Finish(_, _) =>
    case Observe(r) => MergeKeeps(c.acct, r, c.clock, n);
    case Tick(_) =>
  }

  lemma {:induction false} RunKeepsReservation(c: Client, es: seq<Event>, n: U64, since: Time)
    requires c.acct.Valid() && Runs(c, es) && ReservedSince(c.acct, n, since) && since <= c.clock
    requires End(c, es).clock < since + NONCE_HOLD && NeverStarts(es, n)
    ensures NeverHands(c, es, n) && ReservedSince(End(c, es).acct, n, since)
    decreases |es|
  {
    ClockNeverRunsBack(c, es);
    if es == [] {
    } else {
      assert es[0] in es;
      StepKeepsReservation(c, es[0], n, since);
      assert forall e :: e in es[1..] ==> e in es;
      RunKeepsReservation(Step(c, es[0]), es[1..], n, since);
      NeverHandsCons(c, es, n);
    }
  }

  /** A reserved nonce is not handed out again within NONCE_HOLD, unless a submission under it
      starts. */
  lemma ReservationLasts(c: Client, r: NonceState, es: seq<Event>)
    requires c.acct.Valid() && Handed(c, Reserve(r)).Some?
    requires Runs(Step(c, Reserve(r)), es)
    requires End(Step(c, Reserve(r)), es).clock < c.clock + NONCE_HOLD
    requires NeverStarts(es, Handed(c, Reserve(r)).value)
    ensures NeverHands(Step(c, Reserve(r)), es, Handed(c, Reserve(r)).value)
  {
    PickIsLeastAvailable(c.acct, r, ForReservation, c.clock);
    RunKeepsReservation(Step(c, Reserve(r)), es, Handed(c, Reserve(r)).value, c.clock);
  }

  /** A submission in flight never lapses: its nonce is not handed out in a run of any length and
      duration in which it does not settle. */
  lemma {:induction false} InFlightNeverLapses(c: Client, es: seq<Event>, n: U64)
    requires Safe(c) && Runs(c, es) && n in c.outstanding
    requires forall e :: e in es ==> !(e.Finish? && e.nonce == n)
    ensures NeverHands(c, es, n) && n in End(c, es).outstanding
    decreases |es|
  {
    if es == [] {
    } else {
      assert es[0] in es;
      StepKeepsSafe(c, es[0]);
      StepTracks(c, es[0], n);
      assert forall e :: e in es[1..] ==> e in es;
      InFlightNeverLapses(Step(c, es[0]), es[1..], n);
      NeverHandsCons(c, es, n);
    }
  }

  /** And the hold ends: with nothing else in flight under it or reserved, the nonce is held for
      exactly 120 s. */
  lemma HoldEndsExactly(c: Client, n: U64, outcome: Outcome, now: Time)
    requires Safe(c) && n in c.outstanding && !c.acct.KnownUsed(n)
    requires n in c.acct.claims && c.acct.claims[n].reserved.None?
    requires outcome == Accepted || outcome == Unknown || outcome == Held
    ensures Step(c, Finish(n, outcome)).acct.HeldAt(n, now) <==> now < c.clock + 120_000_000_000
  {
    assert Tracked(c, n) && AtMostOne(c, n);
    SettleClaims(c.acct, n, outcome, c.clock);
    LiveExactlyWhen(Claim(0, None, Some(c.clock)), now);
    hide Settle;
  }

  /** The reverse: a nonce refused without being held or used, under no earlier hold, is free at
      once. */
  lemma FreedAtOnce(c: Client, n: U64)
    requires Safe(c) && n in c.outstanding && !c.acct.KnownUsed(n)
    requires n in c.acct.claims && !Within(c.acct.claims[n].held, c.clock) && c.acct.claims[n].reserved.None?
    ensures !Step(c, Finish(n, Free)).acct.HeldAt(n, c.clock) && !Step(c, Finish(n, Free)).acct.KnownUsed(n)
  {
    assert Tracked(c, n) && AtMostOne(c, n);
  }
}
