/** The write protocol with the node's hold (nonces.go:38-42): a transaction the node admits is
pending until it lands, for 120 s at the most, and lands only while it is pending.

Two things more are assumed of the environment here:

- the node admits a transaction only while a submission under its nonce is in flight;
- an answer that gives a nonce back is true: the node did not admit that submission's transaction.
  Every other answer stays arbitrary, and MisreportedRefusal shows this one cannot be. */
module NodeHold {
  import opened Bytes
  import opened Nonces
  import NonceRuns
  import C = NonceChain

  const NODE_HOLD: nat := 120_000_000_000

  datatype Network = Network(
    world: C.World,
    admitted: map<(U64, C.Write), Time>,   // when the node last admitted each transaction
    open: set<U64>                         // nonces whose submission in flight was admitted
  ) {
    function Clock(): Time { world.client.clock }

    /** The transaction may still be in the node's mempool. */
    predicate Pending(n: U64, x: C.Write) {
      (n, x) in admitted && Clock() - admitted[(n, x)] < NODE_HOLD && !world.chain.Uses(n)
    }
  }

  const START := Network(C.START, map[], {})

  datatype Event = Protocol(event: C.Event) | Admitted(nonce: U64, write: C.Write)

  predicate Possible(w: Network, e: Event) {
    match e
    case Protocol(p) => C.Enabled(w.world, p) && (p.Lands? ==> w.Pending(p.nonce, p.write))
    case Admitted(n, x) => n in w.world.client.outstanding && (n, x) in w.world.sent
  }

  /** A nonce given back was not admitted. */
  predicate Truthful(w: Network, e: Event) {
    e.Protocol? && e.event.Answered? && e.event.outcome.Free? ==> e.event.nonce !in w.open
  }

  predicate Enabled(w: Network, e: Event) { Possible(w, e) && Truthful(w, e) }

  /** The open nonces a client step leaves: one that starts or settles is no longer open. */
  function OpenAfter(c: NonceRuns.Client, e: NonceRuns.Event, open: set<U64>): set<U64>
    requires c.acct.Valid()
  {
    match e
    case Take(_) => if NonceRuns.Handed(c, e).Some? then open - {NonceRuns.Handed(c, e).value} else open
    case Start(n, given) => if Begin(c.acct, n, given, c.clock).result.Started? then open - {n} else open
    case Finish(n, _) => open - {n}
    case _ => open
  }

  function Opened(w: Network, p: C.Event): set<U64>
    requires C.Enabled(w.world, p) && w.world.client.acct.Valid()
  {
    match C.ClientEvent(w.world, p)
    case None => w.open
    case Some(e) => OpenAfter(w.world.client, e, w.open)
  }

  function Step(w: Network, e: Event): Network
    requires Possible(w, e) && w.world.client.acct.Valid()
  {
    match e
    case Protocol(p) => w.(world := C.Step(w.world, p), open := Opened(w, p))
    case Admitted(n, x) => w.(admitted := w.admitted[(n, x) := w.Clock()], open := w.open + {n})
  }

  /** The nonce an event hands out. */
  function Handed(w: Network, e: Event): Option<U64>
    requires Possible(w, e)
  {
    if e.Admitted? then None
    else
      var c := C.ClientEvent(w.world, e.event);
      if c.None? then None else NonceRuns.Handed(w.world.client, c.value)
  }

  // ----- the invariant

  /** Why a nonce admitted at `at` is not handed out. */
  predicate Covered(c: NonceRuns.Client, open: set<U64>, n: U64, at: Time) {
    || at + NODE_HOLD <= c.clock
    || (n in open && n in c.outstanding)
    || NonceRuns.HeldSince(c.acct, n, at)
  }

  ghost predicate Inv(w: Network) {
    && C.Inv(w.world)
    && forall n, x :: (n, x) in w.admitted ==>
         w.admitted[(n, x)] <= w.Clock() && Covered(w.world.client, w.open, n, w.admitted[(n, x)])
  }

  /** A submission in flight is not started again, unless its nonce is known used. */
  lemma InFlightIsRefused(c: NonceRuns.Client, n: U64, given: Option<NonceState>)
    requires NonceRuns.Safe(c) && n in c.outstanding
    ensures var b := Begin(c.acct, n, given, c.clock); b.result.Started? ==> b.account.KnownUsed(n)
  {
    assert NonceRuns.Tracked(c, n) && NonceRuns.AtMostOne(c, n);
    if given.Some? {
      NonceRuns.MergeTracks(c, given.value, n);
    }
  }

  /** Every client step leaves an admitted nonce covered, and does not hand it out while it may be
      pending. */
  lemma StepCovers(c: NonceRuns.Client, e: NonceRuns.Event, open: set<U64>, n: U64, at: Time)
    requires NonceRuns.Safe(c) && NonceRuns.Enabled(c, e) && at <= c.clock && Covered(c, open, n, at)
    requires e.Finish? && e.nonce == n && e.outcome.Free? ==> n !in open
    ensures c.clock < at + NODE_HOLD ==> NonceRuns.Handed(c, e) != Some(n)
    ensures var d := NonceRuns.Step(c, e); at <= d.clock && Covered(d, OpenAfter(c, e, open), n, at)
  {
    hide NonceRuns.Tracked, NonceRuns.AtMostOne;
    if at + NODE_HOLD <= c.clock {
      NonceRuns.ClockNeverRunsBack(c, [e]);
    } else {
      assert NonceRuns.Tracked(c, n) && NonceRuns.AtMostOne(c, n);
      NonceRuns.StepTracks(c, e, n);
      if NonceRuns.HeldSince(c.acct, n, at) {
        NonceRuns.StepKeepsHold(c, e, n, at);
      } else {
        OpenStaysCovered(c, e, open, n, at);
      }
    }
  }

  lemma OpenStaysCovered(c: NonceRuns.Client, e: NonceRuns.Event, open: set<U64>, n: U64, at: Time)
    requires NonceRuns.Safe(c) && NonceRuns.Enabled(c, e) && at <= c.clock && n in open && n in c.outstanding
    requires NonceRuns.Handed(c, e) != Some(n)
    requires e.Finish? && e.nonce == n ==> !e.outcome.Free?
    ensures var d := NonceRuns.Step(c, e); at <= d.clock && Covered(d, OpenAfter(c, e, open), n, at)
  {
    match e
    case Take(_) =>
    case Reserve(_) =>
    case Start(m, given) => if m == n { InFlightIsRefused(c, n, given); }
    case Finish(_, _) =>
    case Observe(_) =>
    case Tick(_) =>
  }

  // ----- runs

  lemma ProtocolKeepsInv(w: Network, p: C.Event)
    requires Inv(w) && Enabled(w, Protocol(p))
    ensures Inv(Step(w, Protocol(p)))
  {
    assert w.world.client.acct.Valid();
    hide Covered, C.Inv, C.Step, OpenAfter, NonceRuns.Step;
    var v := Step(w, Protocol(p));
    assert C.Inv(v.world) && NonceRuns.Safe(w.world.client) by { WorldKeepsInv(w.world, p); }
    forall n, x | (n, x) in v.admitted
      ensures v.admitted[(n, x)] <= v.Clock() && Covered(v.world.client, v.open, n, v.admitted[(n, x)])
    {
      var e := C.ClientEvent(w.world, p);
      ClientPart(w.world, p);
      if e.Some? { StepCovers(w.world.client, e.value, w.open, n, w.admitted[(n, x)]); }
    }
  }

  lemma WorldKeepsInv(w: C.World, p: C.Event)
    requires C.Inv(w) && C.Enabled(w, p)
    ensures C.Inv(C.Step(w, p)) && NonceRuns.Safe(w.client)
  {
    C.StepKeepsInv(w, p);
  }

  /** What an event does to the client. */
  lemma ClientPart(w: C.World, p: C.Event)
    requires C.Enabled(w, p) && w.client.acct.Valid()
    ensures match C.ClientEvent(w, p)
            case None => C.Step(w, p).client == w.client
            case Some(e) =>
              && C.Step(w, p).client == NonceRuns.Step(w.client, e) && NonceRuns.Enabled(w.client, e)
              && (e.Finish? ==> p == C.Answered(e.nonce, e.outcome))
  {
  }

  lemma StepKeepsInv(w: Network, e: Event)
    requires Inv(w) && Enabled(w, e)
    ensures Inv(Step(w, e))
  {
    match e
    case Protocol(p) => ProtocolKeepsInv(w, p);
    case Admitted(_, _) =>
  }

  predicate Runs(w: Network, es: seq<Event>)
    requires w.world.client.acct.Valid()
    decreases |es|
  {
    es == [] || (Enabled(w, es[0]) && Runs(Step(w, es[0]), es[1..]))
  }

  function End(w: Network, es: seq<Event>): (v: Network)
    requires w.world.client.acct.Valid() && Runs(w, es)
    ensures v.world.client.acct.Valid()
    decreases |es|
  {
    if es == [] then w else End(Step(w, es[0]), es[1..])
  }

  lemma {:induction false} RunKeepsInv(w: Network, es: seq<Event>)
    requires Inv(w) && Runs(w, es)
    ensures Inv(End(w, es))
    decreases |es|
  {
    assert w.world.client.acct.Valid();
    hide Inv, Step;
    if es == [] {
    } else {
      StepKeepsInv(w, es[0]);
      RunKeepsInv(Step(w, es[0]), es[1..]);
    }
  }

  /** In every run, a nonce handed out is one under which no transaction of this client is pending
      at the node: whatever is sent under it competes with none sent before. */
  lemma NeverHandsOutPending(es: seq<Event>, e: Event, n: U64, x: C.Write)
    requires Runs(START, es) && Enabled(End(START, es), e) && Handed(End(START, es), e) == Some(n)
    ensures !End(START, es).Pending(n, x)
  {
    hide Runs, End;
    StartIsCovered();
    RunKeepsInv(START, es);
    var w := End(START, es);
    if w.Pending(n, x) {
      ClientPart(w.world, e.event);
      StepCovers(w.world.client, C.ClientEvent(w.world, e.event).value, w.open, n, w.admitted[(n, x)]);
    }
  }

  lemma StartIsCovered()
    ensures Inv(START)
  {
    C.StartIsSafe();
  }

  const READ := C.Reading(0, true)
  const FIRST := Protocol(C.SignedWrite(0, READ))
  const SECOND := Protocol(C.SignedWrite(1, READ))
  const GIVEN_BACK := Protocol(C.Answered(1, Free))

  /** The client before it hands out nonce 1, and with it in flight. */
  function Flight(inFlight: bool): NonceRuns.Client {
    NonceRuns.Client(Account(0, {}, if inFlight then map[1 := Claim(1, None, None)] else map[]),
                     if inFlight then multiset{1} else multiset{}, 0)
  }

  /** The world after the first write is sent. */
  function Sent(inFlight: bool): C.World {
    C.World(Flight(inFlight), C.GENESIS, [C.GENESIS], map[0 := 1], {(1, 0)})
  }

  lemma HandsOutOne()
    ensures C.GENESIS.Report(true) == NonceState(0, {})
    ensures Pick(NEW_ACCOUNT, NonceState(0, {}), ForSubmission, 0) == Picked(Flight(true).acct, Some(1))
  {
    assert C.GENESIS.Report(true).used == {};
    var m := Merge(NEW_ACCOUNT, NonceState(0, {}), 0);
    assert m.used == {} && m.claims == map[];
    assert m == NEW_ACCOUNT;
    assert Lowest(m, 1) == Some(1);
  }

  lemma FirstIsSent()
    ensures Enabled(START, FIRST) && Step(START, FIRST) == Network(Sent(true), map[], {})
  {
    hide Pick;
    HandsOutOne();
    assert C.Report(C.START, READ) == NonceState(0, {});
    var c := NonceRuns.Step(NonceRuns.INITIAL, NonceRuns.Take(NonceState(0, {})));
    assert c == Flight(true);
  }

  lemma GivenBackIsFree(w: Network)
    requires w.world == Sent(true)
    ensures Possible(w, GIVEN_BACK) && Step(w, GIVEN_BACK).world == Sent(false)
  {
    var c := NonceRuns.Step(Flight(true), NonceRuns.Finish(1, Free));
    assert map[1 := Claim(1, None, None)] - {1} == map[];
    assert c == Flight(false);
  }

  lemma SecondGetsOne(w: Network)
    requires w.world == Sent(false)
    ensures Enabled(w, SECOND) && Handed(w, SECOND) == Some(1)
  {
    hide Pick;
    HandsOutOne();
    assert C.Report(w.world, READ) == NonceState(0, {});
  }

  /** The assumption on answers is needed: an answer that gives back the nonce of an admitted
      transaction has the next write signed under it too. */
  lemma MisreportedRefusal()
    ensures && Enabled(START, FIRST)
            && var sent := Step(START, FIRST);
            && Enabled(sent, Admitted(1, 0))
            && var admitted := Step(sent, Admitted(1, 0));
            && Possible(admitted, GIVEN_BACK)
            && var freed := Step(admitted, GIVEN_BACK);
            && Enabled(freed, SECOND) && freed.Pending(1, 0) && Handed(freed, SECOND) == Some(1)
  {
    FirstIsSent();
    var sent := Step(START, FIRST);
    var admitted := Step(sent, Admitted(1, 0));
    GivenBackIsFree(admitted);
    SecondGetsOne(Step(admitted, GIVEN_BACK));
  }
}
