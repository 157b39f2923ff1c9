/** The write protocol composed with the chain.

The chain is an automaton with the rule nonces.go states: it accepts an unused nonce in
base+1 .. base+24, below its ceiling, and its base advances only over used nonces with no gap
below them. What is assumed of the environment, and no more:

- a report is some past state of the chain, as old as it likes, with or without its bitmap;
- an answer to a submission is arbitrary: it may call a transaction refused that still lands;
- a transaction once sent may land at any later time the chain's rule admits it, or never;
- transactions the client did not send may use nonces of the account too;
- a caller sends a write again only under the nonce it was first signed under. */
module NonceChain {
  import opened Bytes
  import opened Nonces
  import NonceRuns

  type Write = nat

  datatype Landing = Ours(nonce: U64, write: Write) | Foreign(nonce: U64)

  /** How many nonces above its base the chain accepts, and the nonce it accepts none from. */
  const CHAIN_WINDOW: nat := 24
  const CHAIN_CEILING: nat := TWO64 - 25

  datatype Chain = Chain(base: U64, used: set<U64>, landed: seq<Landing>) {
    predicate Uses(n: U64) { n <= base || n in used }

    predicate Accepts(n: U64) {
      base < n <= base + CHAIN_WINDOW && n !in used && n < CHAIN_CEILING
    }

    /** The base has passed every used nonce with no gap below it. */
    predicate Settled() {
      && (forall n :: n in used ==> base < n)
      && (base < MAX_U64 ==> base + 1 !in used)
    }

    /** The state as a report carries it; the API's route carries no bitmap. */
    function Report(bitmap: bool): NonceState {
      NonceState(base, if bitmap then set n | n in used && base < n <= base + CHAIN_WINDOW :: n - base - 1 else {})
    }
  }

  const GENESIS := Chain(0, {}, [])

  function Advance(ch: Chain): Chain
    decreases |ch.used|
  {
    if ch.base < MAX_U64 && ch.base + 1 in ch.used
    then Advance(ch.(base := ch.base + 1, used := ch.used - {ch.base + 1}))
    else ch
  }

  function Land(ch: Chain, l: Landing): Chain {
    Advance(ch.(used := ch.used + {l.nonce}, landed := ch.landed + [l]))
  }

  lemma {:induction false} AdvanceSettles(ch: Chain)
    requires forall n :: n in ch.used ==> ch.base < n
    ensures var a := Advance(ch);
            && a.Settled() && ch.base <= a.base && a.landed == ch.landed
            && forall n: U64 :: a.Uses(n) <==> ch.Uses(n)
    decreases |ch.used|
  {
    if ch.base == MAX_U64 || ch.base + 1 !in ch.used {
    } else {
      AdvanceSettles(ch.(base := ch.base + 1, used := ch.used - {ch.base + 1}));
    }
  }

  /** Landing uses exactly one more nonce, and never lowers the base. */
  lemma LandUsesOne(ch: Chain, l: Landing)
    requires ch.Settled() && ch.Accepts(l.nonce)
    ensures var c := Land(ch, l);
            && c.Settled() && ch.base <= c.base && c.landed == ch.landed + [l]
            && forall n: U64 :: c.Uses(n) <==> ch.Uses(n) || n == l.nonce
  {
    AdvanceSettles(ch.(used := ch.used + {l.nonce}, landed := ch.landed + [l]));
  }

  lemma ReportIsTrue(ch: Chain, bitmap: bool, n: U64)
    requires ch.Settled() && ch.Report(bitmap).IsUsed(n)
    ensures ch.Uses(n)
  {
  }

  // ----- the system

  datatype World = World(
    client: NonceRuns.Client,
    chain: Chain,
    past: seq<Chain>,               // every state the chain has been in, the present one last
    signed: map<Write, U64>,        // the nonce each write was first signed under
    sent: set<(U64, Write)>         // the transactions handed to the network
  )

  const START := World(NonceRuns.INITIAL, GENESIS, [GENESIS], map[], {})

  /** A report is read from the past: state k, with or without its bitmap. */
  datatype Reading = Reading(k: nat, bitmap: bool)

  datatype Event =
    | SignedWrite(write: Write, read: Reading)
    | WriteUnder(write: Write, nonce: U64, read: Reading)
    | SubmitSigned(write: Write, nonce: U64)
    | NextNonce(read: Reading)
    | Waited(read: Reading)
    | Answered(nonce: U64, outcome: Outcome)
    | Elapsed(to: Time)
    | Lands(nonce: U64, write: Write)
    | LandsForeign(nonce: U64)

  predicate Enabled(w: World, e: Event) {
    match e
    case SignedWrite(x, r) => x !in w.signed && r.k < |w.past|
    case WriteUnder(x, n, r) => (x in w.signed ==> w.signed[x] == n) && r.k < |w.past|
    case SubmitSigned(x, n) => x in w.signed ==> w.signed[x] == n
    case NextNonce(r) => r.k < |w.past|
    case Waited(r) => r.k < |w.past|
    case Answered(n, _) => n in w.client.outstanding
    case Elapsed(to) => w.client.clock <= to
    case Lands(n, x) => (n, x) in w.sent && w.chain.Accepts(n)
    case LandsForeign(n) => w.chain.Accepts(n)
  }

  function Report(w: World, r: Reading): NonceState
    requires r.k < |w.past|
  {
    w.past[r.k].Report(r.bitmap)
  }

  /** The allocator's part of an event, if it has one. */
  function ClientEvent(w: World, e: Event): Option<NonceRuns.Event>
    requires Enabled(w, e)
  {
    match e
    case SignedWrite(_, r) => Some(NonceRuns.Take(Report(w, r)))
    case WriteUnder(_, n, r) => Some(NonceRuns.Start(n, Some(Report(w, r))))
    case SubmitSigned(_, n) => Some(NonceRuns.Start(n, None))
    case NextNonce(r) => Some(NonceRuns.Reserve(Report(w, r)))
    case Waited(r) => Some(NonceRuns.Observe(Report(w, r)))
    case Answered(n, o) => Some(NonceRuns.Finish(n, o))
    case Elapsed(to) => Some(NonceRuns.Tick(to))
    case Lands(_, _) => None
    case LandsForeign(_) => None
  }

  /** The transaction an event sends: a submission that started, under the nonce it was given. */
  function Sends(w: World, e: Event): Option<(U64, Write)>
    requires Enabled(w, e) && w.client.acct.Valid()
  {
    match e
    case SignedWrite(x, r) =>
      var n := NonceRuns.Handed(w.client, NonceRuns.Take(Report(w, r)));
      if n.Some? then Some((n.value, x)) else None
    case WriteUnder(x, n, r) =>
      if Begin(w.client.acct, n, Some(Report(w, r)), w.client.clock).result.Started? then Some((n, x)) else None
    case SubmitSigned(x, n) =>
      if Begin(w.client.acct, n, None, w.client.clock).result.Started? then Some((n, x)) else None
    case _ => None
  }

  function Step(w: World, e: Event): World
    requires Enabled(w, e) && w.client.acct.Valid()
  {
    match e
    case Lands(n, x) => var ch := Land(w.chain, Ours(n, x)); w.(chain := ch, past := w.past + [ch])
    case LandsForeign(n) => var ch := Land(w.chain, Foreign(n)); w.(chain := ch, past := w.past + [ch])
    case _ =>
      var c := NonceRuns.Step(w.client, ClientEvent(w, e).value);
      match Sends(w, e)
      case None => w.(client := c)
      case Some((n, x)) => w.(client := c, signed := w.signed[x := n], sent := w.sent + {(n, x)})
  }

  // ----- the invariant

  predicate Follows(earlier: Chain, later: Chain) {
    && earlier.Settled()
    && earlier.base <= later.base
    && forall n :: n in earlier.used ==> later.Uses(n)
  }

  ghost predicate ChainInv(w: World) {
    && w.chain.Settled()
    && w.past != [] && w.past[|w.past| - 1] == w.chain
    && (forall k :: 0 <= k < |w.past| ==> Follows(w.past[k], w.chain))
    && (forall i :: 0 <= i < |w.chain.landed| ==> w.chain.Uses(w.chain.landed[i].nonce))
    && (forall i, j :: 0 <= i < j < |w.chain.landed| ==> w.chain.landed[i].nonce != w.chain.landed[j].nonce)
  }

  ghost predicate WriteInv(w: World) {
    && (forall n, x :: (n, x) in w.sent ==> x in w.signed && w.signed[x] == n)
    && (forall i :: 0 <= i < |w.chain.landed| && w.chain.landed[i].Ours? ==>
          (w.chain.landed[i].nonce, w.chain.landed[i].write) in w.sent)
  }

  ghost predicate Inv(w: World) {
    && NonceRuns.Safe(w.client)
    && ChainInv(w) && WriteInv(w)
    && w.client.acct.base <= w.chain.base
  }

  lemma LandKeepsInv(w: World, l: Landing)
    requires Inv(w) && w.chain.Accepts(l.nonce) && (l.Ours? ==> (l.nonce, l.write) in w.sent)
    ensures var ch := Land(w.chain, l); Inv(w.(chain := ch, past := w.past + [ch]))
  {
    LandUsesOne(w.chain, l);
  }

  /** The base a client step leaves is one it had, or one the report it read carried. */
  lemma BaseComesFromReports(w: World, e: Event)
    requires Inv(w) && Enabled(w, e) && ClientEvent(w, e).Some?
    ensures NonceRuns.Step(w.client, ClientEvent(w, e).value).acct.base <= w.chain.base
  {
    NonceRuns.StepBase(w.client, ClientEvent(w, e).value);
    hide NonceRuns.Step;
  }

  /** A write sent is signed under the nonce it is sent under. */
  lemma SendsKeepWriteInv(w: World, e: Event)
    requires Inv(w) && Enabled(w, e) && ClientEvent(w, e).Some?
    ensures WriteInv(Step(w, e))
  {
    hide NonceRuns.Step, Begin, NonceRuns.Handed;
  }

  lemma SameChain(w: World, v: World)
    requires ChainInv(w) && v.chain == w.chain && v.past == w.past
    ensures ChainInv(v)
  {
  }

  lemma ClientKeepsInv(w: World, e: Event)
    requires Inv(w) && Enabled(w, e) && ClientEvent(w, e).Some?
    ensures Inv(Step(w, e))
  {
    NonceRuns.StepKeepsSafe(w.client, ClientEvent(w, e).value);
    BaseComesFromReports(w, e);
    SendsKeepWriteInv(w, e);
    hide ChainInv, WriteInv, NonceRuns.Step, NonceRuns.Safe, Sends;
    SameChain(w, Step(w, e));
  }

  lemma StepKeepsInv(w: World, e: Event)
    requires Inv(w) && Enabled(w, e)
    ensures Inv(Step(w, e))
  {
    match e
    case Lands(n, x) => LandKeepsInv(w, Ours(n, x)); hide Land, Inv;
    case LandsForeign(n) => LandKeepsInv(w, Foreign(n)); hide Land, Inv;
    case _ => ClientKeepsInv(w, e); hide Inv, Step;
  }

  predicate Runs(w: World, es: seq<Event>)
    requires w.client.acct.Valid()
    decreases |es|
  {
    es == [] || (Enabled(w, es[0]) && Runs(Step(w, es[0]), es[1..]))
  }

  function End(w: World, es: seq<Event>): (r: World)
    requires w.client.acct.Valid() && Runs(w, es)
    ensures r.client.acct.Valid()
    decreases |es|
  {
    if es == [] then w else End(Step(w, es[0]), es[1..])
  }

  lemma {:induction false} RunKeepsInv(w: World, es: seq<Event>)
    requires Inv(w) && Runs(w, es)
    ensures Inv(End(w, es))
    decreases |es|
  {
    if es == [] {
    } else {
      StepKeepsInv(w, es[0]);
      RunKeepsInv(Step(w, es[0]), es[1..]);
    }
  }

  lemma StartIsSafe()
    ensures Inv(START)
  {
    assert NonceRuns.Safe(START.client);
  }

  // ----- what every run keeps

  /** A write lands at most once, though an answer may call it refused and it be sent again. */
  lemma WritesLandAtMostOnce(es: seq<Event>, i: nat, j: nat)
    requires Runs(START, es)
    requires var landed := End(START, es).chain.landed;
             i < j < |landed| && landed[i].Ours? && landed[j].Ours?
    ensures var landed := End(START, es).chain.landed; landed[i].write != landed[j].write
  {
    StartIsSafe();
    RunKeepsInv(START, es);
  }

  /** The client never believes the chain further on than it is, and a nonce it hands out is never
      beyond the window the chain accepts. */
  lemma NeverAheadOfTheChain(es: seq<Event>, e: Event)
    requires Runs(START, es) && Enabled(End(START, es), e)
    ensures var w := End(START, es);
            && w.client.acct.base <= w.chain.base
            && var ce := ClientEvent(w, e);
               (ce.Some? && NonceRuns.Handed(w.client, ce.value).Some? ==>
                 NonceRuns.Handed(w.client, ce.value).value <= w.chain.base + CHAIN_WINDOW)
  {
    StartIsSafe();
    RunKeepsInv(START, es);
    var w := End(START, es);
    var ce := ClientEvent(w, e);
    if ce.Some? && NonceRuns.Handed(w.client, ce.value).Some? {
      NonceRuns.HandedInWindow(w.client, ce.value);
      BaseComesFromReports(w, e);
      hide NonceRuns.Step, NonceRuns.Handed;
    }
  }

  /** Two submissions outstanding at once never share a nonce the client does not know used. */
  lemma OutstandingNoncesAreDistinct(es: seq<Event>, n: U64)
    requires Runs(START, es) && !End(START, es).client.acct.KnownUsed(n)
    ensures End(START, es).client.outstanding[n] <= 1
  {
    StartIsSafe();
    RunKeepsInv(START, es);
    assert NonceRuns.AtMostOne(End(START, es).client, n);
  }

  // ----- with honest answers, what the client knows used is used

  /** An answer that a nonce is used is true. */
  predicate Honest(w: World, e: Event) {
    e.Answered? && e.outcome.Used? ==> w.chain.Uses(e.nonce)
  }

  predicate RunsHonestly(w: World, es: seq<Event>)
    requires w.client.acct.Valid()
    decreases |es|
  {
    es == [] || (Enabled(w, es[0]) && Honest(w, es[0]) && RunsHonestly(Step(w, es[0]), es[1..]))
  }

  ghost predicate KnowsTruth(w: World) {
    forall n: U64 :: w.client.acct.KnownUsed(n) ==> w.chain.Uses(n)
  }

  lemma ReportsAreTrue(w: World, r: Reading, n: U64)
    requires Inv(w) && r.k < |w.past| && Report(w, r).IsUsed(n)
    ensures w.chain.Uses(n)
  {
    ReportIsTrue(w.past[r.k], r.bitmap, n);
    assert Follows(w.past[r.k], w.chain);
  }

  /** What a client step learns of the chain is true. */
  lemma ClientKeepsTruth(w: World, e: Event, n: U64)
    requires Inv(w) && KnowsTruth(w) && Enabled(w, e) && Honest(w, e) && ClientEvent(w, e).Some?
    requires NonceRuns.Step(w.client, ClientEvent(w, e).value).acct.KnownUsed(n)
    ensures w.chain.Uses(n)
  {
    var c := ClientEvent(w, e).value;
    NonceRuns.StepLearns(w.client, c, n);
    hide NonceRuns.Step, Inv;
    var report := NonceRuns.Reported(c);
    if report.Some? && report.value.IsUsed(n) {
      var r := ReadingOf(e);
      ReportsAreTrue(w, r, n);
    }
  }

  /** The reading of an event that reads a report. */
  function ReadingOf(e: Event): Reading {
    match e
    case SignedWrite(_, r) => r
    case WriteUnder(_, _, r) => r
    case NextNonce(r) => r
    case Waited(r) => r
    case _ => Reading(0, false)
  }

  lemma StepKeepsTruth(w: World, e: Event)
    requires Inv(w) && KnowsTruth(w) && Enabled(w, e) && Honest(w, e)
    ensures KnowsTruth(Step(w, e))
  {
    var v := Step(w, e);
    forall n: U64 | v.client.acct.KnownUsed(n) ensures v.chain.Uses(n) {
      match e
      case Lands(m, x) => LandUsesOne(w.chain, Ours(m, x));
      case LandsForeign(m) => LandUsesOne(w.chain, Foreign(m));
      case _ =>
        hide NonceRuns.Step, Inv, Honest;
        ClientKeepsTruth(w, e, n);
    }
  }

  lemma {:induction false} HonestRunKeepsTruth(w: World, es: seq<Event>)
    requires Inv(w) && KnowsTruth(w) && RunsHonestly(w, es)
    ensures Runs(w, es) && KnowsTruth(End(w, es))
    decreases |es|
  {
    if es == [] {
    } else {
      StepKeepsInv(w, es[0]);
      StepKeepsTruth(w, es[0]);
      HonestRunKeepsTruth(Step(w, es[0]), es[1..]);
    }
  }

  /** If answers that name a nonce used are true, every nonce the client counts used is used on the
      chain, in every run: no nonce of the window is given up that could still be accepted. */
  lemma KnownUsedIsUsed(es: seq<Event>, n: U64)
    requires RunsHonestly(START, es)
    ensures Runs(START, es)
    ensures End(START, es).client.acct.KnownUsed(n) ==> End(START, es).chain.Uses(n)
  {
    StartIsSafe();
    HonestRunKeepsTruth(START, es);
  }

  // ----- with a current report

  /** The reading is of the chain as it is, bitmap and all. */
  predicate Current(w: World, r: Reading) { r.k == |w.past| - 1 && r.bitmap }

  lemma CurrentReportIsExact(w: World, r: Reading, n: U64)
    requires Inv(w) && Current(w, r)
    ensures Report(w, r).base == w.chain.base
    ensures n <= w.chain.base + CHAIN_WINDOW ==> (Report(w, r).IsUsed(n) <==> w.chain.Uses(n))
  {
    if w.chain.base < n <= w.chain.base + CHAIN_WINDOW && n in w.chain.used {
      assert n - w.chain.base - 1 in Report(w, r).used;
    }
  }

  /** A nonce handed out over a current report is one the chain accepts, and the client fails to hand
      one out only if it knows used, or holds, every nonce the chain accepts. */
  lemma PicksFromTheChainsWindow(w: World, r: Reading, hand: Hand, n: U64)
    requires Inv(w) && Current(w, r)
    ensures var p := Pick(w.client.acct, Report(w, r), hand, w.client.clock);
            && (p.nonce == Some(n) ==> w.chain.Accepts(n))
            && (p.nonce.None? && w.chain.Accepts(n) ==>
                  w.client.acct.KnownUsed(n) || w.client.acct.HeldAt(n, w.client.clock))
  {
    var a, report, now := w.client.acct, Report(w, r), w.client.clock;
    CurrentReportIsExact(w, r, n);
    NonceRuns.MergeBase(a, report, now);
    PickIsLeastAvailable(a, report, hand, now);
    hide Pick, Merge, Report, Inv;
    assert Merge(a, report, now).InWindow(n) <==> w.chain.base < n <= w.chain.base + 24 && n < TWO64 - 25;
  }

  /** In every honest run, a write or a reservation over a current report gets a nonce the chain
      accepts, unless the client holds every one. */
  lemma HandsOutWhatTheChainAccepts(es: seq<Event>, r: Reading, hand: Hand, n: U64)
    requires RunsHonestly(START, es)
    ensures Runs(START, es)
    ensures var w := End(START, es);
            Current(w, r) ==>
              var p := Pick(w.client.acct, Report(w, r), hand, w.client.clock);
              && (p.nonce == Some(n) ==> w.chain.Accepts(n))
              && (p.nonce.None? && w.chain.Accepts(n) ==> w.client.acct.HeldAt(n, w.client.clock))
  {
    KnownUsedIsUsed(es, n);
    StartIsSafe();
    RunKeepsInv(START, es);
    var w := End(START, es);
    if Current(w, r) {
      PicksFromTheChainsWindow(w, r, hand, n);
      hide Inv, Pick, Report;
    }
  }
}
