/** The nonce allocator of nonces.go.

Per signing DID the allocator knows the highest base the chain has reported, the nonces above
it that it has seen used, and the claims on nonces it handed out. The account operations are
first given as functions on one account's value; the class then runs them in place, with the
source's loops, and is proved to compute those functions.

Each source method runs under one lock, so each is one atomic step here. The clock is a
parameter of every step, in nanoseconds. */
module Nonces {
  import opened Bytes

  const NONCE_WINDOW: nat := 24
  const NONCE_HOLD: nat := 120_000_000_000
  const MAX_U64: nat := TWO64 - 1

  type Time = int
  type Did = string

  /** The chain's report of an account. Bit i of the source's Used field is `i in used`. */
  datatype NonceState = NonceState(base: U64, used: set<nat>) {
    predicate IsUsed(nonce: U64) {
      || nonce <= base
      || (nonce - base - 1 < NONCE_WINDOW && nonce - base - 1 in used)
    }
  }

  datatype Outcome = Accepted | Free | Held | Used | Unknown {
    /** The outcomes after which the transaction may be pending at the node. */
    predicate Holds() { Accepted? || Held? || Unknown? }
  }

  /** What holds one nonce. A zero time of the source is None. */
  datatype Claim = Claim(inFlight: nat, reserved: Option<Time>, held: Option<Time>) {
    predicate Live(now: Time) {
      inFlight > 0 || Within(reserved, now) || Within(held, now)
    }
  }

  predicate Within(at: Option<Time>, now: Time) {
    at.Some? && now - at.value < NONCE_HOLD
  }

  const FRESH_CLAIM := Claim(0, None, None)

  datatype Account = Account(base: U64, used: set<U64>, claims: map<U64, Claim>) {
    /** Every nonce recorded as used lies above the base. */
    predicate Valid() {
      forall n :: n in used ==> base < n
    }

    predicate KnownUsed(nonce: U64) {
      nonce <= base || nonce in used
    }

    predicate HeldAt(nonce: U64, now: Time) {
      nonce in claims && claims[nonce].Live(now)
    }

    /** The nonces the chain may accept next: the window above the base, below the ceiling. */
    predicate InWindow(nonce: U64) {
      base < nonce <= base + NONCE_WINDOW && nonce < MAX_U64 - NONCE_WINDOW
    }
  }

  const NEW_ACCOUNT := Account(0, {}, map[])

  // ----- the operations on one account

  function Max(a: U64, b: U64): U64 { if a < b then b else a }

  /** The nonces a report's bits mark, without wrap-around. */
  function Marked(state: NonceState): set<nat> {
    set i | 0 <= i < NONCE_WINDOW && i in state.used :: state.base + 1 + i
  }

  function Merge(a: Account, state: NonceState, now: Time): Account {
    var base := Max(a.base, state.base);
    var used: set<U64> := (set n: U64 | n in a.used && base < n)
                        + (set n | n in Marked(state) && base < n < TWO64);
    var claims := map n | n in a.claims && base < n && n !in used && a.claims[n].Live(now) :: a.claims[n];
    Account(base, used, claims)
  }

  /** The account as a report: the bits of the used nonces that lie in the window. */
  function View(a: Account): NonceState
    requires a.Valid()
  {
    NonceState(a.base, set n | n in a.used && n - a.base - 1 < NONCE_WINDOW :: n - a.base - 1)
  }

  /** The first nonce at or above `from`, within the window, with neither claim nor use. */
  function Lowest(a: Account, from: nat): (r: Option<U64>)
    requires a.base < from
    decreases a.base + NONCE_WINDOW + 1 - from
  {
    if from > a.base + NONCE_WINDOW || from >= MAX_U64 - NONCE_WINDOW then None
    else if from !in a.claims && from !in a.used then Some(from)
    else Lowest(a, from + 1)
  }

  datatype Hand = ForSubmission | ForReservation

  function NewClaim(hand: Hand, now: Time): Claim {
    match hand
    case ForSubmission => Claim(1, None, None)
    case ForReservation => Claim(0, Some(now), None)
  }

  datatype Picked = Picked(account: Account, nonce: Option<U64>)

  function Pick(a: Account, state: NonceState, hand: Hand, now: Time): Picked {
    var m := Merge(a, state, now);
    match Lowest(m, m.base + 1)
    case None => Picked(m, None)
    case Some(n) => Picked(m.(claims := m.claims[n := NewClaim(hand, now)]), Some(n))
  }

  datatype Began = Started | RefusedUsed | RefusedInFlight

  datatype Beginning = Beginning(account: Account, result: Began)

  function Begin(a: Account, nonce: U64, state: Option<NonceState>, now: Time): Beginning
    requires a.Valid()
  {
    var m := if state.Some? then Merge(a, state.value, now) else a;
    if state.Some? && View(m).IsUsed(nonce) then Beginning(m, RefusedUsed)
    else
      var claim := if nonce in m.claims then m.claims[nonce] else FRESH_CLAIM;
      if claim.inFlight > 0 then Beginning(m, RefusedInFlight)
      else Beginning(m.(claims := m.claims[nonce := claim.(inFlight := claim.inFlight + 1, reserved := None)]), Started)
  }

  function Settle(a: Account, nonce: U64, outcome: Outcome, now: Time): Account {
    if a.KnownUsed(nonce) || outcome.Used? then
      a.(used := if nonce > a.base then a.used + {nonce} else a.used, claims := a.claims - {nonce})
    else
      var had := nonce in a.claims;
      var claim := if had then a.claims[nonce] else FRESH_CLAIM;
      var left := claim.(inFlight := if claim.inFlight > 0 then claim.inFlight - 1 else 0,
                         held := if outcome.Holds() then Some(now) else claim.held);
      if !had && !outcome.Holds() then a
      else if left.Live(now) then a.(claims := a.claims[nonce := left])
      else a.(claims := a.claims - {nonce})
  }

  // ----- what merging and picking mean

  /** Merging is a union of what is known used. */
  lemma MergeIsUnion(a: Account, state: NonceState, now: Time, n: U64)
    requires a.Valid()
    ensures Merge(a, state, now).Valid()
    ensures Merge(a, state, now).KnownUsed(n) <==> a.KnownUsed(n) || state.IsUsed(n)
  {
    var base := Max(a.base, state.base);
    if state.base < n && state.IsUsed(n) {
      var i := n - state.base - 1;
      assert n == state.base + 1 + i;
      assert n in Marked(state);
    }
  }

  /** Merging keeps exactly the claims that are live and not known used. */
  lemma MergeKeepsLiveClaims(a: Account, state: NonceState, now: Time, n: U64)
    requires a.Valid()
    ensures var m := Merge(a, state, now);
            && (n in m.claims <==> a.HeldAt(n, now) && !m.KnownUsed(n))
            && (n in m.claims ==> m.claims[n] == a.claims[n])
  {
  }

  lemma MergeCommutes(a: Account, s: NonceState, t: NonceState, now: Time)
    requires a.Valid()
    ensures Merge(Merge(a, s, now), t, now) == Merge(Merge(a, t, now), s, now)
  {
    var st, ts := Merge(Merge(a, s, now), t, now), Merge(Merge(a, t, now), s, now);
    assert st.base == ts.base;
    forall n: U64 ensures n in st.used <==> n in ts.used {
    }
    assert st.used == ts.used;
    assert st.claims == ts.claims;
  }

  lemma MergeIsIdempotent(a: Account, s: NonceState, now: Time)
    requires a.Valid()
    ensures Merge(Merge(a, s, now), s, now) == Merge(a, s, now)
  {
    var m := Merge(a, s, now);
    var mm := Merge(m, s, now);
    assert mm.used == m.used;
    assert mm.claims == m.claims;
  }

  lemma {:induction false} LowestIsLeast(a: Account, from: nat)
    requires a.base < from
    ensures match Lowest(a, from)
            case Some(n) => && from <= n && a.InWindow(n) && n !in a.claims && n !in a.used
                            && forall m: U64 :: from <= m < n ==> m in a.claims || m in a.used
            case None => forall m: U64 :: from <= m && a.InWindow(m) ==> m in a.claims || m in a.used
    decreases a.base + NONCE_WINDOW + 1 - from
  {
    if from > a.base + NONCE_WINDOW || from >= MAX_U64 - NONCE_WINDOW {
    } else if from !in a.claims && from !in a.used {
    } else {
      LowestIsLeast(a, from + 1);
    }
  }

  /** The nonce is neither known used, before or by the report, nor under a live claim. */
  predicate Available(a: Account, state: NonceState, now: Time, n: U64) {
    !a.KnownUsed(n) && !state.IsUsed(n) && !a.HeldAt(n, now)
  }

  /** pick hands out the least available nonce of the merged window, and fails exactly when there
      is none; it claims that nonce and changes no other. */
  lemma PickIsLeastAvailable(a: Account, state: NonceState, hand: Hand, now: Time)
    requires a.Valid()
    ensures var m := Merge(a, state, now);
            var p := Pick(a, state, hand, now);
            && p.account.Valid()
            && (forall n: U64 :: p.nonce == Some(n) <==>
                  && m.InWindow(n) && Available(a, state, now, n)
                  && forall k: U64 :: m.InWindow(k) && k < n ==> !Available(a, state, now, k))
            && (p.nonce.None? <==> forall k: U64 :: m.InWindow(k) ==> !Available(a, state, now, k))
            && (p.nonce.Some? ==> p.account == m.(claims := m.claims[p.nonce.value := NewClaim(hand, now)]))
            && (p.nonce.None? ==> p.account == m)
  {
    var m := Merge(a, state, now);
    LowestIsLeast(m, m.base + 1);
    forall n: U64 | m.InWindow(n)
      ensures Available(a, state, now, n) <==> n !in m.claims && n !in m.used
    {
      MergeIsUnion(a, state, now, n);
      MergeKeepsLiveClaims(a, state, now, n);
    }
    MergeIsUnion(a, state, now, 0);
    hide Merge, Lowest, Available;
  }

  /** A report reads back the account's own view of every nonce in the window. */
  lemma ViewShowsUsed(a: Account, n: U64)
    requires a.Valid()
    ensures View(a).IsUsed(n) <==> a.KnownUsed(n) && n <= a.base + NONCE_WINDOW
  {
    if n > a.base && n in a.used && n <= a.base + NONCE_WINDOW {
      assert n - a.base - 1 in View(a).used;
    }
  }

  lemma StepsKeepValid(a: Account, nonce: U64, state: Option<NonceState>, outcome: Outcome, now: Time)
    requires a.Valid()
    ensures Begin(a, nonce, state, now).account.Valid()
    ensures Settle(a, nonce, outcome, now).Valid()
  {
    if state.Some? {
      MergeIsUnion(a, state.value, now, nonce);
    }
  }

  // ----- what begin and settle mean

  /** Something known of n at a time lies within the hold, in nanoseconds. */
  predicate Recent(at: Option<Time>, now: Time) { at.Some? && now < at.value + 120_000_000_000 }

  /** A claim holds its nonce while a submission is in flight, and for 120 s after it was reserved or
      last left held. */
  lemma LiveExactlyWhen(c: Claim, now: Time)
    ensures c.Live(now) <==> c.inFlight > 0 || Recent(c.reserved, now) || Recent(c.held, now)
  {
  }

  /** Whether begin, given a report, is to answer that the nonce is used. */
  predicate ShownUsed(a: Account, n: U64, report: NonceState) {
    (a.KnownUsed(n) || report.IsUsed(n)) && n <= Max(a.base, report.base) + NONCE_WINDOW
  }

  /** Whether a submission under the nonce is in flight, after a report is merged. */
  predicate StillInFlight(a: Account, n: U64, report: NonceState) {
    !a.KnownUsed(n) && !report.IsUsed(n) && n in a.claims && a.claims[n].inFlight > 0
  }

  /** begin with a report merges it, refuses a nonce it or the account shows used in the window, then
      one with a submission in flight; else it counts one submission in flight, drops a reservation,
      keeps the hold there was, and changes no other claim. */
  lemma BeginGivenReport(a: Account, n: U64, report: NonceState, now: Time)
    requires a.Valid()
    ensures var m := Merge(a, report, now);
            var b := Begin(a, n, Some(report), now);
            && (b.result.RefusedUsed? <==> ShownUsed(a, n, report))
            && (b.result.RefusedInFlight? <==> !ShownUsed(a, n, report) && StillInFlight(a, n, report))
            && (!b.result.Started? ==> b.account == m)
            && (b.result.Started? ==> ClaimedBy(m, n, b.account))
  {
    MergeIsUnion(a, report, now, n);
    MergeKeepsLiveClaims(a, report, now, n);
    ViewShowsUsed(Merge(a, report, now), n);
    assert Merge(a, report, now).base == Max(a.base, report.base);
    hide Merge, View;
  }

  /** begin without one refuses only a nonce with a submission in flight. */
  lemma BeginWithoutReport(a: Account, n: U64, now: Time)
    requires a.Valid()
    ensures var b := Begin(a, n, None, now);
            && !b.result.RefusedUsed?
            && (b.result.RefusedInFlight? <==> n in a.claims && a.claims[n].inFlight > 0)
            && (!b.result.Started? ==> b.account == a)
            && (b.result.Started? ==> ClaimedBy(a, n, b.account))
  {
  }

  /** The account with one submission in flight under n, no reservation of it, the hold it had, and
      nothing else changed. */
  predicate ClaimedBy(before: Account, n: U64, after: Account) {
    && after.base == before.base && after.used == before.used
    && n in after.claims
    && after.claims[n].inFlight == 1 && after.claims[n].reserved.None?
    && after.claims[n].held == (if n in before.claims then before.claims[n].held else None)
    && after.claims - {n} == before.claims - {n}
  }

  /** The nonces known used after settle are those known before, and this one if it is reported used. */
  lemma SettleUses(a: Account, n: U64, outcome: Outcome, now: Time, k: U64)
    ensures var s := Settle(a, n, outcome, now);
            s.base == a.base && (s.KnownUsed(k) <==> a.KnownUsed(k) || (k == n && outcome == Used))
  {
  }

  /** The claim settle leaves: none on a nonce known used; else one submission fewer, held from now if
      the transaction may be pending, and gone once nothing holds the nonce. No other claim changes. */
  lemma SettleClaims(a: Account, n: U64, outcome: Outcome, now: Time)
    ensures var s := Settle(a, n, outcome, now);
            var was := if n in a.claims then a.claims[n] else Claim(0, None, None);
            var inFlight := if was.inFlight == 0 then 0 else was.inFlight - 1;
            var pending := outcome == Accepted || outcome == Unknown || outcome == Held;
            var held := if pending then Some(now) else was.held;
            && s.claims - {n} == a.claims - {n}
            && (a.KnownUsed(n) || outcome == Used ==> n !in s.claims)
            && (!(a.KnownUsed(n) || outcome == Used) ==>
                  && (n in s.claims <==>
                        && (n in a.claims || pending)
                        && (inFlight > 0 || Recent(was.reserved, now) || Recent(held, now)))
                  && (n in s.claims ==> s.claims[n] == Claim(inFlight, was.reserved, held)))
  {
    var s := Settle(a, n, outcome, now);
    assert s.claims - {n} == a.claims - {n};
  }

  // ----- the allocator

  lemma NoWrap(n: nat)
    ensures n < TWO64 ==> n % TWO64 == n
  {
  }

  class NonceAllocator {
    var accounts: map<Did, Account>

    ghost predicate Valid()
      reads this
    {
      forall did :: did in accounts ==> accounts[did].Valid()
    }

    /** What the allocator knows of a DID: a new account until it first sees one. */
    function Known(did: Did): (a: Account)
      reads this
      ensures Valid() ==> a.Valid()
    {
      if did in accounts then accounts[did] else NEW_ACCOUNT
    }

    constructor ()
      ensures Valid() && accounts == map[]
    {
      accounts := map[];
    }

    /** merge's first loop: the bits of a report that lie above the base. It adds in u64
        arithmetic, wrapping as the source does. */
    static method MarkUsed(base: U64, known: set<U64>, state: NonceState) returns (used: set<U64>)
      requires state.base <= base
      ensures forall n: U64 :: n in used <==> n in known || (n in Marked(state) && base < n)
    {
      used := known;
      for i := 0 to NONCE_WINDOW
        invariant forall n: U64 :: n in used <==> n in known || (n in Marked(state) && base < n < state.base + 1 + i)
      {
        var n := (state.base + 1 + i) % TWO64;
        assert state.base + 1 + i in Marked(state) <==> i in state.used;
        if i in state.used && n > base {
          used := used + {n};
        }
      }
    }

    /** merge's second loop: what the base passed. */
    static method DropPassed(base: U64, known: set<U64>) returns (used: set<U64>)
      ensures used == set n | n in known && base < n
    {
      used := known;
      var todo := known;
      while todo != {}
        invariant todo <= known && used == set n | n in known && (n in todo || base < n)
        decreases |todo|
      {
        var n :| n in todo;
        if n <= base { used := used - {n}; }
        todo := todo - {n};
      }
    }

    /** merge's third loop: claims the base passed, the chain shows used, or that lapsed. */
    static method DropClaims(base: U64, used: set<U64>, all: map<U64, Claim>, now: Time)
      returns (claims: map<U64, Claim>)
      ensures claims == map n | n in all && base < n && n !in used && all[n].Live(now) :: all[n]
    {
      claims := all;
      var keys := all.Keys;
      while keys != {}
        invariant keys <= all.Keys
        invariant claims == map n | n in all && (n in keys || (base < n && n !in used && all[n].Live(now))) :: all[n]
        decreases |keys|
      {
        var n :| n in keys;
        if n <= base || n in used || !claims[n].Live(now) { claims := claims - {n}; }
        keys := keys - {n};
      }
    }

    static method MergeInto(acct: Account, state: NonceState, now: Time) returns (m: Account)
      requires acct.Valid()
      ensures m == Merge(acct, state, now)
    {
      var base := acct.base;
      if state.base > base { base := state.base; }
      var used := MarkUsed(base, acct.used, state);
      used := DropPassed(base, used);
      var claims := DropClaims(base, used, acct.claims, now);
      m := Account(base, used, claims);
      assert m.used == Merge(acct, state, now).used;
    }

    static method ViewOf(acct: Account) returns (state: NonceState)
      requires acct.Valid()
      ensures state == View(acct)
    {
      var bits := {};
      var todo := acct.used;
      while todo != {}
        invariant todo <= acct.used
        invariant bits == set n | n in acct.used - todo && n - acct.base - 1 < NONCE_WINDOW :: n - acct.base - 1
        decreases |todo|
      {
        var n :| n in todo;
        NoWrap(n - acct.base - 1);
        var offset := (n - acct.base - 1) % TWO64;
        ghost var before := acct.used - todo;
        todo := todo - {n};
        assert acct.used - todo == before + {n};
        if offset < NONCE_WINDOW { bits := bits + {offset}; }
      }
      assert acct.used - todo == acct.used;
      state := NonceState(acct.base, bits);
    }

    method Observe(did: Did, state: NonceState, now: Time) returns (known: NonceState)
      requires Valid()
      modifies this
      ensures Valid()
      ensures accounts == old(accounts)[did := Merge(old(Known(did)), state, now)]
      ensures forall n: U64 :: n <= Known(did).base + NONCE_WINDOW ==>
                (known.IsUsed(n) <==> old(Known(did)).KnownUsed(n) || state.IsUsed(n))
    {
      var acct := MergeInto(Known(did), state, now);
      forall n: U64 ensures acct.Valid() && (acct.KnownUsed(n) <==> Known(did).KnownUsed(n) || state.IsUsed(n)) {
        MergeIsUnion(Known(did), state, now, n);
      }
      accounts := accounts[did := acct];
      known := ViewOf(acct);
      forall n: U64 ensures known.IsUsed(n) <==> acct.KnownUsed(n) && n <= acct.base + NONCE_WINDOW {
        ViewShowsUsed(acct, n);
      }
    }

    /** pick's loop over the window, which stops at the chain's ceiling. */
    static method Search(acct: Account) returns (nonce: Option<U64>)
      requires acct.base < MAX_U64 - NONCE_WINDOW - 1
      ensures nonce == Lowest(acct, acct.base + 1)
    {
      var i := 1;
      while i <= NONCE_WINDOW
        invariant 1 <= i <= NONCE_WINDOW + 1
        invariant Lowest(acct, acct.base + 1) == Lowest(acct, acct.base + i)
      {
        NoWrap(acct.base + i);
        var n := (acct.base + i) % TWO64;
        if n >= MAX_U64 - NONCE_WINDOW { break; }
        if n !in acct.claims && n !in acct.used { return Some(n); }
        i := i + 1;
      }
      nonce := None;
    }

    method HandOut(did: Did, state: NonceState, hand: Hand, now: Time) returns (nonce: Option<U64>)
      requires Valid()
      modifies this
      ensures Valid()
      ensures nonce == Pick(old(Known(did)), state, hand, now).nonce
      ensures accounts == old(accounts)[did := Pick(old(Known(did)), state, hand, now).account]
    {
      MergeIsUnion(Known(did), state, now, 0);
      var acct := MergeInto(Known(did), state, now);
      hide Merge;
      accounts := accounts[did := acct];
      if acct.base >= MAX_U64 - NONCE_WINDOW - 1 {
        return None;
      }
      hide Lowest;
      nonce := Search(acct);
      if nonce.Some? {
        accounts := accounts[did := acct.(claims := acct.claims[nonce.value := NewClaim(hand, now)])];
      }
    }

    method Take(did: Did, state: NonceState, now: Time) returns (nonce: Option<U64>)
      requires Valid()
      modifies this
      ensures Valid()
      ensures nonce == Pick(old(Known(did)), state, ForSubmission, now).nonce
      ensures accounts == old(accounts)[did := Pick(old(Known(did)), state, ForSubmission, now).account]
    {
      nonce := HandOut(did, state, ForSubmission, now);
    }

    method Reserve(did: Did, state: NonceState, now: Time) returns (nonce: Option<U64>)
      requires Valid()
      modifies this
      ensures Valid()
      ensures nonce == Pick(old(Known(did)), state, ForReservation, now).nonce
      ensures accounts == old(accounts)[did := Pick(old(Known(did)), state, ForReservation, now).account]
    {
      nonce := HandOut(did, state, ForReservation, now);
    }

    method BeginSubmission(did: Did, nonce: U64, state: Option<NonceState>, now: Time) returns (r: Began)
      requires Valid()
      modifies this
      ensures Valid()
      ensures r == Begin(old(Known(did)), nonce, state, now).result
      ensures accounts == old(accounts)[did := Begin(old(Known(did)), nonce, state, now).account]
    {
      var acct := Known(did);
      StepsKeepValid(acct, nonce, state, Free, now);
      if state.Some? {
        MergeIsUnion(acct, state.value, now, nonce);
        acct := MergeInto(acct, state.value, now);
        var view := ViewOf(acct);
        if view.IsUsed(nonce) {
          accounts := accounts[did := acct];
          return RefusedUsed;
        }
      }
      if nonce in acct.claims && acct.claims[nonce].inFlight > 0 {
        accounts := accounts[did := acct];
        return RefusedInFlight;
      }
      var claim := if nonce in acct.claims then acct.claims[nonce] else FRESH_CLAIM;
      claim := claim.(inFlight := claim.inFlight + 1);
      claim := claim.(reserved := None);
      accounts := accounts[did := acct.(claims := acct.claims[nonce := claim])];
      r := Started;
    }

    method SettleSubmission(did: Did, nonce: U64, outcome: Outcome, now: Time)
      requires Valid()
      modifies this
      ensures Valid()
      ensures accounts == old(accounts)[did := Settle(old(Known(did)), nonce, outcome, now)]
    {
      var acct := Known(did);
      StepsKeepValid(acct, nonce, None, outcome, now);
      var claim := if nonce in acct.claims then Some(acct.claims[nonce]) else None;
      if claim.Some? && claim.value.inFlight > 0 {
        claim := Some(claim.value.(inFlight := claim.value.inFlight - 1));
      }
      if nonce <= acct.base || nonce in acct.used || outcome.Used? {
        var used := if nonce > acct.base then acct.used + {nonce} else acct.used;
        accounts := accounts[did := acct.(used := used, claims := acct.claims - {nonce})];
        return;
      }
      if outcome.Holds() {
        var c := if claim.Some? then claim.value else FRESH_CLAIM;
        claim := Some(c.(held := Some(now)));
      }
      if claim.Some? {
        if !claim.value.Live(now) {
          acct := acct.(claims := acct.claims - {nonce});
        } else {
          acct := acct.(claims := acct.claims[nonce := claim.value]);
        }
      }
      accounts := accounts[did := acct];
    }
  }
}
