# Verified core of the Willow Go SDK

A Dafny model of the parts of the Willow Go SDK that a caller has to be able to trust without looking:
which nonce a write goes out under, what an Ethereum state proof can and cannot make the client believe,
what a signature or a commitment binds, and what the decoders and scanners that read a node's answers
accept. Each part is modelled on the code, in the code's own form: objects that change in place are
classes, loops are loops, and each is proved against a function of which the promises are then proved.

`dafny verify dfyconfig.toml` checks the whole project.

| files | what they model |
|---|---|
| `Nonces`, `NonceRuns`, `NonceChain`, `NodeHold` | the nonce allocator, every interleaving of its steps, and the write protocol composed with the chain and with the node's hold on pending transactions |
| `Rlp`, `Mpt`, `EthState` | RLP, the Merkle Patricia proof walk, and the state answers it checks (Appendices B, C and D of the Ethereum Yellow Paper, EIP-1186) |
| `Uint128`, `Bincode`, `BincodeAppend`, `RegisterJson`, `RegisterEncoder`, `RegisterMeaning`, `RegisterText`, `Registration` | the bincode of a RegisterSubgrove transaction, what its JSON says field by field, what is checked before it is signed, and the message signed over it |
| `SignedMessages`, `MessageParser`, `Utf8` | the messages other transactions are signed over, their parser, and what their text may hold |
| `EventSet`, `Base58` | the event-set commitment and base58btc |
| `Merk`, `MerkProof`, `Envelope` | GroveDB's proof operations, the stack machine that runs them, and the proof envelope |
| `JsonScan`, `JsonCost`, `Rfc8259` | the one-pass cost scan of JSON answers, against the recursive cost of the value, for every text of RFC 8259 |
| `MerkleRoot`, `Files` | file chunking, the chunk Merkle root, and downloads |
| `Bytes` | byte strings, fixed-width and minimal integers, results |

## How it is modelled

- **Hashes** are a parameter, any function from byte strings to 32 bytes, with no assumption about it. A
  result that needs collision resistance concludes that the claim holds, or that two strings it names, both
  in the caller's hands, differ and have one hash. It never concludes that some collision exists, which
  holds of every such function.
- **Concurrency.** Every allocator method runs under one lock, so each is one atomic step, and a run is any
  sequence of steps with any reports and a clock that never goes backwards. The count of outstanding
  submissions is history the allocator cannot see.
- **The chain** follows the rule nonces.go states (20-32). The environment is otherwise free: a report is
  any past state of the chain, with or without its bitmap; an answer to a submission is arbitrary; a sent
  transaction lands at any later time the rule admits it, or never; others may use the account's nonces;
  and a caller sends a write again only under its first nonce.
- **The node** holds a pending transaction for 120 s at most (nonces.go:38-42). `NodeHold` adds that, that a
  transaction is admitted only while a submission under its nonce is in flight, and that an answer which
  gives a nonce back is true; it shows that the last cannot be dropped.
- **Integers** are unbounded, and every conversion, wrap-around and truncation of the source is written out
  where it happens. The report's 24-bit field is the set of its bit positions; a zero time is none.
- **Go strings** are strings whose characters are bytes. Digests that the source compares as hex are
  compared as digests.
- **Error paths** return a result without a value; what an error says is not modelled.

Some promises hold only under a condition. Each is stated with the input that breaks it.

- A download's chunks are documented as each the length the manifest makes it (files.go:294-296). Only a
  longer chunk is refused: `ThreeBytesForTen` and `ShortDownloadIsAccepted`. No download is longer than the
  manifest's total (`DownloadLength`), and under the content hash of a file the lengths hold if and only if
  the manifest's total is the file's length (`LengthsHoldExactlyWhen`).
- The event-set layout is documented as free of ambiguous boundaries (completeness.go:50-61), but counts and
  lengths are converted to 32 bits: `LongLogsAreAmbiguous`. Sets that share a preimage agree up to a first
  log in which a count or length differs by a multiple of 2^32 (`SharedPreimage`). So no two sets whose
  lengths fit share one (`PreimageRoundTrip`), nor two whose lengths agree (`EqualLengthsAreUnambiguous`),
  and a set of fewer than 2^32 bytes shares its preimage with none (`SmallSetsAreUnambiguous`).
- A file's chunk Merkle root binds its chunk hashes for a given count (`RootBindsHashes`), but not the count
  (`RootDoesNotBindTheCount`, `RootDoesNotBindTheLevel`). `RootsAgreeExactlyWhen` says when lists of any
  lengths share a root.
- Claimed nonces and used nonces being disjoint is no invariant of the allocator
  (`ClaimsAndUsedMayOverlap`); the one it keeps is in `StepTracks`.
- Short of a collision, a Merkle Patricia proof of a key can be accepted if and only if no node its path
  passes through holds a child in whole and no extension on it leads nowhere (`HonestProofIsAccepted`,
  `UnsupportedTrieIsRefused`).

## Model

| member | source | states |
|---|---|---|
| Nonces.MergeIsUnion | nonces.go:249-268 | Merging a report makes known used exactly what was known used or what the report shows used, for every u64 nonce, and keeps recorded nonces above the base. |
| Nonces.MergeKeepsLiveClaims | nonces.go:263-267 | Merging keeps exactly the claims that are live and whose nonce is not known used afterwards, unchanged. |
| Nonces.MergeCommutes | nonces.go:249-268 | Two reports merged in either order give the same account. |
| Nonces.MergeIsIdempotent | nonces.go:249-268 | Merging a report again changes nothing. |
| Nonces.LowestIsLeast | nonces.go:320-330 | The window search finds the least nonce without a claim or use, or shows there is none. |
| Nonces.PickIsLeastAvailable | nonces.go:306-338 | pick hands out n if and only if n is the least nonce of the merged window, below the chain's ceiling, that is neither known used nor under a live claim; it fails if and only if there is none; it claims that nonce and changes no other. |
| Nonces.ViewShowsUsed | nonces.go:271-279 | The account's report marks a nonce used exactly when the account knows it used and it lies at or below the window's end. |
| Nonces.StepsKeepValid | nonces.go:352-407 | begin and settle keep every recorded nonce above the base. |
| Nonces.LiveExactlyWhen | nonces.go:206-209 | A claim holds its nonce exactly while a submission is in flight, and for 120 s after it was reserved or last left held. |
| Nonces.BeginGivenReport | nonces.go:352-373 | Given a report, begin answers used exactly if the account or the report shows the nonce used at or below the window's end, in flight exactly if not and its claim counts a submission; otherwise one submission is in flight, no reservation, the hold there was, and nothing else changes. |
| Nonces.BeginWithoutReport | nonces.go:352-373 | Given none, it never answers used, answers in flight exactly if its claim counts a submission, and otherwise changes the account in the same way. |
| Nonces.SettleUses | nonces.go:380-392 | After settle a nonce is known used exactly if it was, or if it is the one reported used. |
| Nonces.SettleClaims | nonces.go:380-407 | settle leaves no claim on a nonce known used; on another, one submission fewer, held from now exactly for accepted, unknown and held, and no claim once nothing holds the nonce; no other claim changes. |
| Nonces.NonceAllocator.constructor | nonces.go:231-233 | A new allocator knows no account. |
| Nonces.NonceAllocator.Known | nonces.go:236-243 | An unseen DID reads as an empty account, which satisfies the account invariant. |
| Nonces.NonceAllocator.MarkUsed | nonces.go:253-257 | The bitmap loop, in u64 arithmetic that wraps, adds exactly the marked nonces above the base: a sum that wraps never passes the test. |
| Nonces.NonceAllocator.DropPassed | nonces.go:258-262 | Leaves exactly the used nonces above the base, in any iteration order. |
| Nonces.NonceAllocator.DropClaims | nonces.go:263-267 | Leaves exactly the claims above the base, not used and live, in any iteration order. |
| Nonces.NonceAllocator.MergeInto | nonces.go:249-268 | merge's three loops compute the merge of which the union and join laws are proved. |
| Nonces.NonceAllocator.ViewOf | nonces.go:271-279 | view's loop, with its wrapping subtraction, computes the report of the account. |
| Nonces.NonceAllocator.Observe | nonces.go:283-289 | Only this DID's account changes, to the merge; the answer shows used exactly what was known or reported used, up to the window's end. |
| Nonces.NonceAllocator.Search | nonces.go:320-331 | The window loop, with its ceiling test and break and in u64 arithmetic, finds the least nonce without a claim or use, or none. |
| Nonces.NonceAllocator.HandOut | nonces.go:306-338 | pick merges, hands out and claims what its specification says, and changes no other account. |
| Nonces.NonceAllocator.Take | nonces.go:294-296 | pick, claiming the nonce for one submission in flight. |
| Nonces.NonceAllocator.Reserve | nonces.go:301-303 | pick, reserving the nonce from now. |
| Nonces.NonceAllocator.BeginSubmission | nonces.go:352-373 | Runs begin on this DID's account, as the two statements on begin describe it, and changes no other account. |
| Nonces.NonceAllocator.SettleSubmission | nonces.go:380-407 | Runs settle on this DID's account, as the two statements on settle describe it, and changes no other account. |
| NonceRuns.StepForgetsNothing | nonces.go:249-407 | No step forgets that a nonce is used. |
| NonceRuns.StepBase | nonces.go:249-252 | The base a step leaves is the one it had, or its report's if that is higher. |
| NonceRuns.StepLearns | nonces.go:249-407 | A step learns that a nonce is used only from its report or from the answer for that nonce. |
| NonceRuns.HandedInWindow | nonces.go:306-338 | A nonce handed out lies in the window above the base the step leaves. |
| NonceRuns.MergeTracks | nonces.go:263-267 | A merge drops no claim that counts an outstanding submission, unless its nonce is known used. |
| NonceRuns.PickTracks | nonces.go:306-338 | pick never returns a nonce with a submission outstanding, and keeps claims and outstanding submissions in step. |
| NonceRuns.StartTracks | nonces.go:352-373 | begin keeps claims and outstanding submissions in step. |
| NonceRuns.FinishTracks | nonces.go:380-407 | settle keeps claims and outstanding submissions in step. |
| NonceRuns.StepTracks | nonces.go:249-407 | Each take, reserve, begin, settle, observe and clock advance keeps: an outstanding nonce is known used, or its claim's in-flight count is the outstanding count, which is at most 1. |
| NonceRuns.StepKeepsSafe | nonces.go:249-407 | Every step keeps that for all nonces at once. |
| NonceRuns.RunKeepsSafe | nonces.go:249-407 | So does every run, over any interleaving, any stale report and any passage of time. |
| NonceRuns.NeverHandsOutOutstanding | nonces.go:249-407 | After any run from the start, neither take nor reserve hands out a nonce with a submission outstanding, and a nonce not known used has at most one. |
| NonceRuns.ClaimsAndUsedMayOverlap | nonces.go:352-373 | Claims and used nonces being disjoint is not an invariant: after any run, at any nonce above the base and not outstanding, begin, settle as used and begin with no report make them overlap. |
| NonceRuns.StepKeepsHold | nonces.go:194-209 | Within NonceHold, no step drops a hold or hands out its nonce. |
| NonceRuns.MergeKeeps | nonces.go:263-267 | A live claim survives a merge unchanged, or its nonce is known used after it. |
| NonceRuns.PickKeeps | nonces.go:306-338 | pick neither returns nor disturbs a nonce that is known used or under a live claim. |
| NonceRuns.ClockNeverRunsBack | nonces.go:194-209 | The clock at a run's end is no earlier than at its start. |
| NonceRuns.RunKeepsHold | nonces.go:194-209 | Within NonceHold of a hold, no event of any run hands its nonce out. |
| NonceRuns.HoldLasts | nonces.go:380-407 | After a submission settles as accepted, held or unknown at time t, no run that ends before t + NonceHold hands out its nonce, whatever else settles under it, even as free. |
| NonceRuns.StepKeepsReservation | nonces.go:301-303 | Within NonceHold, no step but a submission under it drops a reservation, and none hands out its nonce. |
| NonceRuns.RunKeepsReservation | nonces.go:301-303 | The same over every run. |
| NonceRuns.ReservationLasts | nonces.go:301-303 | A reserved nonce is not handed out again within NonceHold, unless a submission under it starts. |
| NonceRuns.InFlightNeverLapses | nonces.go:196-209 | A nonce with a submission in flight is not handed out in a run of any length and duration in which that submission does not settle. |
| NonceRuns.FreedAtOnce | nonces.go:380-407 | A nonce refused without being held or used, under no earlier hold, is free at once. |
| NonceRuns.HoldEndsExactly | nonces.go:380-407 | With nothing else in flight or reserved, a nonce left held is held for exactly 120 s. |
| NonceChain.AdvanceSettles | nonces.go:20-32 | The chain's base advances over used nonces with no gap below them, and which nonces are used does not change. |
| NonceChain.LandUsesOne | nonces.go:20-32 | A landing uses exactly one more nonce and never lowers the base. |
| NonceChain.ReportIsTrue | nonces.go:20-32 | What a settled chain's report shows used is used. |
| NonceChain.LandKeepsInv | nonces.go:20-32 | A landing keeps the invariant of client and chain together. |
| NonceChain.BaseComesFromReports | nonces.go:249-252 | No client step takes its base beyond the chain's. |
| NonceChain.SendsKeepWriteInv | nonces.go:610-718 | Every write sent is signed under the nonce it is sent under, and no write is sent under two. |
| NonceChain.ClientKeepsInv | nonces.go:610-718 | Every step of the client keeps the invariant of client and chain together. |
| NonceChain.StepKeepsInv | nonces.go:610-718 | Every write, resend, wait, answer, clock advance and landing keeps that invariant. |
| NonceChain.RunKeepsInv | nonces.go:610-718 | So does every run. |
| NonceChain.StartIsSafe | nonces.go:231-233 | The start satisfies it. |
| NonceChain.WritesLandAtMostOnce | nonces.go:610-718 | In every run in which a write is sent again only under its first nonce, no write lands twice, though answers are arbitrary and may call a transaction refused that lands. |
| NonceChain.NeverAheadOfTheChain | nonces.go:306-338 | The client's base never exceeds the chain's, and a nonce handed out is never beyond the window the chain accepts. |
| NonceChain.OutstandingNoncesAreDistinct | nonces.go:610-718 | No two submissions outstanding share a nonce the client does not know used. |
| NonceChain.ReportsAreTrue | nonces.go:20-32 | A nonce any past report shows used is used on the chain now. |
| NonceChain.ClientKeepsTruth | nonces.go:249-407 | What a client step learns is used is used on the chain, if an answer that names a nonce used is true. |
| NonceChain.StepKeepsTruth | nonces.go:249-407 | So does every step, if an answer that names a nonce used is true. |
| NonceChain.HonestRunKeepsTruth | nonces.go:249-407 | And every run. |
| NonceChain.KnownUsedIsUsed | nonces.go:20-32 | If answers that name a nonce used are true, every nonce the client counts used is used on the chain. |
| NonceChain.CurrentReportIsExact | nonces.go:64-80 | A report of the chain as it is, with its bitmap, shows a nonce up to the window's end used exactly if the chain uses it. |
| NonceChain.PicksFromTheChainsWindow | nonces.go:306-338 | Over a current report, a nonce handed out is one the chain accepts, and none is handed out only if the client knows used, or holds, every nonce the chain accepts. |
| NonceChain.HandsOutWhatTheChainAccepts | nonces.go:306-338 | In every honest run, a write over a current report gets a nonce the chain accepts, unless the client holds every one. |
| NodeHold.InFlightIsRefused | nonces.go:352-373 | A submission in flight is not started again, unless its nonce is known used. |
| NodeHold.OpenStaysCovered | nonces.go:249-407 | A nonce whose submission in flight the node admitted stays outstanding, held or known used through every step. |
| NodeHold.StepCovers | nonces.go:249-407 | Every step leaves an admitted nonce outstanding, held since its admission or known used, and does not hand it out while it may be pending. |
| NodeHold.ProtocolKeepsInv | nonces.go:610-718 | Every step of the protocol keeps that of all admitted transactions. |
| NodeHold.StepKeepsInv | nonces.go:610-718 | So does every admission. |
| NodeHold.RunKeepsInv | nonces.go:610-718 | And every run. |
| NodeHold.NeverHandsOutPending | nonces.go:38-42 | With the node's hold of at most 120 s, in every run in which an answer that gives a nonce back is true, no nonce is handed out under which a transaction of this client may be pending at the node. |
| NodeHold.MisreportedRefusal | nonces.go:380-407 | That assumption is needed: an answer that gives back the nonce of an admitted transaction has the next write signed under it while the first is pending. |
| Rlp.UintToMinBEIsMinimal | eth_state.go:829-844 | uintToMinBE gives the shortest big-endian bytes of its argument, at most eight, which read back as it. |
| Rlp.LongLength | eth_state.go:708-723 | Every length accepted lies, with its own bytes, inside the input. |
| Rlp.DecodeItem | eth_state.go:675-701 | Every accepted item is the bytes that end where the next item starts, lies inside the input, and advances the reader. |
| Rlp.ReadLongLength | eth_state.go:708-723 | The length loop in u64 arithmetic never wraps and reads the big-endian value. |
| Rlp.ReadItems | eth_state.go:660-671 | The item loop decodes the whole payload, or refuses it. |
| Rlp.ReadList | eth_state.go:636-671 | rlpDecodeList against its specification, of which the round trip is proved. |
| Rlp.LongHead | eth_state.go:736-746 | A long head has one to eight length bytes that read back as the length. |
| Rlp.ListHead | eth_state.go:736-746 | The first byte of an encoded list is at least 0xc0, which tells it from a string. |
| Rlp.ByteItem | eth_state.go:725-734 | A single byte below 0x80 reads back as itself. |
| Rlp.ShortItem | eth_state.go:725-734 | The short form of a string reads back. |
| Rlp.LongItem | eth_state.go:725-734 | The long form of a string reads back. |
| Rlp.ItemRoundTrip | eth_state.go:675-734 | An encoded string reads back exactly, whatever follows it. |
| Rlp.LongPayload | eth_state.go:636-659 | The long form of a list reads back its payload. |
| Rlp.PayloadRoundTrip | eth_state.go:636-659 | A list's payload reads back, whatever follows the list. |
| Rlp.ItemsCons | eth_state.go:660-671 | Reading one member at the front of a payload: a string is read, a nested list refuses the whole. |
| Rlp.ItemsRoundTrip | eth_state.go:660-671 | A payload of members reads back exactly when none is a nested list. |
| Rlp.ListRoundTrip | eth_state.go:636-746 | rlpDecodeList inverts rlpEncodeList on every list of byte strings, short and long forms, and refuses exactly the lists that hold a nested list. |
| Rlp.EncodeBytesInjective | eth_state.go:725-734 | Distinct strings have distinct encodings. |
| Rlp.AnyLongItem | eth_state.go:675-701 | A string's long form reads back whatever the width of its length, minimal or not. |
| Rlp.AnyLongPayload | eth_state.go:636-659 | And so does a list's. |
| Mpt.NibblesInvertPack | eth_state.go:765-772 | Nibbles of packed nibbles are the nibbles. |
| Mpt.NibblesAt | eth_state.go:765-772 | Each byte gives its high and low half, in order. |
| Mpt.CompactPathInverts | eth_state.go:774-790 | decodeCompactPath inverts the hex-prefix encoding (Appendix C of the Ethereum Yellow Paper), for odd and even paths, leaves and extensions. |
| Mpt.MptLookup | eth_state.go:560-625 | mptLookup's loop over the proof nodes computes the recursive walk of which soundness is proved. |
| Mpt.MembersFit | eth_state.go:560-625 | The members of a well-formed trie's nodes are within what RLP can write. |
| Mpt.NodeIsList | eth_state.go:560-625 | A node of a trie with anything in it is an RLP list, so never the empty node. |
| Mpt.NodeDecodes | eth_state.go:636-671 | A trie's own node decodes to its members, unless a child is put in whole. |
| Mpt.VisitLeaf | eth_state.go:602-620 | A trie's leaf answers what the trie holds. |
| Mpt.VisitExt | eth_state.go:602-620 | A trie's extension is refused exactly if its child is put in whole, or is on the path and empty; leads to its child exactly if the path goes on through it; and otherwise answers what the trie holds. |
| Mpt.VisitBranch | eth_state.go:586-601 | A trie's branch is refused exactly if it holds a child in whole; leads to the child of the next nibble exactly if that is not empty; and otherwise answers what the trie holds. |
| Mpt.WalkAnswersTheTrie | eth_state.go:560-625 | A walk from a trie's root, over any nodes, refuses, answers what the trie holds, or meets a node that collides with the trie's own at the same depth. |
| Mpt.CollisionBelow | eth_state.go:560-625 | A collision in a child's walk is one in the whole walk. |
| Mpt.DescendInto | eth_state.go:560-625 | If a node leads to a child of the trie, soundness of walks from the child gives soundness of walks from the node. |
| Mpt.LookupAnswersTheTrie | eth_state.go:560-625 | For any trie, key and prover-chosen nodes, an accepted mptLookup under the trie's root is exactly the trie's lookup, present or absent, or a named pair of nodes collides. |
| Mpt.HonestWalk | eth_state.go:560-625 | The trie's own nodes along a path walk to its answer. |
| Mpt.HonestStep | eth_state.go:560-625 | If a node leads to a child of the trie, acceptance of the child's honest proof gives acceptance of the node's. |
| Mpt.HonestProofIsAccepted | eth_state.go:560-625 | The honest proof of any key, present or absent, is accepted with the trie's answer, where no node the path passes through holds a child in whole, on the path or off it, and no extension on the path leads nowhere. |
| Mpt.WalkIsRefused | eth_state.go:560-625 | And only there: otherwise a walk over any nodes from the trie's root is refused, or meets a node that collides with the trie's own. |
| Mpt.RefusedBelow | eth_state.go:560-625 | If a node leads to a child from which every walk is refused or collides, so is every walk from the node. |
| Mpt.UnsupportedTrieIsRefused | eth_state.go:560-625 | So, for a key whose path passes a node with a child put in whole, mptLookup refuses every proof, or the proof holds a named collision. |
| Mpt.OtherLengthsAreRefused | eth_state.go:561-566 | A root or key that is not 32 bytes is refused. |
| Mpt.EmptyProofs | eth_state.go:567-572 | No nodes, or the empty node alone, show every key absent under the empty trie's root, and are refused under any other. |
| Mpt.LaterNodesAreIgnored | eth_state.go:577-625 | Nodes behind the one that answers change nothing. |
| Mpt.WrongNodesAreRefused | eth_state.go:578-580 | A walk is refused at a node without the hash expected, and where the nodes end. |
| Mpt.WalksAgree | eth_state.go:560-625 | Two walks from one hash agree, or one refuses, or they hold a pair of nodes that collide. |
| Mpt.WalkRefusesEmptyNode | eth_state.go:560-625 | A walk refuses to start at the empty node. |
| Mpt.ProofsAgree | eth_state.go:560-625 | Under one root and key, honest root or not, two accepted proofs give one answer, or hold a pair of nodes that collide. |
| EthState.WireBytes | eth_state.go:364-376 | Accepts exactly n numbers that are each a byte, and returns them. |
| EthState.CutKeepsLowBits | eth_state.go:804-810 | intsToBytes keeps the low eight bits of each number. |
| EthState.AccountDecodes | eth_state.go:748-755 | The RLP of an account decodes to the minimal bytes of its nonce and balance and to its two hashes. |
| EthState.EncodeAccountInjective | eth_state.go:748-755 | The RLP of an account determines the account. |
| EthState.WalkAccount | eth_state.go:477-507 | The account half of walkStateProof: the root under which slots are then walked. What it accepts is in AccountIsTrue and TrueAccountIsAccepted. |
| EthState.WalkSlot | eth_state.go:509-528 | The slot half, with its three mismatch cases. |
| EthState.WalkStateProof | eth_state.go:477-530 | Accepts exactly when the account half and every slot half do. What that means is in AccountIsTrue, StateReadIsTrue and TrueAnswerIsAccepted. |
| EthState.CheckStateAnswer | eth_state.go:381-423 | Accepts exactly the answers for the address, block and slots asked, in order, with no word over 32 bytes. |
| EthState.AnswersExactlyWhen | eth_state.go:381-423 | An answer passes exactly if it names the address, the block and the slots asked for, in order, and no number in it is longer than 32 bytes. |
| EthState.AccountIsTrue | eth_state.go:477-507 | If the account proof is accepted under a state trie's root, the trie's leaf decodes to exactly the nonce, balance, storage hash and code hash of the answer; and if the trie holds no leaf, the answer says nonce 0, balance 0, the empty or a zero storage root and code hash, and slots are walked under the empty root; or a named pair collides. |
| EthState.SlotIsTrue | eth_state.go:509-528 | If a slot proof is accepted under a storage trie's root, the claimed value is the one the trie holds, and an absent slot is claimed zero; or a named pair collides. |
| EthState.StateReadIsTrue | eth_state.go:381-530 | An answer that passes both checks states, for every slot asked, the value the address's storage trie holds under the answer's state root, absent accounts and slots as zero; or one of the two proofs holds a named collision. |
| EthState.TrueAccountIsAccepted | eth_state.go:477-507 | The converse: a true account, or a true absence, with the trie's own proof is accepted. |
| EthState.TrueSlotIsAccepted | eth_state.go:509-528 | A true slot value, or a true zero, with the trie's own proof is accepted. |
| EthState.TrueAnswerIsAccepted | eth_state.go:477-530 | An answer true of the state trie and of its account's storage trie is accepted with the tries' own proofs. |
| EthState.WordFits | eth_state.go:381-391 | A word of at most 32 bytes is within every length limit. |
| Uint128s.Print | consensus/uint128.go:78-87 | The decimal text of a value is digits that read back as the value. |
| Uint128s.PrintIsShortest | consensus/uint128.go:85-87 | The decimal text of a value has no leading zero, but for zero itself. |
| Uint128s.Mul64 | consensus/uint128.go:50-75 | The two words of a product of u64s are the whole product. |
| Uint128s.Add64 | consensus/uint128.go:50-75 | A sum and its carry are the whole sum, and the carry is 0 or 1. |
| Uint128s.TrimLeft0 | consensus/uint128.go:50-75 | Removes zeros, and all of them, from the front only. |
| Uint128s.LeadingZeros | consensus/uint128.go:50-75 | Leading zeros do not change a value. |
| Uint128s.LongNumbersAreLarge | consensus/uint128.go:50-75 | A number whose first of k digits is not zero is at least 10^(k-1). |
| Uint128s.FortyDigitsOverflow | consensus/uint128.go:58-60 | The 39-digit cut refuses no number below 2^128. |
| Uint128s.MulAdd | consensus/uint128.go:63-72 | The three carries are zero exactly when ten times the value plus the digit fits 128 bits, and then the two halves hold it: no overflow is missed. |
| Uint128s.ReadDigits | consensus/uint128.go:61-74 | The digit loop succeeds exactly when the value is below 2^128, and reads it. |
| Uint128s.HasOnlyDigits | consensus/uint128.go:52-57 | Accepts exactly the runs of decimal digits. |
| Uint128s.ParseUint128 | consensus/uint128.go:50-75 | Succeeds if and only if the text is a non-empty run of decimal digits with a value below 2^128, and then Hi*2^64+Lo is that value. |
| Uint128s.FromBig | consensus/uint128.go:27-39 | Succeeds if and only if the integer is from 0 to 2^128-1, and then the halves hold it. |
| Uint128s.ValueInjective | consensus/uint128.go:78-82 | The halves are determined by the value. |
| Uint128s.PrintThenParse | consensus/uint128.go:50-87 | Parsing the printed form returns the original. |
| Uint128s.LittleEndianIsTheValue | consensus/uint128.go:96-99 | appendLittleEndian writes the sixteen little-endian bytes of the value. |
| Bincode.VecFront | consensus/register_subgrove.go:82-85 | A length-prefixed byte vector reads back, whatever follows it. |
| Bincode.StrFront | consensus/register_subgrove.go:86-86 | A string reads back. |
| Bincode.StrsFront | consensus/register_subgrove.go:87-92 | A list of strings reads back. |
| Bincode.OptionFront | consensus/register_subgrove.go:295-303 | An option reads back if what it holds does. |
| Bincode.TeeFront | consensus/register_subgrove.go:333-339 | A TEE type reads back from its index. |
| Bincode.PricingFront | consensus/register_subgrove.go:443-468 | Read pricing reads back. |
| Bincode.DataFront | consensus/register_subgrove.go:483-511 | A DataStorage mode reads back. |
| Bincode.FileFront | consensus/register_subgrove.go:512-546 | A FileStorage mode reads back. |
| Bincode.ModuleFront | consensus/register_subgrove.go:567-590 | A WASM module reads back. |
| Bincode.ModulesFront | consensus/register_subgrove.go:558-590 | A list of modules reads back. |
| Bincode.ExecutionFront | consensus/register_subgrove.go:592-626 | An execution mode reads back. |
| Bincode.IndexersFront | consensus/register_subgrove.go:628-668 | An indexer configuration reads back. |
| Bincode.RetentionFront | consensus/register_subgrove.go:670-687 | A retention window reads back. |
| Bincode.CompletenessFront | consensus/register_subgrove.go:689-726 | A completeness configuration reads back. |
| Bincode.AuthFront | consensus/register_subgrove.go:728-732 | A historical auth mode reads back. |
| Bincode.IndexingFront | consensus/register_subgrove.go:552-733 | A BlockchainIndexing mode reads back. |
| Bincode.ModeFront | consensus/register_subgrove.go:470-550 | Any mode reads back from its variant index. |
| Bincode.FrequencyFront | consensus/register_subgrove.go:747-765 | A commitment frequency reads back. |
| Bincode.PrivacyFront | consensus/register_subgrove.go:735-766 | A privacy configuration reads back. |
| Bincode.AllowedFront | consensus/register_subgrove.go:740-746 | The allowed indexers, or none, read back. |
| Bincode.KeyGrantFront | consensus/register_subgrove.go:768-809 | A key grant reads back. |
| Bincode.TemplateFront | consensus/register_subgrove.go:811-851 | A template configuration reads back. |
| Bincode.IdentityFront | consensus/register_subgrove.go:346-369 | The six leading fields read back. |
| Bincode.TailFront | consensus/register_subgrove.go:414-440 | The trailing fields, with an empty signature, read back. |
| Bincode.TxRoundTrip | consensus/register_subgrove.go:341-441 | Decoding the bytes of any transaction, followed by anything, gives back the transaction and what follows. |
| BincodeAppend.TxAppends | consensus/register_subgrove.go:341-441 | What a transaction's bytes are does not depend on what follows them. |
| RegisterJson.IndexOf | consensus/register_subgrove.go:322-330 | A variant's index is a position that holds its name; the search fails exactly when no position does. |
| RegisterJson.AsUint | consensus/register_subgrove.go:200-210 | A number read fits the bits asked for. |
| RegisterJson.BincodeBindsTheTransaction | consensus/register_subgrove.go:11-37 | Two accepted JSON values give equal bytes if and only if they denote the same transaction, defaults filled in, up to its signature. |
| RegisterJson.BincodeIsPrefixFree | consensus/register_subgrove.go:11-37 | An accepted value's bytes begin another's if and only if the two denote the same transaction. |
| RegisterMeaning.StrsMean | consensus/register_subgrove.go:167-181 | An array is read as strings exactly if its items are those strings, in order. |
| RegisterMeaning.UintMeans | consensus/register_subgrove.go:200-210 | A number is read exactly if its text is digits that spell a value within the bits asked for. |
| RegisterMeaning.AmountMeans | consensus/register_subgrove.go:230-248 | A u128 is read from digits below 2^128, in a number, or in a string where one is allowed, and from nothing else. |
| RegisterMeaning.BytesMean | consensus/register_subgrove.go:270-284 | An array is read as bytes exactly if its items spell those bytes, in order. |
| RegisterMeaning.OptionMeans | consensus/register_subgrove.go:295-303 | An option is none exactly if the field is left out or null, and else what its value says. |
| RegisterMeaning.TagMeans | consensus/register_subgrove.go:307-319 | A variant is its name, or an object of that name alone, and carries what is under it. |
| RegisterMeaning.PricingMeans | consensus/register_subgrove.go:443-468 | Read pricing is read exactly from its three fields, by name. |
| RegisterMeaning.DataMeans | consensus/register_subgrove.go:483-511 | A DataStorage mode is read exactly from its fields, by name, the free readers under one of two names but not both. |
| RegisterMeaning.FileMeans | consensus/register_subgrove.go:512-546 | A FileStorage mode is read exactly from its fields, by name, with retention 0 if left out. |
| RegisterMeaning.ModuleMeans | consensus/register_subgrove.go:567-590 | A module is read exactly from its three fields, its hash of 32 bytes. |
| RegisterMeaning.ExecutionMeans | consensus/register_subgrove.go:592-626 | An execution mode is read exactly from its variant's name and field. |
| RegisterMeaning.IndexersMean | consensus/register_subgrove.go:628-668 | An indexer configuration is read exactly from its fields, by name, with epoch length 100 if left out. |
| RegisterMeaning.RetentionMeans | consensus/register_subgrove.go:670-687 | A retention window is read exactly from its variant, Indefinite if left out. |
| RegisterMeaning.CompletenessMeans | consensus/register_subgrove.go:689-726 | A completeness configuration is read exactly from its fields, not deferred and with bond 0 if they are left out. |
| RegisterMeaning.AuthMeans | consensus/register_subgrove.go:728-732 | A historical auth mode is read exactly from its name, BftEquivalent if left out. |
| RegisterMeaning.IndexingMeans | consensus/register_subgrove.go:552-733 | A BlockchainIndexing mode is read exactly from its fields, by name. |
| RegisterMeaning.ModeMeans | consensus/register_subgrove.go:470-550 | A mode is read exactly from its variant's name and what it carries. |
| RegisterMeaning.PrivacyMeans | consensus/register_subgrove.go:735-766 | A privacy configuration is read exactly from its fields, by name. |
| RegisterMeaning.KeyGrantMeans | consensus/register_subgrove.go:768-809 | A key grant is read exactly from its seven fields, by name. |
| RegisterMeaning.TemplateMeans | consensus/register_subgrove.go:811-851 | A template configuration is read exactly from its fields, by name. |
| RegisterMeaning.IdentityMeans | consensus/register_subgrove.go:346-369 | The id, name, description, schema, owner and admins are read exactly from the fields of those names, the description "" and no admins if left out. |
| RegisterMeaning.TailMeans | consensus/register_subgrove.go:414-440 | The trailing fields are read exactly from the fields of their names, and a signature must be there. |
| RegisterMeaning.TxMeans | consensus/register_subgrove.go:341-441 | A JSON value is read as a transaction if and only if each field the chain names says that transaction's, or is left out and the transaction has its default. |
| RegisterText.TextRoundTrip | consensus/register_subgrove.go:11-37 | The JSON of any transaction, written out field by field with any signature, is read back as the transaction. |
| RegisterText.BincodeMeans | consensus/register_subgrove.go:11-37 | The bytes returned for a JSON value are those of a transaction if and only if the JSON says that transaction. |
| RegisterText.OmittedFieldsTakeDefaults | consensus/register_subgrove.go:22-26 | What a transaction holds where its JSON leaves a field out: the documented default, for each such field. |
| RegisterText.OmittedIndexingFields | consensus/register_subgrove.go:552-733 | The same for an indexing mode: no modules, Indefinite, no completeness, BftEquivalent, epoch length 100. |
| RegisterText.RequiredFieldsAreNeeded | consensus/register_subgrove.go:11-26 | No JSON without one of the seven required fields is read. |
| RegisterText.WithoutDescription | consensus/register_subgrove.go:353-357 | Leaving the description out of a transaction's JSON gives that transaction with "". |
| RegisterText.WithoutAdmins | consensus/register_subgrove.go:365-369 | Leaving the admins out gives it with none. |
| RegisterText.WithoutFunding | consensus/register_subgrove.go:370-379 | Leaving the initial funding out gives it with none. |
| RegisterText.WithoutVerification | consensus/register_subgrove.go:380-392 | Leaving checkpoint_verification out gives it with no required TEE. |
| RegisterText.WithoutMode | consensus/register_subgrove.go:393-404 | Leaving the mode out gives it with DataStorage, an empty name and lists, and no pricing. |
| RegisterText.WithoutPrivacy | consensus/register_subgrove.go:405-407 | Leaving the privacy out gives it with none. |
| RegisterText.WithoutOwnerKeyGrant | consensus/register_subgrove.go:408-410 | Leaving the owner key grant out gives it with none. |
| RegisterText.WithoutTemplate | consensus/register_subgrove.go:411-413 | Leaving the template out gives it with none. |
| RegisterText.WithoutDepth | consensus/register_subgrove.go:414-418 | Leaving the confirmation depth out gives it with 0. |
| RegisterText.WithoutCompleteness | consensus/register_subgrove.go:435-439 | Leaving cryptographic_completeness out gives it with false. |
| RegisterText.WithoutEpochLength | consensus/register_subgrove.go:652-655 | Leaving the epoch length out gives the configuration with 100. |
| RegisterText.WithoutBond | consensus/register_subgrove.go:711-722 | Leaving the bond or the deferral out gives the configuration with 0, or not deferred. |
| RegisterText.WithoutRetentionPeriod | consensus/register_subgrove.go:541-545 | Leaving the retention period out gives the mode with 0. |
| RegisterText.WithoutModules | consensus/register_subgrove.go:558-566 | Leaving the modules out of an indexing mode gives it with none. |
| RegisterText.WithoutWindow | consensus/register_subgrove.go:670-687 | Leaving the retention window out gives it with Indefinite. |
| RegisterText.WithoutCompletenessConfig | consensus/register_subgrove.go:689-726 | Leaving the completeness configuration out gives it with none. |
| RegisterText.WithoutAuthMode | consensus/register_subgrove.go:728-732 | Leaving the historical auth mode out gives it with BftEquivalent. |
| RegisterEncoder.ReadStrings | consensus/register_subgrove.go:167-181 | asStrings' loop reads every string in order, or refuses. |
| RegisterEncoder.ReadBytes | consensus/register_subgrove.go:270-284 | asBytes' loop reads every byte in order, or refuses, and its narrowing to a byte never truncates. |
| RegisterEncoder.ParseU128 | consensus/register_subgrove.go:230-248 | A u128 from a number, or from a string where one is allowed: refused exactly when it is not decimal digits below 2^128. |
| RegisterEncoder.BincodeEncoder.constructor | consensus/register_subgrove.go:32-32 | A new encoder's buffer is empty. |
| RegisterEncoder.BincodeEncoder.U8 | consensus/register_subgrove.go:69-69 | Appends one byte. |
| RegisterEncoder.BincodeEncoder.U32 | consensus/register_subgrove.go:70-70 | Appends four little-endian bytes. |
| RegisterEncoder.BincodeEncoder.U64 | consensus/register_subgrove.go:71-71 | Appends eight little-endian bytes. |
| RegisterEncoder.BincodeEncoder.U128 | consensus/register_subgrove.go:72-74 | Appends the sixteen little-endian bytes of the value, from its two halves. |
| RegisterEncoder.BincodeEncoder.Boolean | consensus/register_subgrove.go:75-81 | Appends 1 or 0. |
| RegisterEncoder.BincodeEncoder.BytesVec | consensus/register_subgrove.go:82-85 | Appends a u64 length and the bytes. |
| RegisterEncoder.BincodeEncoder.Str | consensus/register_subgrove.go:86-86 | Appends a u64 length and the string's bytes. |
| RegisterEncoder.BincodeEncoder.Strs | consensus/register_subgrove.go:87-92 | Appends a u64 count and every string, in order. |
| RegisterEncoder.BincodeEncoder.OptionTag | consensus/register_subgrove.go:295-303 | Appends 0 for an absent or null field, else 1, and says which. |
| RegisterEncoder.BincodeEncoder.Variant | consensus/register_subgrove.go:322-330 | Appends the index of the name's first occurrence, and fails exactly when there is none. |
| RegisterEncoder.BincodeEncoder.UnitVariant | consensus/register_subgrove.go:333-339 | The same for a name given as a string; anything else fails. |
| RegisterEncoder.BincodeEncoder.ReadPricing | consensus/register_subgrove.go:443-468 | Fails exactly when the pricing cannot be read, else appends its bytes; the u32 narrowing never truncates. |
| RegisterEncoder.BincodeEncoder.DataStorage | consensus/register_subgrove.go:483-511 | Fails exactly when the mode cannot be read, with free_readers or readers but not both, else appends its bytes. |
| RegisterEncoder.BincodeEncoder.FileStorage | consensus/register_subgrove.go:512-546 | Fails exactly when the mode cannot be read, else appends its bytes; the u8 narrowing never truncates. |
| RegisterEncoder.BincodeEncoder.WasmModule | consensus/register_subgrove.go:567-590 | Fails exactly when the module cannot be read or its hash is not 32 bytes, else appends its bytes. |
| RegisterEncoder.BincodeEncoder.WriteModule | consensus/register_subgrove.go:586-589 | Appends a module's name, hash and content. |
| RegisterEncoder.BincodeEncoder.WasmModules | consensus/register_subgrove.go:558-590 | The module loop appends the count and every module, or fails at the first that cannot be read. |
| RegisterEncoder.BincodeEncoder.ExecutionMode | consensus/register_subgrove.go:592-626 | Fails exactly when the mode cannot be read, else appends its index and fields. |
| RegisterEncoder.BincodeEncoder.ExecutionVariant | consensus/register_subgrove.go:596-626 | Fails exactly when the variant is unknown or its fields cannot be read, else appends its index and fields; the u8 narrowing never truncates. |
| RegisterEncoder.BincodeEncoder.IndexerConfig | consensus/register_subgrove.go:628-668 | Fails exactly when the configuration cannot be read, else appends its bytes, epoch length 100 by default. |
| RegisterEncoder.BincodeEncoder.RetentionWindow | consensus/register_subgrove.go:670-687 | Fails exactly when the window cannot be read, else appends its bytes, Indefinite by default. |
| RegisterEncoder.BincodeEncoder.RetentionVariant | consensus/register_subgrove.go:671-684 | Fails exactly when the variant is unknown or its count cannot be read, else appends its index and count. |
| RegisterEncoder.BincodeEncoder.ConfigHash | consensus/register_subgrove.go:696-710 | Fails exactly if the field is not an array of four u32 values, else appends them. |
| RegisterEncoder.BincodeEncoder.Words4 | consensus/register_subgrove.go:703-709 | The loop over the values appends them in order, or fails exactly when one does not fit; the u32 narrowing never truncates. |
| RegisterEncoder.BincodeEncoder.Completeness | consensus/register_subgrove.go:689-726 | Fails exactly when the configuration cannot be read, else appends its bytes, with bond 0 by default. |
| RegisterEncoder.BincodeEncoder.HistoricalAuthMode | consensus/register_subgrove.go:728-732 | Fails exactly when the mode cannot be read, else appends its index, BftEquivalent by default. |
| RegisterEncoder.BincodeEncoder.BlockchainIndexing | consensus/register_subgrove.go:552-733 | Fails exactly when the mode cannot be read, else appends its bytes. |
| RegisterEncoder.BincodeEncoder.SubgroveMode | consensus/register_subgrove.go:470-550 | Fails exactly when the mode cannot be read, else appends its index and bytes. |
| RegisterEncoder.BincodeEncoder.ModeVariant | consensus/register_subgrove.go:475-549 | Fails exactly when the variant is unknown or its fields cannot be read, else appends its index and bytes. |
| RegisterEncoder.BincodeEncoder.CommitmentFrequency | consensus/register_subgrove.go:747-765 | Fails exactly when the frequency cannot be read, else appends its bytes. |
| RegisterEncoder.BincodeEncoder.FrequencyVariant | consensus/register_subgrove.go:751-764 | Fails exactly when the variant is unknown or its count cannot be read, else appends its index and count. |
| RegisterEncoder.BincodeEncoder.AllowedIndexersOption | consensus/register_subgrove.go:740-746 | Fails exactly when the allowed indexers cannot be read, else appends them, or none. |
| RegisterEncoder.BincodeEncoder.Privacy | consensus/register_subgrove.go:735-766 | Fails exactly when the configuration cannot be read, else appends its bytes. |
| RegisterEncoder.BincodeEncoder.KeyGrant | consensus/register_subgrove.go:768-809 | Fails exactly when the grant cannot be read, else appends its bytes; the u32 narrowing never truncates. |
| RegisterEncoder.BincodeEncoder.TemplateConfig | consensus/register_subgrove.go:811-851 | Fails exactly when the configuration cannot be read, else appends its bytes; the u32 narrowing never truncates. |
| RegisterEncoder.BincodeEncoder.IdentityFields | consensus/register_subgrove.go:346-369 | Fails exactly when one of the six leading fields cannot be read (see IdentityMeans for which field is which), else appends them in order, description "" and no admins by default. |
| RegisterEncoder.BincodeEncoder.RequiredTeeOption | consensus/register_subgrove.go:380-392 | Appends the required TEE type, or none. |
| RegisterEncoder.BincodeEncoder.DefaultMode | consensus/register_subgrove.go:396-404 | Appends the bytes of DataStorage with an empty name and lists and no pricing. |
| RegisterEncoder.BincodeEncoder.TailFields | consensus/register_subgrove.go:414-440 | Fails exactly when a trailing field cannot be read, the signature included, else appends them with an empty signature. |
| RegisterEncoder.BincodeEncoder.RegisterSubgrove | consensus/register_subgrove.go:341-441 | Fails exactly when the JSON denotes no transaction, else appends the bytes of the transaction it denotes, which TxMeans fixes field by field. |
| RegisterEncoder.RegisterSubgroveUnsignedBincode | consensus/register_subgrove.go:27-37 | Returns the bytes of the transaction the JSON denotes, or refuses exactly when it denotes none; TxMeans and BincodeMeans fix which transaction that is. |
| Registration.ValidateStorageSubgroveID | signed_messages.go:201-216 | Accepts exactly 1 to 64 ASCII letters, digits, '-' and '_', the first a letter or digit. |
| Registration.ValidateDids | signed_messages.go:251-274 | Accepts exactly the lists of valid DIDs. |
| Registration.CheckOwnerGrant | signed_messages.go:278-288 | In a private DataStorage registration, accepts an initial owner key grant exactly if it is of epoch 0, to the owner, a valid DID. |
| Registration.CheckStorageRegistration | signed_messages.go:247-290 | Accepts exactly the DataStorage and FileStorage registrations with a valid id, valid DIDs, a schema that passes the schema check, and no wrong owner key grant. |
| Registration.IdExactlyWhen | signed_messages.go:201-216 | A valid id is 1 to 64 of the letters, digits, '-' and '_', and does not start with the last two. |
| Registration.SignedExactlyWhen | signed_messages.go:160-290 | A registration is signed exactly when it stores data or files, its id is valid, every admin, writer and free reader is a DID, its schema passes, its owner is one line of UTF-8, and an owner key grant in a private DataStorage registration is of epoch 0 to the owner, a DID. |
| Registration.FormatRegisterSubgroveMessage | signed_messages.go:160-196 | Refuses a BlockchainIndexing registration and what the check refuses; otherwise the message of the id, owner, hash of the unsigned bincode and nonce. |
| Registration.SignedReadsBack | signed_messages.go:160-196 | The message of a signed registration parses back to the transaction's id, owner and nonce, and the hash of its bincode. |
| Registration.MessageBindsTheTransaction | signed_messages.go:135-196 | Two signed registrations have one message if and only if they are one transaction, or their bincodes are a pair that collides. |
| Registration.SignatureBindsTheTransaction | signed_messages.go:135-196 | The same from the JSON that is sent: one message if and only if the JSON values denote one transaction up to its signature, or their bincodes collide. |
| SignedMessages.ValidateWillowDID | signed_messages.go:221-239 | Accepts exactly "did:willow:" and one or more ASCII letters, digits, '-' and '_', at most 128 bytes. |
| SignedMessages.UnhexInverts | signed_messages.go:45-54 | Hex reads back as its bytes. |
| SignedMessages.CutFinds | signed_messages.go:508-513 | Cutting at the first separator gives the text before it and after it. |
| SignedMessages.SplitInvertsJoin | signed_messages.go:571-576 | Joined lines split back into the lines. |
| SignedMessages.Builder.constructor | signed_messages.go:547-549 | A message starts with its kind. |
| SignedMessages.Builder.AddText | signed_messages.go:555-563 | Appends a labelled line; a value with a line break or invalid UTF-8 marks the message refused. |
| SignedMessages.Builder.AddLine | signed_messages.go:566-569 | Appends a labelled line and refuses nothing. |
| SignedMessages.Builder.AddGrant | signed_messages.go:531-539 | Appends a grant's seven lines, refusing text that is no line. |
| SignedMessages.Builder.AddGrants | signed_messages.go:445-458 | The loop appends every grant in order. |
| SignedMessages.Builder.Build | signed_messages.go:571-576 | The lines joined, or a refusal if any field was refused. |
| SignedMessages.FormatDataStoreMessage | signed_messages.go:45-54 | The message of the fields and the data's hash, or a refusal exactly when a field is refused. |
| SignedMessages.FormatStoreFileManifestMessage | signed_messages.go:97-116 | The message of the manifest's fields, or a refusal exactly when a field is refused. |
| SignedMessages.FormatDeleteFileManifestMessage | signed_messages.go:126-133 | The message of the fields, or a refusal exactly when a field is refused. |
| SignedMessages.RegistrationMessage | signed_messages.go:190-195 | The message of the id, owner, hash of the unsigned bytes and nonce, or a refusal exactly when a text is refused. |
| SignedMessages.FormatGrantSubgroveKeyMessage | signed_messages.go:419-429 | The message of the grant, or a refusal exactly when its grantee is no DID or a field is refused. |
| SignedMessages.ValidateRotation | signed_messages.go:477-502 | Accepts exactly a non-empty list of grants to DIDs, all of the new epoch. |
| SignedMessages.FormatRotateSubgroveKeyMessage | signed_messages.go:445-458 | The message of the rotation with every grant, or a refusal exactly when it is no valid rotation or a field is refused. |
| SignedMessages.FormatUnregisterStorageNodeMessage | signed_messages.go:466-471 | The message of the node, or a refusal exactly when its name is refused. |
| Utf8.EncodingIsValid | signed_messages.go:555-563 | The UTF-8 encoding of any scalar values is valid text. |
| Utf8.ValidIsEncoding | signed_messages.go:555-563 | Valid text is the UTF-8 encoding of some scalar values. |
| Utf8.ValidExactlyWhen | signed_messages.go:555-563 | Text is valid UTF-8 if and only if it is such an encoding. |
| Utf8.FormattedExactlyWhen | signed_messages.go:45-576 | A builder returns a message if and only if every text field is one line of UTF-8, its grants go to DIDs, and a rotation has grants, all of its epoch. |
| Utf8.DidExactlyWhen | signed_messages.go:221-239 | A DID is "did:willow:" and 1 to 117 of the letters, digits, '-' and '_'. |
| MessageParser.GrantsFront | signed_messages.go:445-458 | Any number of grants reads back. |
| MessageParser.EncryptionReads | signed_messages.go:97-116 | The encryption line reads back, none included. |
| MessageParser.StoreDataReads | signed_messages.go:45-54 | A StoreData message's lines read back every field. |
| MessageParser.StoreFileReads | signed_messages.go:97-116 | A StoreFileManifest message's lines read back every field. |
| MessageParser.DeleteFileReads | signed_messages.go:126-133 | A DeleteFileManifest message's lines read back every field. |
| MessageParser.RegisterReads | signed_messages.go:188-195 | A RegisterSubgrove message's lines read back every field. |
| MessageParser.GrantMessageReads | signed_messages.go:419-429 | A GrantSubgroveKey message's lines read back every field. |
| MessageParser.RotateReads | signed_messages.go:445-458 | A RotateSubgroveKey message's lines read back every field and grant. |
| MessageParser.UnregisterReads | signed_messages.go:466-471 | An UnregisterStorageNode message's lines read back every field. |
| MessageParser.LinesPlain | signed_messages.go:555-563 | No line of an accepted message holds a line break. |
| MessageParser.MessageRoundTrip | signed_messages.go:45-576 | Every message a builder returns parses back to its kind and every field. |
| MessageParser.MessagesAreDistinct | signed_messages.go:45-576 | Messages of different kinds or fields never coincide. |
| MessageParser.RevokeSubgroveKeyMessage | signed_messages.go:508-528 | The colon-joined message, or a refusal exactly when the id is empty or holds a colon or a DID is invalid. |
| MessageParser.RevokeRoundTrip | signed_messages.go:508-528 | The colon-joined message gives back every field, for every input validateRevoke accepts. |
| MessageParser.RevokeIsNoOtherMessage | signed_messages.go:508-513 | No revocation is the text of a line-form message. |
| EventSet.WriteLog | completeness.go:73-84 | The writes for one log extend the hashed bytes by that log's encoding. |
| EventSet.WriteTopics | completeness.go:78-80 | The topic loop extends the hashed bytes by every topic, in order. |
| EventSet.WriteLogs | completeness.go:73-84 | The log loop extends them by every log's, in order. |
| EventSet.TagIsText | completeness.go:66-67 | The hashed bytes start with the text WILLOW_CRYPTO_EVENTS_V1. |
| EventSet.CanonicalEventSetHash | completeness.go:62-89 | The hash of the tag, block number, count and logs. |
| EventSet.TopicsRoundTrip | completeness.go:78-80 | Topics read back. |
| EventSet.LogRoundTrip | completeness.go:73-84 | A log reads back, whatever follows it. |
| EventSet.LogsRoundTrip | completeness.go:73-84 | Logs read back in order. |
| EventSet.PreimageRoundTrip | completeness.go:62-89 | The hashed bytes give back the block number and the logs, with every topic and all data. |
| EventSet.PreimageReadsBack | completeness.go:62-89 | The decoder written here gives them back if and only if every length fits the field it is written to. |
| EventSet.LogsDiverge | completeness.go:73-84 | Two logs, of any lengths, at the front of the same bytes are equal, or agree up to a topic count or data length that differs by a multiple of 2^32. |
| EventSet.FirstDivergence | completeness.go:73-84 | Equal bytes of as many logs: the logs are equal, or there is a first one that diverges so. |
| EventSet.SharedPreimage | completeness.go:62-89 | Two sets, of any lengths, that share a preimage have one block and one count, and are equal or agree up to a first log whose topic count or data length differs by a multiple of 2^32. |
| EventSet.EqualLengthsAreUnambiguous | completeness.go:62-89 | So sets whose counts and lengths agree pairwise never share a preimage, however long. |
| EventSet.SmallSetsAreUnambiguous | completeness.go:62-89 | And a set whose logs take fewer than 2^32 bytes shares its preimage with no other set at all. |
| EventSet.LongLogsAreAmbiguous | completeness.go:75-82 | Longer sets can share a preimage: two different logs with one, for any address and block, as the u32 conversions truncate. |
| EventSet.VerifyServedEvents | completeness.go:94-96 | Accepts exactly the sets whose bytes hash to the commitment. |
| EventSet.MatchingEventsAreComplete | completeness.go:62-96 | A served set that matches a block's commitment is that block's logs, none dropped, added, altered or reordered; or the two preimages collide; or the two agree up to a log of which one has a topic count or data length of 2^32 or more. |
| Base58.DivideOut | auth.go:255-263 | The division loop gives the base-58 digits, least significant first. |
| Base58.ReverseInPlace | auth.go:267-269 | The in-place swap loop reverses the buffer. |
| Base58.CountZeros | auth.go:250-253 | Counts exactly the leading zero bytes. |
| Base58.Base58btcEncode | auth.go:248-271 | The loops and the in-place reversal together give a '1' for each leading zero, then the value's base-58 digits, most significant first. |
| Base58.ReversedSplit | auth.go:264-269 | The reversal brings the ones to the front and the digits into order. |
| Base58.DigitOfInverts | auth.go:248-271 | Each alphabet character stands for its own position. |
| Base58.ValueOfDigits | auth.go:255-263 | The digits read back as the value, and do not start with the zero digit. |
| Base58.OnesOfPrefix | auth.go:250-266 | The leading ones are exactly the zero prefix. |
| Base58.MinBEOfBE | auth.go:250-263 | A value's shortest bytes are the input without its zero prefix. |
| Base58.RoundTrip | auth.go:248-271 | Decoding inverts the encoding on every byte string, the empty one included. |
| Base58.EncodeInjective | auth.go:248-271 | Distinct inputs never share an encoding. |
| Merk.CodeInverts | grovedb/verifier.go:178-298 | An op code stands for the push it was made for. |
| Merk.PushByteInverts | grovedb/verifier.go:178-298 | Every op code the decoder knows is the code of what it stands for. |
| Merk.KeyRoundTrip | grovedb/verifier.go:316-339 | A key reads back. |
| Merk.ValueRoundTrip | grovedb/verifier.go:448-478 | A value reads back in the form its length calls for. |
| Merk.EntryRoundTrip | grovedb/verifier.go:341-374 | A key, value and hash read back. |
| Merk.NodeRoundTrip | grovedb/verifier.go:300-433 | A node of any kind reads back. |
| Merk.OpRoundTrip | grovedb/verifier.go:178-478 | Decoding an encoded operation, whatever follows it, gives it back. |
| Merk.KeyCanonical | grovedb/verifier.go:316-339 | An accepted key has the one encoding it was read from. |
| Merk.ValueCanonical | grovedb/verifier.go:448-478 | An accepted value has one encoding: large exactly from 64 KiB, never over 64 MiB. |
| Merk.EntryCanonical | grovedb/verifier.go:341-374 | The same for a key, value and hash. |
| Merk.NodeCanonical | grovedb/verifier.go:300-433 | The same for a node of any kind. |
| Merk.OpCanonical | grovedb/verifier.go:178-478 | Every accepted operation's bytes are the encoding of what they decode to, so each operation has exactly one encoding. |
| MerkProof.MerkDecoder.constructor | grovedb/verifier.go:168-170 | A decoder starts with all the data left. |
| MerkProof.MerkDecoder.ReadBytes | grovedb/verifier.go:470-478 | Reads exactly the next n bytes, or fails if there are fewer. |
| MerkProof.MerkDecoder.ReadValueLen | grovedb/verifier.go:448-468 | Reads a length in two bytes, or in four that must name a large value. |
| MerkProof.MerkDecoder.ReadKeyBytes | grovedb/verifier.go:316-326 | Reads a one-byte length and that many bytes. |
| MerkProof.MerkDecoder.ReadValueBytes | grovedb/verifier.go:328-336 | Reads a length and that many bytes. |
| MerkProof.MerkDecoder.DecodeEntry | grovedb/verifier.go:341-374 | Reads a key, a value and its hash. |
| MerkProof.MerkDecoder.DecodeNode | grovedb/verifier.go:300-433 | Reads a node of the kind asked for. |
| MerkProof.MerkDecoder.Next | grovedb/verifier.go:178-298 | Reads the next operation and leaves what follows it; none where the data ends. |
| MerkProof.ExecuteMerkProof | grovedb/verifier.go:493-611 | The decode-and-execute loop computes the machine whose results are stated in ExecutionComputesTheTree and ExecutesExactlyWhen. |
| MerkProof.BuiltHash | grovedb/verifier.go:84-159 | A tree whose children are collapsed to hashes has the hash and height of the whole tree. |
| MerkProof.CombineIsNodeRoot | grovedb/verifier.go:99-136 | Tree.Hash hashes each kind of node as spelled out: H(H(k + H(v)) + left + right) for a key and value, H(H(k + h) + left + right) for a key and value hash, a given key-value hash over left and right, and a hash node itself. |
| MerkProof.ProvedIsProves | grovedb/verifier.go:508-532 | Each kind of node adds exactly its key, value and value hash to the results, or nothing. |
| MerkProof.RunsExactlyWhen | grovedb/verifier.go:493-611 | Operations run exactly when none finds fewer than the two trees it needs, and the depth of the stack is then their count of pushes less the rest. |
| MerkProof.RunIsRunOps | grovedb/verifier.go:493-611 | Running bytes is running the operations they decode to, or a refusal if they do not. |
| MerkProof.ExecutesExactlyWhen | grovedb/verifier.go:493-611 | Any bytes are executed exactly when they are operations that never find the stack too short, leave one tree, and its two sides differ in height by at most one. |
| MerkProof.RunOpsConcat | grovedb/verifier.go:493-611 | Running two lists of operations is running their concatenation. |
| MerkProof.RunEncoded | grovedb/verifier.go:493-611 | Running encoded bytes is running the operations. |
| MerkProof.AttachBelow | grovedb/verifier.go:534-575 | Parent operations attach the tree below the top of the stack. |
| MerkProof.AttachAbove | grovedb/verifier.go:548-589 | Child operations attach the top of the stack to the tree below it. |
| MerkProof.PushOver | grovedb/verifier.go:508-575 | A node pushed over its first subtree, with that subtree attached. |
| MerkProof.AttachSecond | grovedb/verifier.go:548-589 | A second subtree run above a node and attached to it. |
| MerkProof.OpsBuildTheTree | grovedb/verifier.go:493-611 | The operations of any tree, normal or inverted, run on any state, push one item, its node with both children collapsed to hashes of the right heights, and append its results. |
| MerkProof.ResultsSplit | grovedb/verifier.go:508-532 | A tree's results are its first subtree's, its node's and its second subtree's, behind what was there. |
| MerkProof.WholeIsBuilt | grovedb/verifier.go:493-611 | The node with both subtrees attached, and the results so far, are what the machine holds for the whole tree. |
| MerkProof.OpsSplit | grovedb/verifier.go:493-611 | A tree's operations are its first subtree's, the push, its second subtree's, and the attachments. |
| MerkProof.OpsFit | grovedb/verifier.go:178-298 | A tree's operations are within what the encoding can write. |
| MerkProof.ExecutionComputesTheTree | grovedb/verifier.go:493-611 | Executing the bytes of any non-empty proof tree answers the recursive root, with every node's bytes spelled out by kind (key and value hash, then left, then right), and the keys, values and hashes in key order, reversed for an inverted proof; it succeeds if and only if the root's two sides differ in height by at most one. |
| Envelope.BincodeReader.constructor | grovedb/verifier.go:672-672 | A reader starts with all the data left. |
| Envelope.BincodeReader.Varint | grovedb/verifier.go:621-649 | Reads a varint and leaves what follows it. |
| Envelope.BincodeReader.BigEndian | grovedb/verifier.go:642-646 | The loop over a varint's bytes, in u64 arithmetic, never wraps and reads the big-endian value. |
| Envelope.BincodeReader.ByteVec | grovedb/verifier.go:651-663 | Reads a length-prefixed vector and leaves what follows it. |
| Envelope.BincodeReader.DecodeLayerProof | grovedb/verifier.go:701-729 | Decodes a layer and all below it, entering at most one more layer than the bytes it consumes, whatever count a layer declares. |
| Envelope.DecodeGroveDBProof | grovedb/verifier.go:671-699 | Decodes the whole proof or refuses it, entering at most one more layer than the input has bytes. |
| Envelope.VarintRoundTrip | grovedb/verifier.go:621-649 | A varint of any width reads back. |
| Envelope.VarintExactlyWhen | grovedb/verifier.go:621-649 | A varint is read exactly if it is one byte below 251, or 251, 252 or 253 with two, four or eight bytes behind it. |
| Envelope.DecodesExactlyWhen | grovedb/verifier.go:671-699 | A proof is decoded exactly if its version is 0, its root layer is read, and one byte is left. |
| Envelope.VecRoundTrip | grovedb/verifier.go:651-663 | A byte vector reads back. |
| Envelope.LayerRoundTrip | grovedb/verifier.go:701-729 | A layer reads back exactly when it is nested within the limit, and is refused otherwise. |
| Envelope.KidsRoundTrip | grovedb/verifier.go:714-724 | A layer's children read back in order, the last of equal keys kept. |
| Envelope.ProofRoundTrip | grovedb/verifier.go:671-729 | The decoder inverts the encoder on every proof nested at most 64 layers below its root, with any byte of options (any but zero is true), and refuses every one nested deeper. |
| Envelope.LayerExtends | grovedb/verifier.go:701-729 | A layer read from any input is read the same with more behind it, which is left over. |
| Envelope.TrailingBytesAreRefused | grovedb/verifier.go:671-699 | No accepted proof, on any input, is accepted with anything behind it. |
| JsonScan.TokenGrows | internal/httpbody/httpbody.go:202-262 | No round lowers the units or the greatest depth. |
| JsonScan.ScanGrows | internal/httpbody/httpbody.go:202-262 | So stopping early at a limit changes no verdict. |
| JsonScan.FindQuote | internal/httpbody/httpbody.go:211-216 | Stops at the quote that closes the string, past any escapes. |
| JsonScan.SkipScalarBytes | internal/httpbody/httpbody.go:247-255 | Stops at the last byte of a number or name. |
| JsonScan.SkipSpaces | internal/httpbody/httpbody.go:266-287 | Skips exactly the whitespace. |
| JsonScan.OpensContainerAfterColon | internal/httpbody/httpbody.go:266-287 | Says whether a colon and then one of the given openings comes next, past whitespace. |
| JsonScan.ReadKey | internal/httpbody/httpbody.go:217-225 | What a string makes free, by the key it spells and what follows it. |
| JsonScan.RoundText | internal/httpbody/httpbody.go:209-225 | The string case of a round, past escapes to the closing quote and what the key makes free. |
| JsonScan.Round | internal/httpbody/httpbody.go:208-259 | One round of the loop against its specification. |
| JsonScan.ScanJSON | internal/httpbody/httpbody.go:202-262 | Passes a document exactly when the whole scan's units and greatest depth are within the limits, and names a limit that is passed. |
| JsonCost.ScanText | internal/httpbody/httpbody.go:209-225 | Scanning a string, with any escapes, counts one unit and applies its effect as a key. |
| JsonCost.ScanScalar | internal/httpbody/httpbody.go:239-256 | Scanning a number or name counts it once. |
| JsonCost.ScanValue | internal/httpbody/httpbody.go:202-262 | Scanning any value charges exactly its recursive cost at its place and leaves the place as it was. |
| JsonCost.ScanElems | internal/httpbody/httpbody.go:202-262 | The same for the elements of an array. |
| JsonCost.ScanMember | internal/httpbody/httpbody.go:202-262 | The same for one member of an object. |
| JsonCost.ScanMembers | internal/httpbody/httpbody.go:202-262 | The same for the members of an object. |
| JsonCost.KeyPlaces | internal/httpbody/httpbody.go:217-225 | After a key, the scanner's state is the place the specification gives the key's value. |
| JsonCost.ScanComputesTheCost | internal/httpbody/httpbody.go:202-262 | For every JSON text, with any whitespace and escapes, the scan's units and greatest depth are the cost and nesting of the value it spells, a number exactly at the listed depth below a byte-array key costing a sixteenth. |
| JsonCost.CheckJSON | internal/httpbody/httpbody.go:180-262 | So the scan passes a JSON text if and only if its cost is within the unit limit and its nesting within the depth limit, and names a limit that is passed. |
| Rfc8259.NumeralIsScalars | internal/httpbody/httpbody.go:239-249 | Every number of RFC 8259 (sign, integer without leading zero, fraction, exponent) is one run of the scanner's bytes and starts as a number does. |
| Rfc8259.StringIsBody | internal/httpbody/httpbody.go:209-216 | Every string of RFC 8259, with all its escapes, ends where the scanner finds its end. |
| Rfc8259.ValueIsWellFormed | internal/httpbody/httpbody.go:202-262 | Every value of RFC 8259's grammar, written out with its own bytes, is one the scanner's theorem covers. |
| Rfc8259.JsonIsRendered | internal/httpbody/httpbody.go:202-262 | And its text is the text that theorem speaks of. |
| Rfc8259.CheckText | internal/httpbody/httpbody.go:180-262 | scanJSON passes the text of any RFC 8259 value, with any whitespace around it, if and only if the value's cost is within the unit limit and its nesting within the depth limit. |
| MerkleRoot.NextLevel | files.go:573-583 | One round pads an odd level with its last hash and hashes its pairs. |
| MerkleRoot.RootOfOne | files.go:564-571 | The root of a lone hash is the hash of it twice over. |
| MerkleRoot.ComputeMerkleRoot | files.go:560-585 | The level loop computes the root of which the tree form and the binding are proved; it is zeros for no hashes. |
| MerkleRoot.NodeAtUp | files.go:573-583 | A node computed from the level above is the node computed one level lower. |
| MerkleRoot.LevelsReachOne | files.go:560-585 | Halving the count for each level ends at one node. |
| MerkleRoot.TopIsTheTree | files.go:560-585 | The level loop computes the recursive hash of the padded tree, top down. |
| MerkleRoot.PairsDetermine | files.go:573-583 | The pairs of two levels of one length determine the levels. |
| MerkleRoot.TopsBind | files.go:560-585 | For one length, equal tops force equal levels, or a pair that collides. |
| MerkleRoot.RootBindsHashes | files.go:560-585 | For one chunk count, equal roots force equal hash lists, or name a pair that collides. |
| MerkleRoot.RootDoesNotBindTheCount | files.go:560-585 | For different counts they do not: every odd list and the list that repeats its last hash share a root. |
| MerkleRoot.RootDoesNotBindTheLevel | files.go:560-585 | Nor is the level bound: every list of three or more hashes and the level above it share a root. |
| MerkleRoot.TopIsPaddedHash | files.go:560-585 | The level loop computes the hash of the padded tree of a level. |
| MerkleRoot.HashBindsTree | files.go:573-583 | Trees of one height with one hash are equal, or hold a pair that collides. |
| MerkleRoot.LevelKeepsTop | files.go:573-583 | Going up some levels keeps the root and lowers the height by as many. |
| MerkleRoot.RootsAgreeExactlyWhen | files.go:560-585 | Two lists of any lengths share a root if and only if the padded tree of the one with fewer levels is that of the other's level as far from the top; or the two trees hold a pair that collides. |
| Files.ShapeIsCeiling | files.go:281-292 | Accepts if and only if the size is 1 byte to 1 GiB, the count within the limit and the count is the ceiling of total over chunk size; no product wraps. |
| Files.CountIsCeiling | files.go:281-292 | A count is the ceiling exactly when that many chunks hold the total and one fewer do not. |
| Files.ChunkData | files.go:548-558 | The chunk loop gives the chunks of which the laws are proved. |
| Files.ChunksJoin | files.go:548-558 | The chunks joined are the data. |
| Files.ChunkLengths | files.go:548-558 | Every chunk but the last has the chunk size, and the last holds what is left. |
| Files.NoTruncation | files.go:89-112 | Within the limits, the conversions of count and chunk size to 32 bits truncate nothing, and the manifest's shape is accepted. |
| Files.ChunkIsWanted | files.go:318-343 | Each chunk of a file has the length its manifest makes it. |
| Files.PiecesAreEqual | files.go:318-343 | Pieces of the same lengths that join to the same bytes are the same pieces. |
| Files.FetchAll | files.go:316-343 | The download loop gathers every chunk the node serves and its hash, or fails, as it does for a chunk longer than the manifest makes it. |
| Files.Download | files.go:307-358 | Returns what the specification of a download says, shape, chunks, root and content hash checked, and never more than the manifest's total. |
| Files.WantedAddUp | files.go:329-332 | The lengths the manifest makes its chunks add up to its total; the u64 subtraction never wraps. |
| Files.FetchedLengths | files.go:318-343 | Chunks fetched are together at most as long as the manifest makes them, and exactly so only if each is. |
| Files.FetchExactlyWhen | files.go:333-340 | A chunk's body is taken exactly if it is no longer than the manifest makes it, nor than 2 MiB, and then it is taken whole. |
| Files.DownloadLength | files.go:307-358 | An accepted download is never longer than the manifest's total, and has that length if and only if every chunk has the length the manifest makes it. |
| Files.ShortDownloadIsAccepted | files.go:307-358 | A shorter chunk is accepted: under a one-chunk manifest of any larger total with a file's hashes, that file is downloaded. |
| Files.ThreeBytesForTen | files.go:294-358 | The documented chunk length fails at this input: a manifest of ten bytes and a download of three, accepted. |
| Files.LengthsHoldExactlyWhen | files.go:294-358 | Under a manifest with a file's content hash, an accepted download is the file, and each chunk has the length the manifest makes it if and only if the manifest's total is the file's length; or the download collides with the file. |
| Files.HonestFetch | files.go:316-343 | A node that serves the chunks is read in full. |
| Files.UploadThenDownload | files.go:89-358 | Chunking any file of 1 byte to 1 GiB and downloading its chunks returns it. |
| Files.DefaultSizeFits | files.go:89-96 | The default chunk size makes few enough chunks of every such file. |
| Files.DownloadIsTheFile | files.go:307-358 | Whatever the node serves, a download accepted under a file's manifest is that file, of the manifest's length, fetched chunk by chunk as it was cut; or it collides with the file. |
| Files.DownloadedChunksMatch | files.go:307-358 | An accepted download has the manifest's chunk hashes one for one, or a named pair of tree nodes collides. |

## Left out

- ParseAccountNonceState, refusalOutcome and the mapping of an HTTP answer to an outcome (client.go:674-719): single-branch readers; the write protocol takes outcomes as arbitrary.
- WaitUntilLanded's polling, retries and contexts: only the report it merges is a step.
- Aliasing in the allocator: an account is a value in the map that methods replace, not a shared reference.
- Aliasing in the Merk stack machine: trees on the stack are values, so attaching a child replaces the parent instead of updating it in place.
- Any claim that a Merk root is a chain's: the package documents that its hashing is not GroveDB's.
- CheckEnvelope, verifyLayerProof and the other walks over a decoded GroveDB proof.
- The node kind KVValueHashFeatureType: no op code decodes to it.
- That RLP or the envelope's varints have one encoding: the decoders accept longer ones, and rlpDecodeList ignores what follows the list.
- The wire fields of an Ethereum answer that no check reads, and the light-client check of the state root.
- Go's JSON decoder: the bincode encoder starts from a JSON value, and the scanner from JSON texts with their whitespace and escapes. What the scanner answers of bytes that are no JSON text is not stated.
- RegisterEncoder.ReadStrings: an array of 2^64 elements or more, which no Go slice can be, is refused; ReadBytes and WasmModules likewise.
- Registration.FormatRegisterSubgroveMessage: takes the check of a schema's text (checkChainSchema) as a parameter, and the transaction as a value, not as the struct Go marshals to JSON.
- The text of errors, and where in the JSON an error lies.
- Chunk transfer over HTTP, retries, upload order and file encryption; a storage node is a function from a chunk's index to its bytes or a failure.
- Keys, signatures, DID documents, encryption, and the hash functions themselves.
- HTTP, RPC and WebSocket plumbing, subscriptions, the light client, manifests, schemas and computed fields.
