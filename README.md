# Private micropayment channel: verified model of its core

This project models the three core modules of a two-party micropayment
channel prototype and proves properties of the model in Dafny.

- **Pedersen commitments** (`backend/src/crypto/pedersen.py`):
  - parameter derivation;
  - `commit` and `verify`;
  - homomorphic aggregation, negation and difference;
  - hex serialization;
  - a Schnorr-style proof of knowledge of an opening, made
    non-interactive with a Fiat–Shamir challenge.
- **The channel state machine** (`backend/src/protocol/channel.py`). Alice
  and Bob deposit balances. Each payment moves value, bumps the sequence
  number and re-commits both balances with fresh proofs bound to
  `(channel id, sequence, participant)`. Both parties sign a digest of
  the state. The closing payload exposes balances, commitments, openings,
  proofs and signatures.
- **The simulated ledger** (`backend/src/protocol/ledger.py`). It records
  the last sequence number, commitments and verification keys of each
  channel. It settles a channel once, and only on a close payload whose
  commitments, signatures, openings and proofs all check.

## Module layout

| file | module | contents |
|---|---|---|
| `wrappers.dfy` | `Wrappers` | `Option` and `Result` |
| `arith.dfy` | `ModArith` | `Pow`/`ModPow` and the modular-arithmetic lemmas the proofs rest on |
| `encoding.dfy` | `Encoding` | the Python built-ins the core calls: `format(n, "x")`/`int(s, 16)`, `str(n)`, `bytes.hex`/`bytes.fromhex`, UTF-8 encoding, `int.to_bytes`/`int.from_bytes`, `int.bit_length` |
| `pedersen.dfy` | `Pedersen` | the commitment scheme and its proof |
| `signing.dfy` | `Signing` | Ed25519 as an abstract `SignatureScheme` (key derivation, sign, verify) and the signature hex codec |
| `commitment_ops.dfy` | `CommitmentOps` | the four commitment operations the protocol calls, as a record of functions, and proofs that Pedersen provides what the protocol relies on |
| `channel.dfy` | `Channels` | participants, the state digest, proof contexts, `ChannelState` and `Channel` as classes, the closing payload |
| `ledger.dfy` | `Ledger` | ledger records, the close verdict, `SimulatedLedger` as a class |
| `scenario.dfy` | `Scenario` | the two end-to-end flows exercised by `backend/tests/test_protocol.py` |

Both protocol modules use the commitment scheme through
`CommitmentOps.Ops`. They rely on two properties:

- `Opens`: a fresh commitment opens to its message.
- `Complete`: an honest proof verifies.

`CommitmentOps.PedersenOpens` and `CommitmentOps.PedersenComplete` prove
both properties for Pedersen over well-formed group parameters. The
signature scheme is assumed only to be `Sound`: an honest signature
verifies under the signer's own key.

State that the source mutates in place is modelled with classes:

- `Channels.ChannelState` (its maps are reassigned);
- `Channels.Channel` (its state and history);
- `Ledger.SimulatedLedger` (its record dictionary).

The loops of the source are methods with loop invariants, each proved
against a function that specifies it:

- `_hash_to_scalar`, `random_scalar`, `add_commitments`, `add_messages`
  and `add_openings`;
- the per-participant loops of `_set_balances` and `verify_signatures`;
- the two checking loops of `cooperative_close`.

## Model

| member | source | states |
|---|---|---|
| Pedersen.HashToScalar | backend/src/crypto/pedersen.py:79-88 | the loop returns the specified scalar, which lies in [1, q); it gives up only where the 4-byte attempt counter would overflow |
| Pedersen.HashToScalarIsFirstAttempt | backend/src/crypto/pedersen.py:79-88 | the derived scalar is the hash of the first attempt whose value mod q is non-zero, and every earlier attempt hashed to 0 mod q; when nothing is returned, every attempt hashed to 0 |
| Pedersen.DeriveParameters | backend/src/crypto/pedersen.py:100-104 | q = (p - 1) // 2 and g = 2; h = 2^k mod p for the scalar hashed from the fixed label, with 1 <= k < q; fails exactly when no scalar is found; for an order-q generator the result is a valid group |
| Pedersen.DefaultParametersAsWritten | backend/src/crypto/pedersen.py:22-28 | the parameters built from `_P_HEX` as written have a 768-bit modulus |
| Pedersen.DefaultParameters | backend/src/crypto/pedersen.py:91-104 | the parameters built from the RFC 3526 group-14 prime the docstring names have a 2048-bit modulus, q = (p - 1) // 2, g = 2, and h in the subgroup generated by g |
| Pedersen.DerivedGeneratorInSubgroup | backend/src/crypto/pedersen.py:95-103 | a power of an order-q element has order dividing q, so h lies in g's subgroup |
| Pedersen.SourcePrimeIs768Bit | backend/src/crypto/pedersen.py:22-28 | `_P_HEX` has bit length 768, so group elements are 96 bytes long |
| Pedersen.Rfc3526PrimeIs2048Bit | backend/src/crypto/pedersen.py:22 | the RFC 3526 group-14 prime has bit length 2048, so group elements are 256 bytes long |
| Pedersen.FirstNonZeroIsFirst | backend/src/crypto/pedersen.py:107-113 | rejection sampling returns a value exactly when some draw is non-zero, and it returns the first non-zero draw |
| Pedersen.RandomScalar | backend/src/crypto/pedersen.py:107-113 | the loop returns the first non-zero draw, which lies in [1, q) |
| Pedersen.Commit | backend/src/crypto/pedersen.py:116-136 | the opening carries the given randomness, the commitment is reduced mod p, and `verify` accepts the commitment with its message and opening |
| Pedersen.CommitSampled | backend/src/crypto/pedersen.py:116-136 | without given randomness, the commitment uses the first non-zero draw, whose randomness lies in [1, q), and it verifies |
| Pedersen.VerifyModuloOrder | backend/src/crypto/pedersen.py:139-150 | `verify` depends on the message and the randomness only modulo q |
| Pedersen.VerifyIsRecommit | backend/src/crypto/pedersen.py:139-150 | `verify` accepts a commitment exactly when it is congruent, modulo p, to the commitment `commit` computes from the message and the randomness |
| Pedersen.AddCommitments | backend/src/crypto/pedersen.py:153-162 | the loop computes the product of the commitments mod p, which is 1 for no commitments |
| Pedersen.AddMessages | backend/src/crypto/pedersen.py:165-174 | the loop computes the sum of the messages mod q, which lies in [0, q) |
| Pedersen.AddOpenings | backend/src/crypto/pedersen.py:177-186 | the loop computes the sum of the randomness values mod q, which lies in [0, q) |
| Pedersen.AggregateOpens | backend/src/crypto/pedersen.py:153-186 | if each commitment opens to its message and opening, the aggregate commitment opens to the summed messages under the summed openings (the homomorphism) |
| Pedersen.Homomorphism | backend/src/crypto/pedersen.py:153-186 | two fresh commitments, added, open to the sum of their messages under the sum of their openings |
| Pedersen.NegationOpens | backend/src/crypto/pedersen.py:189-193 | the inverse of a commitment to m with randomness r opens to -m with randomness -r mod q |
| Pedersen.NegationIsInverse | backend/src/crypto/pedersen.py:189-193 | a commitment that opens, multiplied by its negation, is 1 modulo p: `negate_commitment` is the group inverse |
| Pedersen.DifferenceOpens | backend/src/crypto/pedersen.py:196-203 | the difference of commitments to m1 and m2 opens to m1 - m2 with the difference of the randomness values |
| Pedersen.DifferenceCancels | backend/src/crypto/pedersen.py:196-203 | adding `commitment_difference(L, R)` back to a commitment R that opens gives L modulo p |
| Pedersen.ChallengeElementsDecode | backend/src/crypto/pedersen.py:238-249 | the hashed bytes are the domain separator and context, followed by the commitment and t mod p as element-length big-endian numbers that read back exactly (no `to_bytes` overflow) |
| Pedersen.ComputeChallenge | backend/src/crypto/pedersen.py:238-254 | the challenge is never 0 and lies below q |
| Pedersen.ProveOpening | backend/src/crypto/pedersen.py:257-274 | the proof's t is a group element reduced mod p and both responses are reduced mod q |
| Pedersen.ProofCompleteness | backend/src/crypto/pedersen.py:257-289 | a proof made by `prove_opening` for a commitment that opens is accepted by `verify_opening_proof` (`VerifyOpeningProof`) under the same context, whatever nonces were drawn |
| Pedersen.SerializeCommitment | backend/src/crypto/pedersen.py:206-215 | deserializing a serialized commitment gives it back |
| Pedersen.SerializeOpening | backend/src/crypto/pedersen.py:218-227 | deserializing a serialized opening gives it back |
| Pedersen.SerializeProof | backend/src/crypto/pedersen.py:292-305 | deserializing a serialized proof gives back all three fields |
| Signing.SignatureToHex | backend/src/crypto/signing.py:64-75 | the hex form has two digits per byte and `from_hex` gives the signature back |
| CommitmentOps.PedersenOps | backend/src/crypto/pedersen.py:116-150 | the protocol's commit, open and proof-check operations are Pedersen's `commit`, `verify` and `verify_opening_proof` over the channel's parameters |
| CommitmentOps.PedersenOpens | backend/src/crypto/pedersen.py:116-150 | every commitment `commit` makes is accepted by `verify` with its message and opening |
| CommitmentOps.PedersenComplete | backend/src/crypto/pedersen.py:257-289 | over a valid group, every honest proof of a fresh commitment verifies under its context |
| Encoding.BaseRoundTrip | backend/src/crypto/pedersen.py:206-227 | `int(s, base)` reads back any number written in base 10 or 16 |
| Encoding.HexRoundTrip | backend/src/crypto/pedersen.py:50-51 | `int(format(n, "x"), 16) == n` |
| Encoding.DecimalInjective | backend/src/protocol/channel.py:37 | two sequence numbers have the same decimal text exactly when they are equal |
| Encoding.BytesHexRoundTrip | backend/src/crypto/signing.py:70-75 | `bytes.fromhex(b.hex()) == b` |
| Encoding.BytesFromHexSkipsSpace | backend/src/crypto/signing.py:73-75 | `bytes.fromhex` ignores ASCII whitespace in front of the digits |
| Encoding.EncodeCharDecodes | backend/src/protocol/channel.py:40-44 | each character's UTF-8 encoding announces its own length in its lead byte and decodes back to the character |
| Encoding.Utf8Injective | backend/src/protocol/channel.py:40-44 | different strings have different UTF-8 encodings |
| Encoding.NatToBytesValue | backend/src/crypto/pedersen.py:230-231 | a number below 256^len written as len big-endian bytes reads back as itself |
| Encoding.FitsInByteLength | backend/src/crypto/pedersen.py:234-235 | any residue mod p fits in `(p.bit_length() + 7) // 8` bytes |
| Channels.ParseParticipant | backend/src/protocol/channel.py:13 | exactly "alice" and "bob" are participant ids, and each parses to the participant it names |
| Channels.ParseId | backend/src/protocol/channel.py:13 | a participant's id parses back to that participant |
| Channels.Other | backend/src/protocol/channel.py:89-95 | exactly the two participant ids have a counterparty, which is the other participant id (Alice's is Bob and Bob's is Alice); every other id is refused |
| Channels.OtherInvolution | backend/src/protocol/channel.py:89-95 | the counterparty of the counterparty is the participant itself |
| Channels.SortedIds | backend/src/protocol/channel.py:38 | the commitment keys in strictly increasing id order, one entry per key |
| Channels.SortedIdsMembers | backend/src/protocol/channel.py:38 | the sorted ids are exactly the commitment keys |
| Channels.DigestTextBindsSequence | backend/src/protocol/channel.py:32-40 | for one channel and one set of commitments, equal digest texts imply equal sequence numbers |
| Channels.DigestTextOfFullState | backend/src/protocol/channel.py:32-40 | for a state holding both commitments, the text `compute_state_digest` hashes is the channel id, the sequence number, Alice's commitment and Bob's commitment in hex, joined by '\|' |
| Channels.DigestTextBindsCommitments | backend/src/protocol/channel.py:32-40 | for one channel and sequence number, equal digest texts of full states imply equal commitments, so a signature over the digest covers both commitments |
| Channels.ProofContextsDistinct | backend/src/protocol/channel.py:43-44 | equal proof contexts (`ProofContext`) of one channel imply the same sequence number and participant, so a proof is bound to one state and one party |
| Channels.EntriesMakeSnapshot | backend/src/protocol/channel.py:129-139 | per-participant commitments, openings and proofs built from the drawn nonces form exactly the specified unsigned state |
| Channels.SnapshotOpens | backend/src/protocol/channel.py:129-132 | every commitment of a freshly committed state opens to that participant's balance |
| Channels.SnapshotProofsVerify | backend/src/protocol/channel.py:133-137 | every proof of a freshly committed state verifies under its own participant's context at the state's sequence number |
| Channels.SnapshotShape | backend/src/protocol/channel.py:139 | a freshly committed state has one balance, commitment, opening and proof per participant, and no signatures |
| Channels.TransferConserves | backend/src/protocol/channel.py:167-170 | a payment (`Transfer`) keeps both entries and the total, debits the payer by the amount and credits the payee by it, and leaves no balance negative when the payer covers the amount |
| Channels.InitialKept | backend/src/protocol/channel.py:85-87 | the opening state with itself as the whole history satisfies the bookkeeping invariant |
| Channels.StepKept | backend/src/protocol/channel.py:172-174 | appending the next state, one sequence number on and with the same total, preserves the bookkeeping invariant |
| Channels.ChannelState.constructor | backend/src/protocol/channel.py:57-64 | a state holds the given fields and no signatures |
| Channels.Channel.constructor | backend/src/protocol/channel.py:77-87 | a new channel's history is one copy of its state |
| Channels.Channel.Open | backend/src/protocol/channel.py:97-140 | negative deposits are refused with `InvalidAmount`, and only they are; otherwise the channel has the given or fresh id, is at sequence 0 with the deposits committed and proved, is unsigned and has a one-entry history; a complete proof system rules out the self-check failure |
| Channels.Channel.CommitmentsOpen | backend/src/protocol/channel.py:129-132 | in a committed channel, each commitment opens to the participant's balance |
| Channels.Channel.ProofsVerify | backend/src/protocol/channel.py:133-137 | in a committed channel, each proof verifies under its participant's context at the current sequence number |
| Channels.Channel.SetBalances | backend/src/protocol/channel.py:142-155 | the new balances are committed and proved at the current sequence number and the signatures are cleared; a failed self-check leaves the old proofs and signatures, leaves Alice and the failing participant recommitted (Bob's old commitment and opening stay when Alice fails), and cannot happen with a complete proof system |
| Channels.Channel.RecommitAll | backend/src/protocol/channel.py:146-153 | the loop recommits the participants in order and stops at the first failed self-check; on success every participant is recommitted and its proof is the one for the new balance at the current sequence number |
| Channels.Channel.RecommitOne | backend/src/protocol/channel.py:146-151 | one participant's commitment and opening are replaced by those of its new balance, the returned proof is the one for that balance, and the self-check passes whenever the proof system is complete |
| Channels.Channel.ApplyPayment | backend/src/protocol/channel.py:157-175 | an unknown payer, a non-positive amount and an amount above the payer's balance are each refused and change nothing; otherwise the sequence number goes up by one, the transfer is committed, the new state is appended to the history, and the result is that state; when a self-check fails, the sequence number is already up by one, the balances already moved, the proofs and signatures are the old ones, Alice and the failing participant are recommitted (Bob untouched when Alice fails), and the history is unchanged |
| Channels.Channel.SignState | backend/src/protocol/channel.py:180-185 | an unknown id is refused; otherwise the participant's own key signs the current digest, and only that participant's signature entry changes |
| Channels.Channel.VerifySignatures | backend/src/protocol/channel.py:190-198 | the result is true exactly when every participant has a signature that verifies over the current digest under its own key, and then the state is fully signed (`IsFullySigned`) |
| Channels.Channel.SignedByAllVerifies | backend/src/protocol/channel.py:187-198 | once both parties have signed, the state is fully signed and every signature verifies |
| Channels.Channel.SignedState | backend/src/protocol/channel.py:180-185 | a committed state signed by both parties is the specified state plus each party's signature of its digest |
| Channels.PayloadOf | backend/src/protocol/channel.py:224-237 | every field of the closing payload is present; each dictionary is keyed by exactly the participants' ids, and each entry decodes back to the state's value; `closing_payload` (`Channel.ClosingPayload`) is this payload of the copy `ChannelState.Clone` takes of the live state |
| Ledger.VerifyKeys | backend/src/protocol/ledger.py:52 | a record holds each participant's verification key, derived from its signing key |
| Ledger.NoCommitmentFault | backend/src/protocol/ledger.py:91-94 | the commitment loop finds no fault exactly when no participant's commitment is at fault |
| Ledger.FirstFaultSettles | backend/src/protocol/ledger.py:91-94 | the commitment loop reports the first participant whose commitment is at fault |
| Ledger.NoParticipantFault | backend/src/protocol/ledger.py:99-122 | the signature/opening/proof loop finds no fault exactly when no participant is at fault |
| Ledger.FirstParticipantFaultSettles | backend/src/protocol/ledger.py:99-122 | the signature/opening/proof loop reports the fault of the first participant at fault |
| Ledger.ParticipantChecks | backend/src/protocol/ledger.py:90-122 | a participant passes both loops exactly when its commitment is the recorded one, its signature verifies over the recorded digest under its recorded key, its opening opens the recorded commitment to its balance, and its proof verifies |
| Ledger.ChecksPassIffAccepted | backend/src/protocol/ledger.py:90-122 | both loops pass exactly when every participant's part of the payload is accepted |
| Ledger.CloseVerdictSettles | backend/src/protocol/ledger.py:64-130 | a close settles exactly when the channel is known and open and the payload is accepted; the settlement repeats the id and recorded sequence number and pays out the payload's balances |
| Ledger.CloseVerdictRefusals | backend/src/protocol/ledger.py:64-94 | `cooperative_close` refuses, in this order, a missing channel id, an unknown channel, a settled channel, a stale sequence number, a missing commitments/openings/balances dictionary, missing signatures and missing proofs, and reports a commitment mismatch before any signature check |
| Ledger.PayloadAccepted | backend/src/protocol/ledger.py:90-122 | a payload built from a state that matches the record, whose openings open, proofs verify and signatures verify, is accepted |
| Ledger.HonestPayloadAccepted | backend/src/protocol/ledger.py:64-130 | the closing payload of a state both honest parties signed is accepted against a record of that state |
| Ledger.HonestCloseSettles | backend/src/protocol/ledger.py:64-130 | an honest close against an open record of the signed state settles it at the recorded sequence number with the state's balances |
| Ledger.SimulatedLedger.constructor | backend/src/protocol/ledger.py:43-45 | a new ledger has no records |
| Ledger.SimulatedLedger.RegisterChannel | backend/src/protocol/ledger.py:47-53 | the channel's record is set (or replaced) to an open record of its current sequence number, commitments and verification keys; other records are untouched |
| Ledger.SimulatedLedger.RequireRecord | backend/src/protocol/ledger.py:132-135 | a known channel's record is returned; an unknown one is refused with `UnknownChannel` |
| Ledger.SimulatedLedger.UpdateState | backend/src/protocol/ledger.py:55-62 | an unknown channel and a regressed sequence number are refused and change nothing; otherwise only the record's sequence number and commitments are replaced |
| Ledger.SimulatedLedger.CooperativeClose | backend/src/protocol/ledger.py:64-130 | the answer is the close verdict; a refusal changes nothing, and a settlement only marks that channel's record closed, so a second close is refused |
| Scenario.OpenAndPay | backend/tests/test_protocol.py:35-36 | opening a channel and paying within the payer's deposit gives a committed channel at sequence 1 holding the transfer |
| Scenario.SignBoth | backend/tests/test_protocol.py:27-28 | after both parties sign, both signatures are present and the rest of the state is unchanged |
| Scenario.UpdateFlow | backend/tests/test_protocol.py:6-30 | opening with 200/50 and Alice paying 25 gives sequence 1, balances 175/75, proofs that verify at sequence 1, and a fully signed state whose signatures verify |
| Scenario.AlicePaysTwentyFive | backend/tests/test_protocol.py:18-20 | Alice paying 25 on 200/50 gives 175/75 |
| Scenario.BobPaysTenAsTested | backend/tests/test_protocol.py:33-49 | Bob paying 10 on 150/75 gives 160/65, not the 140/85 the test expects |
| Scenario.BobPaysTenSettles | backend/tests/test_protocol.py:33-49 | the payout after Bob pays 10 on 150/75 is alice 160, bob 65 |
| Scenario.RegisteredLedger | backend/tests/test_protocol.py:38-40 | registering and then updating a channel on a fresh ledger leaves exactly one open record of its current state |
| Scenario.PaidAndRegistered | backend/tests/test_protocol.py:34-40 | after opening with 150/75, Bob paying 10, and registering and updating, the ledger holds an open record of the channel at sequence 1 |
| Scenario.CooperativeCloseFlow | backend/tests/test_protocol.py:33-49 | the whole ledger flow settles the channel at sequence 1 with alice 160, bob 65, verified |
| Scenario.CloseSigned | backend/tests/test_protocol.py:42-49 | closing the signed channel against its record settles it with alice 160, bob 65 |

## Left out

- SHA-256 is a parameter `sha` of the model, not an implementation. Ed25519 is the parameter `SignatureScheme`, of which only soundness is assumed.
- `secrets.randbelow` and `uuid4` are inputs: random draws are given as sequences or nonces, and a fresh channel id as `freshId`.
- Group facts for the default parameters are not proved. That 2 has order q modulo the prime (and so h too) is a hypothesis, `ValidParams`.
- The security of the scheme is not modelled: binding, hiding, soundness and zero-knowledge of the proof, and unforgeability of signatures.
- `Channel.snapshot` and `Channel.history_snapshots` are left out: they are read-only views that only the API and the benchmark use. So are `backend/src/api/main.py`, `backend/src/eval/benchmark.py` and key generation.
- The channel supports only the participants "alice" and "bob". A signing-key dictionary with other or missing keys is not modelled.
- Channels.Channel.ApplyPayment: returns a copy of the new state, not the live `ChannelState` object, so later mutation through that alias is not modelled.
- Ledger.SimulatedLedger.RegisterChannel: requires the channel's bookkeeping invariant (`Valid`), which every channel built by `Open` and `ApplyPayment` keeps.
- Ledger.SimulatedLedger.UpdateState: requires the channel's bookkeeping invariant (`Valid`), for the same reason.
- `LedgerRecord.clone_commitments` and the defensive copies in `register_channel`, `update_state` and `ChannelState.clone` are identities on values, so they are not modelled separately.
- Close payload fields of the wrong Python type are covered only in part. A missing field is `None`. A hex string that does not parse is the `MalformedValue` error, standing for Python's `ValueError`. Non-`int` balances and non-dictionary proofs inside a present dictionary cannot be expressed.
- `int(s, 16)` is modelled for plain lower- and upper-case hex digits only: no sign, `0x` prefix, underscores or whitespace.
- Negative randomness passed to `commit` is not modelled (`pow` with a negative exponent); randomness is a natural number.
- Pedersen.HashToScalar: returns no scalar once the 4-byte attempt counter would overflow, where Python raises `OverflowError`.

## Findings

| source | as written | input that shows it | evidently intended | confidence | as-written member | corrected member |
|---|---|---|---|---|---|---|
| backend/src/crypto/pedersen.py:22-28 | `_P_HEX`, labelled the RFC 3526 2048-bit group 14, holds only 192 hex digits: the 768-bit prime of RFC 2409's first Oakley group | `default_parameters()` gives a modulus of bit length 768 and 96-byte group elements | the 2048-bit prime of section 3 of RFC 3526, giving 256-byte elements | not executed | Pedersen.DefaultParametersAsWritten | Pedersen.DefaultParameters |
| backend/tests/test_protocol.py:33-49 | after `apply_payment("bob", 10)` on a 150/75 channel, the test expects settled balances alice 140, bob 85 | Bob paying 10: `apply_payment` debits the payer, giving alice 160, bob 65, which the ledger settles | the settlement the code produces for a payment by Bob, alice 160 and bob 65 (or a payment by Alice, if 140/85 was meant) | not executed | Scenario.BobPaysTenAsTested | Scenario.CooperativeCloseFlow |
