/** The two end-to-end flows of the protocol: a channel that opens, takes a
    payment and is signed by both parties; and a channel that is opened,
    paid on, registered with the ledger, signed and closed cooperatively. */
module Scenario {
  import opened Wrappers
  import opened Pedersen
  import opened Signing
  import opened CommitmentOps
  import opened Channels
  import opened Ledger

  /** Open a channel with the two deposits and let `payer` pay `amount`. */
  method OpenAndPay(ops: Ops, sha: Hash, scheme: SignatureScheme, channelId: string, freshId: string,
                    signingKeys: Participant -> SigningKey, opening: Participant -> Nonces, payment: Participant -> Nonces,
                    depositAlice: nat, depositBob: nat, payer: Participant, payee: Participant, amount: int)
    returns (channel: Channel)
    requires Complete(ops)
    requires payee == (if payer == Alice then Bob else Alice)
    requires 0 < amount <= (if payer == Alice then depositAlice else depositBob)
    ensures fresh(channel) && fresh(channel.state)
    ensures channel.Valid() && channel.Committed()
    ensures channel.channelId == (if channelId == "" then freshId else channelId)
    ensures channel.ops == ops && channel.sha == sha && channel.scheme == scheme && channel.signingKeys == signingKeys
    ensures channel.state.sequence == 1
    ensures channel.state.balances
            == Transfer(map[Alice := depositAlice, Bob := depositBob], payer, payee, amount)
  {
    var started := Channel.Open(depositAlice, depositBob, ops, channelId, freshId, signingKeys, sha, scheme, opening);
    channel := started.value;
    var paid := channel.ApplyPayment(Id(payer), amount, payment);
  }

  /** Both parties sign the current state; nothing but the signatures
      changes. */
  method SignBoth(channel: Channel)
    modifies channel.state`signatures
    ensures channel.SignedBy(Alice) && channel.SignedBy(Bob)
    ensures channel.state.Unsigned() == old(channel.state.Unsigned())
  {
    var signedAlice := channel.SignState(Id(Alice));
    var signedBob := channel.SignState(Id(Bob));
  }

  /** Opening with 200 and 50 and letting Alice pay 25 gives sequence 1,
      balances 175 and 75, proofs that verify under the new sequence number,
      and, once both parties sign, a fully signed state whose signatures
      verify. */
  method UpdateFlow(ops: Ops, sha: Hash, scheme: SignatureScheme, channelId: string, freshId: string,
                    signingKeys: Participant -> SigningKey, opening: Participant -> Nonces, payment: Participant -> Nonces)
    returns (channel: Channel, fullySigned: bool, signaturesVerify: bool)
    requires Complete(ops) && Sound(scheme)
    ensures channel.state.sequence == 1
    ensures channel.state.balances == map[Alice := 175, Bob := 75]
    ensures forall p :: p in channel.state.commitments && p in channel.state.proofs
                        && ops.verifyProof(channel.state.commitments[p], channel.state.proofs[p],
                                           ProofContext(channel.channelId, 1, p))
    ensures fullySigned && signaturesVerify
  {
    channel := OpenAndPay(ops, sha, scheme, channelId, freshId, signingKeys, opening, payment, 200, 50, Alice, Bob, 25);
    AlicePaysTwentyFive();
    channel.ProofsVerify();
    SignBoth(channel);
    channel.SignedByAllVerifies();
    fullySigned := channel.IsFullySigned();
    signaturesVerify := channel.VerifySignatures();
  }

  lemma AlicePaysTwentyFive()
    ensures Transfer(map[Alice := 200, Bob := 50], Alice, Bob, 25) == map[Alice := 175, Bob := 75]
  {
  }

  /** The test's expected settlement for "Bob pays 10" on a 150/75 channel
      is not what a payment by Bob produces: the payer's balance goes down. */
  lemma BobPaysTenAsTested()
    ensures Transfer(map[Alice := 150, Bob := 75], Bob, Alice, 10) == map[Alice := 160, Bob := 65]
    ensures ById(Transfer(map[Alice := 150, Bob := 75], Bob, Alice, 10)) != map["alice" := 140, "bob" := 85]
  {
    var settled := ById(Transfer(map[Alice := 150, Bob := 75], Bob, Alice, 10));
    assert settled[Id(Alice)] == 160;
  }

  /** What the ledger pays out after Bob pays 10 on a 150/75 channel. */
  lemma BobPaysTenSettles()
    ensures ById(Transfer(map[Alice := 150, Bob := 75], Bob, Alice, 10)) == map["alice" := 160, "bob" := 65]
  {
    BobPaysTenAsTested();
  }

  /** A fresh ledger with the channel registered and updated holds one open
      record of the channel's current state. */
  method RegisteredLedger(channel: Channel) returns (ledger: SimulatedLedger)
    requires channel.Valid()
    ensures fresh(ledger) && ledger.Valid()
    ensures ledger.ops == channel.ops && ledger.sha == channel.sha && ledger.scheme == channel.scheme
    ensures ledger.records == map[channel.channelId := LedgerRecord(channel.channelId, channel.state.sequence,
                                    channel.state.commitments, VerifyKeys(channel.scheme, channel.signingKeys), false)]
  {
    ledger := new SimulatedLedger(channel.ops, channel.sha, channel.scheme);
    ledger.RegisterChannel(channel);
    var updated := ledger.UpdateState(channel);
  }

  /** Opening with 150 and 75, letting Bob pay 10 and registering and
      updating the ledger: the ledger holds an open record of the channel's
      state after the payment. */
  method PaidAndRegistered(ops: Ops, sha: Hash, scheme: SignatureScheme, channelId: string, freshId: string,
                           signingKeys: Participant -> SigningKey, opening: Participant -> Nonces,
                           payment: Participant -> Nonces)
    returns (channel: Channel, ledger: SimulatedLedger)
    requires Complete(ops)
    ensures fresh(channel) && fresh(channel.state) && fresh(ledger) && ledger.Valid()
    ensures ledger.ops == ops && ledger.sha == sha && ledger.scheme == scheme
    ensures channel.channelId == (if channelId == "" then freshId else channelId)
    ensures channel.ops == ops && channel.sha == sha && channel.scheme == scheme && channel.signingKeys == signingKeys
    ensures channel.Committed()
    ensures channel.state.sequence == 1
    ensures channel.state.balances == Transfer(map[Alice := 150, Bob := 75], Bob, Alice, 10)
    ensures ledger.records == map[channel.channelId := LedgerRecord(channel.channelId, channel.state.sequence,
                                    channel.state.commitments, VerifyKeys(scheme, signingKeys), false)]
  {
    channel := OpenAndPay(ops, sha, scheme, channelId, freshId, signingKeys, opening, payment, 150, 75, Bob, Alice, 10);
    ledger := RegisteredLedger(channel);
  }

  /** The ledger test: after the steps of `PaidAndRegistered`, both parties
      sign and the ledger closes the channel on its closing payload, settling
      it at sequence 1 with Alice 160 and Bob 65. */
  method CooperativeCloseFlow(ops: Ops, sha: Hash, scheme: SignatureScheme, channelId: string, freshId: string,
                              signingKeys: Participant -> SigningKey, opening: Participant -> Nonces,
                              payment: Participant -> Nonces)
    returns (result: Result<Settlement, LedgerError>)
    requires Opens(ops) && Complete(ops) && Sound(scheme)
    ensures var id := if channelId == "" then freshId else channelId;
            result == Ok(Settlement(id, 1, map["alice" := 160, "bob" := 65], true))
  {
    var channel, ledger := PaidAndRegistered(ops, sha, scheme, channelId, freshId, signingKeys, opening, payment);
    SignBoth(channel);
    result := CloseSigned(channel, ledger);
  }

  /** Closing a channel that both parties signed after Bob paid 10 on a
      150/75 opening, against a ledger that holds its record, settles it at
      sequence 1 with Alice 160 and Bob 65. */
  method CloseSigned(channel: Channel, ledger: SimulatedLedger) returns (result: Result<Settlement, LedgerError>)
    requires Opens(channel.ops) && Complete(channel.ops) && Sound(channel.scheme)
    requires channel.Committed() && channel.SignedBy(Alice) && channel.SignedBy(Bob)
    requires channel.state.sequence == 1
    requires channel.state.balances == Transfer(map[Alice := 150, Bob := 75], Bob, Alice, 10)
    requires ledger.Valid()
    requires ledger.ops == channel.ops && ledger.sha == channel.sha && ledger.scheme == channel.scheme
    requires ledger.records == map[channel.channelId := LedgerRecord(channel.channelId, channel.state.sequence,
                                     channel.state.commitments, VerifyKeys(channel.scheme, channel.signingKeys), false)]
    modifies ledger
    ensures result == Ok(Settlement(channel.channelId, 1, map["alice" := 160, "bob" := 65], true))
  {
    var payload := channel.ClosingPayload();
    channel.SignedState();
    ghost var s := channel.state.Clone();
    FullPair(150, 75);
    TransferConserves(map[Alice := 150, Bob := 75], Bob, Alice, 10);
    SnapshotShape(channel.ops, channel.channelId, s.sequence, s.balances, channel.drawn);
    HonestCloseSettles(channel.ops, channel.sha, channel.scheme, ledger.records, channel.channelId, s, s.balances,
                       channel.drawn, channel.signingKeys);
    BobPaysTenSettles();
    result := ledger.CooperativeClose(payload);
  }
}
