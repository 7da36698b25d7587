/** The simulated ledger: it records, per channel, the last sequence number
    and commitments it was told about and the parties' verification keys,
    and settles a channel once on a cooperative close payload whose
    commitments, signatures, openings and proofs all check. */
module Ledger {
  import opened Wrappers
  import opened Encoding
  import opened Pedersen
  import opened Signing
  import opened CommitmentOps
  import opened Channels

  /** `LedgerRecord`. The ledger's dictionary is the only place a record is
      reachable from, so a record is a value the ledger replaces. */
  datatype LedgerRecord = LedgerRecord(
    channelId: string,
    sequence: nat,
    commitments: map<Participant, Commitment>,
    verifyKeys: map<Participant, VerifyKey>,
    closed: bool)

  /** Why `InvalidSettlementError` was raised. */
  datatype Fault =
    | MissingChannelId
    | AlreadySettled
    | SequenceMismatch
    | MalformedPayload
    | MissingSignatures
    | MissingProofs
    | CommitmentMismatch(p: Participant)
    | MissingSignature(p: Participant)
    | InvalidSignature(p: Participant)
    | MissingOpeningOrBalance(p: Participant)
    | OpeningMismatch(p: Participant)
    | MissingProof(p: Participant)
    | InvalidProof(p: Participant)
    | SequenceRegressed

  datatype LedgerError =
    | UnknownChannel(id: string)
    | InvalidSettlement(fault: Fault)
      /** The `ValueError` a hex field that does not parse raises. */
    | MalformedValue

  /** The dictionary `cooperative_close` returns. */
  datatype Settlement = Settlement(channelId: string, sequence: nat, settledBalances: map<string, int>, verified: bool)

  /** A record holds a commitment and a verification key per participant. */
  predicate RecordFull(record: LedgerRecord)
  {
    Full(record.commitments) && Full(record.verifyKeys)
  }

  /** The verification key of each participant, from its signing key. */
  function VerifyKeys(scheme: SignatureScheme, signingKeys: Participant -> SigningKey): (keys: map<Participant, VerifyKey>)
    ensures Full(keys)
    ensures forall p :: keys[p] == scheme.verifyKeyOf(signingKeys(p))
  {
    EveryParticipant();
    map p: Participant | p in Participants :: scheme.verifyKeyOf(signingKeys(p))
  }

  /** All five dictionaries of a payload are present. */
  predicate Shaped(payload: ClosePayload)
  {
    && payload.commitments.Some? && payload.openings.Some? && payload.balances.Some?
    && payload.signatures.Some? && payload.proofs.Some?
  }

  // ---------------------------------------------------------------------
  // The checks of `cooperative_close`, participant by participant

  /** The first loop's check: the payload carries the commitment the ledger
      holds, in its hex form. */
  function CommitmentFault(record: LedgerRecord, commitmentsHex: map<string, string>, p: Participant): Option<LedgerError>
    requires RecordFull(record)
  {
    if Id(p) in commitmentsHex && commitmentsHex[Id(p)] == SerializeCommitment(record.commitments[p]) then None
    else Some(InvalidSettlement(CommitmentMismatch(p)))
  }

  /** The first failing commitment check over `ps`, in order. */
  function FirstCommitmentFault(record: LedgerRecord, commitmentsHex: map<string, string>, ps: seq<Participant>): Option<LedgerError>
    requires RecordFull(record)
    decreases |ps|
  {
    if ps == [] then None
    else
      var earlier := FirstCommitmentFault(record, commitmentsHex, ps[..|ps| - 1]);
      if earlier.Some? then earlier else CommitmentFault(record, commitmentsHex, ps[|ps| - 1])
  }

  /** The second loop's checks for one participant, in the order the source
      makes them: signature present, decodable and valid; opening and
      balance present; opening decodable and matching the commitment;
      proof present, decodable and valid under the participant's context. */
  function ParticipantFault(ops: Ops, scheme: SignatureScheme, record: LedgerRecord, channelId: string,
                            digest: seq<byte>, payload: ClosePayload, p: Participant): Option<LedgerError>
    requires RecordFull(record) && Shaped(payload)
  {
    var signatures, openings, balances, proofs :=
      payload.signatures.value, payload.openings.value, payload.balances.value, payload.proofs.value;
    var commitment := record.commitments[p];
    if Id(p) !in signatures then Some(InvalidSettlement(MissingSignature(p)))
    else match SignatureFromHex(signatures[Id(p)])
    case None => Some(MalformedValue)
    case Some(signature) =>
      if !scheme.verify(record.verifyKeys[p], digest, signature) then Some(InvalidSettlement(InvalidSignature(p)))
      else if Id(p) !in openings || Id(p) !in balances then Some(InvalidSettlement(MissingOpeningOrBalance(p)))
      else match DeserializeOpening(openings[Id(p)])
      case None => Some(MalformedValue)
      case Some(opening) =>
        if !ops.opens(commitment, balances[Id(p)], opening) then Some(InvalidSettlement(OpeningMismatch(p)))
        else if Id(p) !in proofs then Some(InvalidSettlement(MissingProof(p)))
        else match DeserializeProof(proofs[Id(p)])
        case None => Some(MalformedValue)
        case Some(proof) =>
          if !ops.verifyProof(commitment, proof, ProofContext(channelId, record.sequence, p))
          then Some(InvalidSettlement(InvalidProof(p)))
          else None
  }

  /** The first failing participant over `ps`, in order. */
  function FirstParticipantFault(ops: Ops, scheme: SignatureScheme, record: LedgerRecord, channelId: string,
                                 digest: seq<byte>, payload: ClosePayload, ps: seq<Participant>): Option<LedgerError>
    requires RecordFull(record) && Shaped(payload)
    decreases |ps|
  {
    if ps == [] then None
    else
      var earlier := FirstParticipantFault(ops, scheme, record, channelId, digest, payload, ps[..|ps| - 1]);
      if earlier.Some? then earlier else ParticipantFault(ops, scheme, record, channelId, digest, payload, ps[|ps| - 1])
  }

  /** What `cooperative_close` answers for a payload against the ledger's
      records: the first check that fails, or the settlement. */
  function CloseVerdict(ops: Ops, sha: Hash, scheme: SignatureScheme,
                        records: map<string, LedgerRecord>, payload: ClosePayload): Result<Settlement, LedgerError>
    requires forall id :: id in records ==> RecordFull(records[id])
  {
    if payload.channelId.None? then Err(InvalidSettlement(MissingChannelId))
    else
      var id := payload.channelId.value;
      if id !in records then Err(UnknownChannel(id))
      else
        var record := records[id];
        if record.closed then Err(InvalidSettlement(AlreadySettled))
        else if payload.sequence != Some(record.sequence) then Err(InvalidSettlement(SequenceMismatch))
        else if payload.commitments.None? || payload.openings.None? || payload.balances.None? then
          Err(InvalidSettlement(MalformedPayload))
        else if payload.signatures.None? then Err(InvalidSettlement(MissingSignatures))
        else if payload.proofs.None? then Err(InvalidSettlement(MissingProofs))
        else
          var commitmentFault := FirstCommitmentFault(record, payload.commitments.value, Participants);
          if commitmentFault.Some? then Err(commitmentFault.value)
          else
            var digest := ComputeStateDigest(sha, id, record.sequence, record.commitments);
            var participantFault := FirstParticipantFault(ops, scheme, record, id, digest, payload, Participants);
            if participantFault.Some? then Err(participantFault.value)
            else Ok(Settlement(id, record.sequence, payload.balances.value, true))
  }

  // ---------------------------------------------------------------------
  // What a settled payload satisfies, stated without the order of checks

  /** One participant's part of the payload checks: its commitment is the
      recorded one, its signature verifies over the recorded state's digest
      under its recorded key, its opening opens the recorded commitment to
      its settled balance, and its proof verifies under its context. */
  ghost predicate ParticipantAccepted(ops: Ops, sha: Hash, scheme: SignatureScheme, record: LedgerRecord,
                                      channelId: string, payload: ClosePayload, p: Participant)
    requires RecordFull(record) && Shaped(payload)
  {
    var commitment := record.commitments[p];
    var digest := ComputeStateDigest(sha, channelId, record.sequence, record.commitments);
    var signatures, openings, balances, proofs :=
      payload.signatures.value, payload.openings.value, payload.balances.value, payload.proofs.value;
    && Id(p) in payload.commitments.value
    && DeserializeCommitment(payload.commitments.value[Id(p)]) == Some(commitment)
    && payload.commitments.value[Id(p)] == SerializeCommitment(commitment)
    && Id(p) in signatures && SignatureFromHex(signatures[Id(p)]).Some?
    && scheme.verify(record.verifyKeys[p], digest, SignatureFromHex(signatures[Id(p)]).value)
    && Id(p) in openings && Id(p) in balances && DeserializeOpening(openings[Id(p)]).Some?
    && ops.opens(commitment, balances[Id(p)], DeserializeOpening(openings[Id(p)]).value)
    && Id(p) in proofs && DeserializeProof(proofs[Id(p)]).Some?
    && ops.verifyProof(commitment, DeserializeProof(proofs[Id(p)]).value, ProofContext(channelId, record.sequence, p))
  }

  /** The ledger accepts a payload for an open record exactly when its
      sequence number is the recorded one, every dictionary is present and
      every participant's part checks. */
  ghost predicate Accepts(ops: Ops, sha: Hash, scheme: SignatureScheme, record: LedgerRecord,
                          channelId: string, payload: ClosePayload)
    requires RecordFull(record)
  {
    && payload.sequence == Some(record.sequence)
    && Shaped(payload)
    && forall p :: ParticipantAccepted(ops, sha, scheme, record, channelId, payload, p)
  }

  lemma {:induction false} NoCommitmentFault(record: LedgerRecord, commitmentsHex: map<string, string>, ps: seq<Participant>)
    requires RecordFull(record)
    ensures FirstCommitmentFault(record, commitmentsHex, ps).None?
            <==> forall i :: 0 <= i < |ps| ==> CommitmentFault(record, commitmentsHex, ps[i]).None?
    decreases |ps|
  {
    if ps != [] {
      var init := ps[..|ps| - 1];
      NoCommitmentFault(record, commitmentsHex, init);
      assert forall i :: 0 <= i < |init| ==> init[i] == ps[i];
    }
  }

  lemma {:induction false} NoParticipantFault(ops: Ops, scheme: SignatureScheme, record: LedgerRecord, channelId: string,
                                              digest: seq<byte>, payload: ClosePayload, ps: seq<Participant>)
    requires RecordFull(record) && Shaped(payload)
    ensures FirstParticipantFault(ops, scheme, record, channelId, digest, payload, ps).None?
            <==> forall i :: 0 <= i < |ps| ==> ParticipantFault(ops, scheme, record, channelId, digest, payload, ps[i]).None?
    decreases |ps|
  {
    if ps != [] {
      var init := ps[..|ps| - 1];
      NoParticipantFault(ops, scheme, record, channelId, digest, payload, init);
      assert forall i :: 0 <= i < |init| ==> init[i] == ps[i];
    }
  }

  /** A participant passes both loops exactly when its part of the payload
      is accepted. */
  lemma ParticipantChecks(ops: Ops, sha: Hash, scheme: SignatureScheme, record: LedgerRecord,
                          channelId: string, payload: ClosePayload, p: Participant)
    requires RecordFull(record) && Shaped(payload)
    ensures (&& CommitmentFault(record, payload.commitments.value, p).None?
             && ParticipantFault(ops, scheme, record, channelId,
                                 ComputeStateDigest(sha, channelId, record.sequence, record.commitments), payload, p).None?)
            <==> ParticipantAccepted(ops, sha, scheme, record, channelId, payload, p)
  {
    var c := record.commitments[p];
    if Id(p) in payload.commitments.value && payload.commitments.value[Id(p)] == SerializeCommitment(c) {
      assert DeserializeCommitment(payload.commitments.value[Id(p)]) == Some(c);
    }
  }

  /** The refusals `cooperative_close` raises before any cryptographic
      check, in the order it raises them: a missing id, an unknown
      channel, a settled channel, a stale sequence number, then a missing
      commitments/openings/balances, signatures or proofs dictionary. A
      commitment mismatch is reported before any signature is looked at. */
  lemma CloseVerdictRefusals(ops: Ops, sha: Hash, scheme: SignatureScheme,
                             records: map<string, LedgerRecord>, payload: ClosePayload)
    requires forall id :: id in records ==> RecordFull(records[id])
    ensures var v := CloseVerdict(ops, sha, scheme, records, payload);
            && (payload.channelId.None? ==> v == Err(InvalidSettlement(MissingChannelId)))
            && (payload.channelId.Some? && payload.channelId.value !in records ==>
                  v == Err(UnknownChannel(payload.channelId.value)))
            && (payload.channelId.Some? && payload.channelId.value in records ==>
                  var record := records[payload.channelId.value];
                  && (record.closed ==> v == Err(InvalidSettlement(AlreadySettled)))
                  && (!record.closed && payload.sequence != Some(record.sequence) ==>
                        v == Err(InvalidSettlement(SequenceMismatch)))
                  && (!record.closed && payload.sequence == Some(record.sequence) ==>
                        && (payload.commitments.None? || payload.openings.None? || payload.balances.None? ==>
                              v == Err(InvalidSettlement(MalformedPayload)))
                        && (payload.commitments.Some? && payload.openings.Some? && payload.balances.Some? ==>
                              && (payload.signatures.None? ==> v == Err(InvalidSettlement(MissingSignatures)))
                              && (payload.signatures.Some? && payload.proofs.None? ==>
                                    v == Err(InvalidSettlement(MissingProofs))))
                        && (Shaped(payload) && FirstCommitmentFault(record, payload.commitments.value, Participants).Some? ==>
                              v == Err(FirstCommitmentFault(record, payload.commitments.value, Participants).value))))
  {
  }

  /** The close verdict is a settlement exactly when the channel is known
      and open and the payload is accepted; the settlement repeats the
      channel id and recorded sequence number and pays out the payload's
      balances. */
  lemma CloseVerdictSettles(ops: Ops, sha: Hash, scheme: SignatureScheme,
                            records: map<string, LedgerRecord>, payload: ClosePayload)
    requires forall id :: id in records ==> RecordFull(records[id])
    ensures CloseVerdict(ops, sha, scheme, records, payload).Ok?
            <==> (&& payload.channelId.Some? && payload.channelId.value in records
                  && !records[payload.channelId.value].closed
                  && Accepts(ops, sha, scheme, records[payload.channelId.value], payload.channelId.value, payload))
    ensures CloseVerdict(ops, sha, scheme, records, payload).Ok? ==>
              var id := payload.channelId.value;
              CloseVerdict(ops, sha, scheme, records, payload).value
                == Settlement(id, records[id].sequence, payload.balances.value, true)
  {
    if payload.channelId.Some? && payload.channelId.value in records {
      var id := payload.channelId.value;
      var record := records[id];
      if payload.sequence == Some(record.sequence) && Shaped(payload) {
        ChecksPassIffAccepted(ops, sha, scheme, record, id, payload);
      }
    }
  }

  /** Both loops of `cooperative_close` find no fault exactly when every
      participant's part of the payload is accepted. */
  lemma ChecksPassIffAccepted(ops: Ops, sha: Hash, scheme: SignatureScheme, record: LedgerRecord,
                              id: string, payload: ClosePayload)
    requires RecordFull(record) && Shaped(payload)
    ensures (&& FirstCommitmentFault(record, payload.commitments.value, Participants).None?
             && FirstParticipantFault(ops, scheme, record, id, ComputeStateDigest(sha, id, record.sequence, record.commitments),
                                      payload, Participants).None?)
            <==> forall p :: ParticipantAccepted(ops, sha, scheme, record, id, payload, p)
  {
    var digest := ComputeStateDigest(sha, id, record.sequence, record.commitments);
    NoCommitmentFault(record, payload.commitments.value, Participants);
    NoParticipantFault(ops, scheme, record, id, digest, payload, Participants);
    EveryParticipant();
    forall p
      ensures (&& CommitmentFault(record, payload.commitments.value, p).None?
               && ParticipantFault(ops, scheme, record, id, digest, payload, p).None?)
              <==> ParticipantAccepted(ops, sha, scheme, record, id, payload, p)
    {
      ParticipantChecks(ops, sha, scheme, record, id, payload, p);
    }
    assert Participants[0] == Alice && Participants[1] == Bob;
  }

  /** The payload a channel builds from a state both parties signed, closed
      against a record of that state, is accepted: honest parties can
      always settle. */
  lemma HonestPayloadAccepted(ops: Ops, sha: Hash, scheme: SignatureScheme, record: LedgerRecord,
                              channelId: string, s: StateRecord, balances: map<Participant, int>,
                              nonces: Participant -> Nonces, signingKeys: Participant -> SigningKey)
    requires Opens(ops) && Complete(ops) && Sound(scheme)
    requires Full(balances)
    requires s.(signatures := map[]) == Snapshot(ops, channelId, s.sequence, balances, nonces)
    requires forall p :: p in s.signatures
                         && s.signatures[p] == scheme.sign(signingKeys(p), ComputeStateDigest(sha, channelId, s.sequence, s.commitments))
    requires record.sequence == s.sequence && record.commitments == s.commitments
    requires record.verifyKeys == VerifyKeys(scheme, signingKeys)
    ensures RecordFull(record)
    ensures Accepts(ops, sha, scheme, record, channelId, PayloadOf(channelId, s))
  {
    SnapshotOpens(ops, channelId, s.sequence, balances, nonces);
    SnapshotProofsVerify(ops, channelId, s.sequence, balances, nonces);
    SnapshotShape(ops, channelId, s.sequence, balances, nonces);
    var digest := ComputeStateDigest(sha, channelId, s.sequence, s.commitments);
    forall p
      ensures p in s.signatures && scheme.verify(record.verifyKeys[p], digest, s.signatures[p])
    {
      assert record.verifyKeys[p] == scheme.verifyKeyOf(signingKeys(p));
    }
    PayloadAccepted(ops, sha, scheme, record, channelId, s);
  }

  /** The payload built from a state whose openings open its commitments to
      its balances, whose proofs verify and whose signatures verify under
      the record's keys is accepted against a record of that state. */
  lemma PayloadAccepted(ops: Ops, sha: Hash, scheme: SignatureScheme, record: LedgerRecord,
                        channelId: string, s: StateRecord)
    requires RecordFull(record)
    requires record.sequence == s.sequence && record.commitments == s.commitments
    requires forall p :: p in s.openings && p in s.balances && ops.opens(s.commitments[p], s.balances[p], s.openings[p])
    requires forall p :: p in s.proofs
                         && ops.verifyProof(s.commitments[p], s.proofs[p], ProofContext(channelId, s.sequence, p))
    requires forall p :: p in s.signatures
                         && scheme.verify(record.verifyKeys[p], ComputeStateDigest(sha, channelId, s.sequence, s.commitments),
                                          s.signatures[p])
    ensures Accepts(ops, sha, scheme, record, channelId, PayloadOf(channelId, s))
  {
    var payload := PayloadOf(channelId, s);
    forall p
      ensures ParticipantAccepted(ops, sha, scheme, record, channelId, payload, p)
    {
      var c := record.commitments[p];
      assert payload.commitments.value[Id(p)] == SerializeCommitment(c);
      assert SignatureFromHex(payload.signatures.value[Id(p)]) == Some(s.signatures[p]);
      assert DeserializeOpening(payload.openings.value[Id(p)]) == Some(s.openings[p]);
      assert payload.balances.value[Id(p)] == s.balances[p];
      assert DeserializeProof(payload.proofs.value[Id(p)]) == Some(s.proofs[p]);
    }
  }

  /** Closing an open record of a state both parties signed with the
      payload the channel builds from that state settles the channel at
      the recorded sequence number with the state's balances. */
  lemma HonestCloseSettles(ops: Ops, sha: Hash, scheme: SignatureScheme, records: map<string, LedgerRecord>,
                           channelId: string, s: StateRecord, balances: map<Participant, int>,
                           nonces: Participant -> Nonces, signingKeys: Participant -> SigningKey)
    requires Opens(ops) && Complete(ops) && Sound(scheme)
    requires Full(balances)
    requires s.(signatures := map[]) == Snapshot(ops, channelId, s.sequence, balances, nonces)
    requires forall p :: p in s.signatures
                         && s.signatures[p] == scheme.sign(signingKeys(p), ComputeStateDigest(sha, channelId, s.sequence, s.commitments))
    requires forall id :: id in records ==> RecordFull(records[id])
    requires channelId in records
    requires records[channelId] == LedgerRecord(channelId, s.sequence, s.commitments, VerifyKeys(scheme, signingKeys), false)
    ensures CloseVerdict(ops, sha, scheme, records, PayloadOf(channelId, s))
            == Ok(Settlement(channelId, s.sequence, ById(s.balances), true))
  {
    HonestPayloadAccepted(ops, sha, scheme, records[channelId], channelId, s, balances, nonces, signingKeys);
    CloseVerdictSettles(ops, sha, scheme, records, PayloadOf(channelId, s));
  }

  // ---------------------------------------------------------------------
  // The ledger

  class SimulatedLedger {
    /** The commitment operations over the ledger's parameters. */
    const ops: Ops
    const sha: Hash
    const scheme: SignatureScheme
    var records: map<string, LedgerRecord>

    /** Every record is filed under its own channel id and holds an entry
        per participant. */
    ghost predicate Valid()
      reads this`records
    {
      forall id :: id in records ==> RecordFull(records[id]) && records[id].channelId == id
    }

    constructor (ops: Ops, sha: Hash, scheme: SignatureScheme)
      ensures this.ops == ops && this.sha == sha && this.scheme == scheme
      ensures records == map[] && Valid()
    {
      this.ops := ops;
      this.sha := sha;
      this.scheme := scheme;
      records := map[];
    }

    /** `register_channel`: file (or refile) an open record of the
        channel's current sequence number and commitments and of its
        parties' verification keys. */
    method RegisterChannel(channel: Channel)
      requires Valid() && channel.Valid()
      modifies this`records
      ensures Valid()
      ensures records == old(records)[channel.channelId := LedgerRecord(
                channel.channelId, channel.state.sequence, channel.state.commitments,
                VerifyKeys(scheme, channel.signingKeys), false)]
    {
      records := records[channel.channelId := LedgerRecord(
        channel.channelId, channel.state.sequence, channel.state.commitments,
        VerifyKeys(scheme, channel.signingKeys), false)];
    }

    /** `_require_record`. */
    function RequireRecord(id: string): (r: Result<LedgerRecord, LedgerError>)
      reads this`records
      ensures r.Ok? <==> id in records
      ensures r.Ok? ==> r.value == records[id]
      ensures r.Err? ==> r.error == UnknownChannel(id)
    {
      if id !in records then Err(UnknownChannel(id)) else Ok(records[id])
    }

    /** `update_state`: move a record forward to the channel's current
        sequence number and commitments. An unknown channel or a sequence
        number below the recorded one is refused and changes nothing. */
    method UpdateState(channel: Channel) returns (err: Option<LedgerError>)
      requires Valid() && channel.Valid()
      modifies this`records
      ensures Valid()
      ensures channel.channelId !in old(records) ==> err == Some(UnknownChannel(channel.channelId))
      ensures channel.channelId in old(records) && channel.state.sequence < old(records)[channel.channelId].sequence
              ==> err == Some(InvalidSettlement(SequenceRegressed))
      ensures err.Some? ==> records == old(records)
      ensures err.None? ==>
                && channel.channelId in old(records)
                && old(records)[channel.channelId].sequence <= channel.state.sequence
                && records == old(records)[channel.channelId := old(records)[channel.channelId].(
                     sequence := channel.state.sequence, commitments := channel.state.commitments)]
    {
      var record := RequireRecord(channel.channelId);
      if record.Err? {
        return Some(record.error);
      }
      if channel.state.sequence < record.value.sequence {
        return Some(InvalidSettlement(SequenceRegressed));
      }
      records := records[channel.channelId := record.value.(sequence := channel.state.sequence,
                                                              commitments := channel.state.commitments)];
      return None;
    }

    /** `cooperative_close`: check the payload against the record and, if
        every check passes, mark the channel settled and return the
        settlement. The answer is the close verdict; only a settlement
        changes the records, and only by closing that channel's record. */
    method CooperativeClose(payload: ClosePayload) returns (r: Result<Settlement, LedgerError>)
      requires Valid()
      modifies this`records
      ensures Valid()
      ensures r == CloseVerdict(ops, sha, scheme, old(records), payload)
      ensures r.Err? ==> records == old(records)
      ensures r.Ok? ==>
                var id := payload.channelId.value;
                && id in old(records)
                && records == old(records)[id := old(records)[id].(closed := true)]
    {
      if payload.channelId.None? {
        return Err(InvalidSettlement(MissingChannelId));
      }
      var channelId := payload.channelId.value;
      var required := RequireRecord(channelId);
      if required.Err? {
        return Err(required.error);
      }
      var record := required.value;
      if record.closed {
        return Err(InvalidSettlement(AlreadySettled));
      }
      if payload.sequence.None? || payload.sequence.value != record.sequence {
        return Err(InvalidSettlement(SequenceMismatch));
      }
      if payload.commitments.None? || payload.openings.None? || payload.balances.None? {
        return Err(InvalidSettlement(MalformedPayload));
      }
      if payload.signatures.None? {
        return Err(InvalidSettlement(MissingSignatures));
      }
      if payload.proofs.None? {
        return Err(InvalidSettlement(MissingProofs));
      }
      var commitmentsHex := payload.commitments.value;
      var openingsHex := payload.openings.value;
      var balances := payload.balances.value;
      var signaturesHex := payload.signatures.value;
      var proofsHex := payload.proofs.value;

      for i := 0 to |Participants|
        invariant FirstCommitmentFault(record, commitmentsHex, Participants[..i]).None?
      {
        var pid := Participants[i];
        assert Participants[..i + 1][..i] == Participants[..i];
        var serialized := SerializeCommitment(record.commitments[pid]);
        if pid !in record.commitments || Id(pid) !in commitmentsHex || commitmentsHex[Id(pid)] != serialized {
          assert Participants[..i + 1] == Participants[..i] + [pid];
          FirstFaultSettles(record, commitmentsHex, i);
          return Err(InvalidSettlement(CommitmentMismatch(pid)));
        }
      }
      assert Participants[..|Participants|] == Participants;

      var digest := ComputeStateDigest(sha, channelId, record.sequence, record.commitments);
      for i := 0 to |Participants|
        invariant FirstParticipantFault(ops, scheme, record, channelId, digest, payload, Participants[..i]).None?
      {
        var pid := Participants[i];
        var fault := None;
        var commitment := record.commitments[pid];
        if Id(pid) !in signaturesHex {
          fault := Some(InvalidSettlement(MissingSignature(pid)));
        } else {
          var signature := SignatureFromHex(signaturesHex[Id(pid)]);
          if signature.None? {
            fault := Some(MalformedValue);
          } else if !scheme.verify(record.verifyKeys[pid], digest, signature.value) {
            fault := Some(InvalidSettlement(InvalidSignature(pid)));
          } else if Id(pid) !in openingsHex || Id(pid) !in balances {
            fault := Some(InvalidSettlement(MissingOpeningOrBalance(pid)));
          } else {
            var opening := DeserializeOpening(openingsHex[Id(pid)]);
            if opening.None? {
              fault := Some(MalformedValue);
            } else if !ops.opens(commitment, balances[Id(pid)], opening.value) {
              fault := Some(InvalidSettlement(OpeningMismatch(pid)));
            } else if Id(pid) !in proofsHex {
              fault := Some(InvalidSettlement(MissingProof(pid)));
            } else {
              var proof := DeserializeProof(proofsHex[Id(pid)]);
              if proof.None? {
                fault := Some(MalformedValue);
              } else if !ops.verifyProof(commitment, proof.value, ProofContext(channelId, record.sequence, pid)) {
                fault := Some(InvalidSettlement(InvalidProof(pid)));
              }
            }
          }
        }
        assert fault == ParticipantFault(ops, scheme, record, channelId, digest, payload, pid);
        assert Participants[..i + 1][..i] == Participants[..i];
        if fault.Some? {
          FirstParticipantFaultSettles(ops, scheme, record, channelId, digest, payload, i);
          return Err(fault.value);
        }
      }
      assert Participants[..|Participants|] == Participants;

      records := records[channelId := record.(closed := true)];
      return Ok(Settlement(channelId, record.sequence, balances, true));
    }
  }

  /** The first commitment fault found at position i, after none before
      it, is the fault of the whole loop. */
  lemma FirstFaultSettles(record: LedgerRecord, commitmentsHex: map<string, string>, i: nat)
    requires RecordFull(record) && i < |Participants|
    requires FirstCommitmentFault(record, commitmentsHex, Participants[..i]).None?
    requires CommitmentFault(record, commitmentsHex, Participants[i]).Some?
    ensures FirstCommitmentFault(record, commitmentsHex, Participants)
            == CommitmentFault(record, commitmentsHex, Participants[i])
  {
    assert Participants[..i + 1][..i] == Participants[..i];
    if i == 0 {
      assert Participants[..2][..1] == Participants[..1];
      assert Participants[..2] == Participants;
    } else {
      assert Participants[..i + 1] == Participants;
    }
  }

  /** The same for the participant loop. */
  lemma FirstParticipantFaultSettles(ops: Ops, scheme: SignatureScheme, record: LedgerRecord, channelId: string,
                                     digest: seq<byte>, payload: ClosePayload, i: nat)
    requires RecordFull(record) && Shaped(payload) && i < |Participants|
    requires FirstParticipantFault(ops, scheme, record, channelId, digest, payload, Participants[..i]).None?
    requires ParticipantFault(ops, scheme, record, channelId, digest, payload, Participants[i]).Some?
    ensures FirstParticipantFault(ops, scheme, record, channelId, digest, payload, Participants)
            == ParticipantFault(ops, scheme, record, channelId, digest, payload, Participants[i])
  {
    assert Participants[..i + 1][..i] == Participants[..i];
    if i == 0 {
      assert Participants[..2][..1] == Participants[..1];
      assert Participants[..2] == Participants;
    } else {
      assert Participants[..i + 1] == Participants;
    }
  }
}
