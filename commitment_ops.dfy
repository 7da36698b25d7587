/** The three commitment operations the channel and the ledger call —
    `pedersen.commit`, `pedersen.verify` and the proof pair
    `prove_opening` / `verify_opening_proof` — bundled over one set of
    parameters and one hash, so that the protocol layers are stated against
    the operations and the Pedersen facts are proved once, here. */
module CommitmentOps {
  import opened Encoding
  import opened Pedersen

  datatype Ops = Ops(
    /** `commit(params, message)` with the randomness given. */
    commit: (int, nat) -> Commitment,
    /** `verify(params, commitment, message, opening)`. */
    opens: (Commitment, int, Opening) -> bool,
    /** `prove_opening(params, message, opening, commitment, context)` with
        its two nonces given. */
    prove: (int, Opening, Commitment, seq<byte>, nat, nat) -> Proof,
    /** `verify_opening_proof(params, commitment, proof, context)`. */
    verifyProof: (Commitment, Proof, seq<byte>) -> bool)

  /** The operations the source wires in: Pedersen over `pp` with `sha`. */
  function PedersenOps(pp: Params, sha: Hash): (ops: Ops)
    requires WellFormed(pp)
    ensures forall m, r :: ops.commit(m, r) == Commit(pp, m, r).0
    ensures forall c, m, o :: ops.opens(c, m, o) == Verify(pp, c, m, o)
    ensures forall c, proof, context :: ops.verifyProof(c, proof, context) == VerifyOpeningProof(pp, sha, c, proof, context)
  {
    Ops((m: int, r: nat) => Commit(pp, m, r).0,
        (c: Commitment, m: int, o: Opening) => Verify(pp, c, m, o),
        (m: int, o: Opening, c: Commitment, context: seq<byte>, wm: nat, wr: nat)
          => ProveOpening(pp, sha, m, o, c, context, wm, wr),
        (c: Commitment, proof: Proof, context: seq<byte>) => VerifyOpeningProof(pp, sha, c, proof, context))
  }

  /** A commitment made with randomness r opens to its message under r. */
  ghost predicate Opens(ops: Ops)
  {
    forall m, r :: ops.opens(ops.commit(m, r), m, Opening(r))
  }

  /** An honest proof for a fresh commitment passes the proof check under
      the context it was made for. */
  ghost predicate Complete(ops: Ops)
  {
    forall m, r, context, wm, wr ::
      ops.verifyProof(ops.commit(m, r), ops.prove(m, Opening(r), ops.commit(m, r), context, wm, wr), context)
  }

  /** Completeness at one commitment: the form the protocol's self-checks use. */
  lemma CompleteAt(ops: Ops, m: int, r: nat, context: seq<byte>, wm: nat, wr: nat)
    requires Complete(ops)
    ensures ops.verifyProof(ops.commit(m, r), ops.prove(m, Opening(r), ops.commit(m, r), context, wm, wr), context)
  {
  }

  /** Pedersen commitments open to what they commit to, over any
      well-formed parameters. */
  lemma PedersenOpens(pp: Params, sha: Hash)
    requires WellFormed(pp)
    ensures Opens(PedersenOps(pp, sha))
  {
    var ops := PedersenOps(pp, sha);
    forall m, r
      ensures ops.opens(ops.commit(m, r), m, Opening(r))
    {
      var (c, o) := Commit(pp, m, r);
      assert Verify(pp, c, m, o);
    }
  }

  /** Over a valid group the Pedersen proof of knowledge is complete. */
  lemma PedersenComplete(pp: Params, sha: Hash)
    requires ValidParams(pp)
    ensures Complete(PedersenOps(pp, sha))
  {
    var ops := PedersenOps(pp, sha);
    forall m, r, context, wm, wr
      ensures ops.verifyProof(ops.commit(m, r), ops.prove(m, Opening(r), ops.commit(m, r), context, wm, wr), context)
    {
      var (c, o) := Commit(pp, m, r);
      ProofCompleteness(pp, sha, c, m, o, context, wm, wr);
    }
  }
}
