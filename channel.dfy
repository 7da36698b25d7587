/** The two-party payment channel: each party's balance lives in a Pedersen
    commitment with a proof of knowledge of its opening; a payment moves
    value between the parties, bumps the sequence number, recommits both
    balances and records a copy of the new state in the history; both
    parties sign a digest of the state to make it closable. */
module Channels {
  import opened Wrappers
  import opened ModArith
  import opened Encoding
  import opened Pedersen
  import opened Signing
  import opened CommitmentOps

  datatype Participant = Alice | Bob

  /** The participant id the wire format and the dictionaries use. */
  function Id(p: Participant): string
  {
    match p
    case Alice => "alice"
    case Bob => "bob"
  }

  /** An id from outside, checked against the participants of the channel. */
  function ParseParticipant(s: string): (r: Option<Participant>)
    ensures r.Some? <==> s == "alice" || s == "bob"
    ensures r.Some? ==> Id(r.value) == s
  {
    if s == "alice" then Some(Alice) else if s == "bob" then Some(Bob) else None
  }

  lemma ParseId(p: Participant)
    ensures ParseParticipant(Id(p)) == Some(p)
  {
  }

  /** The participants in the order the channel enumerates them. */
  const Participants: seq<Participant> := [Alice, Bob]

  /** `Channel._other`: the counterparty of a participant id; None where the
      source raises `InvalidParticipantError`. */
  function Other(id: string): (r: Option<string>)
    ensures r.Some? <==> ParseParticipant(id).Some?
    ensures r.Some? ==> r.value != id && ParseParticipant(r.value).Some?
    ensures forall p :: id == Id(p) ==> r == Some(Id(if p == Alice then Bob else Alice))
  {
    if id == "alice" then Some("bob") else if id == "bob" then Some("alice") else None
  }

  /** The counterparty of the counterparty is the participant itself. */
  lemma OtherInvolution(id: string)
    requires Other(id).Some?
    ensures Other(Other(id).value) == Some(id)
  {
  }

  /** A participant is Alice or Bob. */
  lemma EveryParticipant()
    ensures forall p: Participant :: p in Participants
  {
    forall p: Participant
      ensures p in Participants
    {
      match p
      case Alice =>
      case Bob =>
    }
  }

  /** A map that has an entry for each participant. */
  predicate Full<T>(m: map<Participant, T>)
  {
    forall p :: p in m
  }

  /** A map with an entry for Alice and one for Bob is full. */
  lemma FullPair<T>(a: T, b: T)
    ensures Full(map[Alice := a, Bob := b])
  {
    forall p
      ensures p in map[Alice := a, Bob := b]
    {
      match p
      case Alice =>
      case Bob =>
    }
  }

  /** The value held by the channel. */
  function Total(balances: map<Participant, int>): int
    requires Full(balances)
  {
    balances[Alice] + balances[Bob]
  }

  // ---------------------------------------------------------------------
  // Strings the state is hashed and proved under

  /** `sep.join(pieces)`. */
  function Join(pieces: seq<string>, sep: string): string
    decreases |pieces|
  {
    if |pieces| == 0 then ""
    else if |pieces| == 1 then pieces[0]
    else pieces[0] + sep + Join(pieces[1..], sep)
  }

  /** Lexicographic order on strings, Python's `<` on `str`. */
  predicate StringLess(a: string, b: string)
    decreases |a|
  {
    if a == [] then b != []
    else if b == [] then false
    else a[0] < b[0] || (a[0] == b[0] && StringLess(a[1..], b[1..]))
  }

  /** `sorted(keys)` for a set of participant ids: the ids in ascending
      string order. */
  function SortedIds(keys: set<Participant>): (ps: seq<Participant>)
    ensures forall i, j :: 0 <= i < j < |ps| ==> StringLess(Id(ps[i]), Id(ps[j]))
    ensures |ps| == |keys|
  {
    assert StringLess(Id(Alice), Id(Bob));
    if Alice in keys && Bob in keys then
      assert keys == {Alice, Bob} by { SetOfBoth(keys); }
      [Alice, Bob]
    else if Alice in keys then
      assert keys == {Alice} by { SetOfBoth(keys); }
      [Alice]
    else if Bob in keys then
      assert keys == {Bob} by { SetOfBoth(keys); }
      [Bob]
    else
      assert keys == {} by { SetOfBoth(keys); }
      []
  }

  /** A set of participants is determined by whether it holds each of them. */
  lemma SetOfBoth(keys: set<Participant>)
    ensures keys == (if Alice in keys then {Alice} else {}) + (if Bob in keys then {Bob} else {})
  {
    forall p | p in keys
      ensures p in (if Alice in keys then {Alice} else {}) + (if Bob in keys then {Bob} else {})
    {
      match p
      case Alice =>
      case Bob =>
    }
  }

  /** The sorted ids are exactly the keys. */
  lemma SortedIdsMembers(keys: set<Participant>)
    ensures forall p :: p in SortedIds(keys) <==> p in keys
  {
    forall p
      ensures p in SortedIds(keys) <==> p in keys
    {
      match p
      case Alice =>
      case Bob =>
    }
  }

  /** The text `compute_state_digest` hashes: the channel id, the sequence
      number and each commitment in hex, in sorted id order, joined by '|'. */
  function StateDigestText(channelId: string, sequence: nat, commitments: map<Participant, Commitment>): string
  {
    var ids := SortedIds(commitments.Keys);
    Join([channelId, Decimal(sequence)] + seq(|ids|, i requires 0 <= i < |ids| => SerializeCommitment(commitments[ids[i]])), "|")
  }

  /** `compute_state_digest`. */
  function ComputeStateDigest(sha: Hash, channelId: string, sequence: nat,
                              commitments: map<Participant, Commitment>): seq<byte>
  {
    sha(Utf8(StateDigestText(channelId, sequence, commitments)))
  }

  /** Joining a two-piece head with a tail. */
  lemma JoinHead(a: string, b: string, rest: seq<string>, sep: string)
    ensures Join([a, b] + rest, sep) == a + sep + b + (if rest == [] then "" else sep + Join(rest, sep))
  {
    assert ([a, b] + rest)[1..] == [b] + rest;
    if rest != [] {
      assert ([b] + rest)[1..] == rest;
    }
  }

  /** Two equal texts that end alike begin alike. */
  lemma CancelRight(a: string, b: string, t: string)
    requires a + t == b + t
    ensures a == b
  {
    assert |a| == |b|;
    assert a == (a + t)[..|a|];
    assert b == (b + t)[..|b|];
  }

  /** For one channel and one set of commitments, the digest text determines
      the sequence number: states at different sequence numbers are signed
      under different texts. */
  lemma DigestTextBindsSequence(channelId: string, s1: nat, s2: nat, commitments: map<Participant, Commitment>)
    requires StateDigestText(channelId, s1, commitments) == StateDigestText(channelId, s2, commitments)
    ensures s1 == s2
  {
    var ids := SortedIds(commitments.Keys);
    var rest := seq(|ids|, i requires 0 <= i < |ids| => SerializeCommitment(commitments[ids[i]]));
    JoinHead(channelId, Decimal(s1), rest, "|");
    JoinHead(channelId, Decimal(s2), rest, "|");
    MiddleCancel(channelId + "|", Decimal(s1), Decimal(s2), if rest == [] then "" else "|" + Join(rest, "|"));
    DecimalInjective(s1, s2);
  }

  /** For a state holding both commitments, the digest text is the channel
      id, the sequence number, Alice's commitment and Bob's commitment, in
      that order ("alice" sorts before "bob"), joined by '|'. */
  lemma DigestTextOfFullState(channelId: string, sequence: nat, commitments: map<Participant, Commitment>)
    requires Full(commitments)
    ensures StateDigestText(channelId, sequence, commitments)
            == channelId + "|" + Decimal(sequence) + "|" + SerializeCommitment(commitments[Alice])
               + "|" + SerializeCommitment(commitments[Bob])
  {
    assert Alice in commitments.Keys && Bob in commitments.Keys;
    var ids := SortedIds(commitments.Keys);
    assert ids == [Alice, Bob];
    var ca, cb := SerializeCommitment(commitments[Alice]), SerializeCommitment(commitments[Bob]);
    var rest := seq(|ids|, i requires 0 <= i < |ids| => SerializeCommitment(commitments[ids[i]]));
    assert rest == [ca, cb];
    JoinHead(channelId, Decimal(sequence), rest, "|");
    assert rest[1..] == [cb];
  }

  /** A serialised commitment is hex digits only, so it holds no '|'. */
  lemma SerializedCommitmentHasNoBar(c: Commitment)
    ensures forall i :: 0 <= i < |SerializeCommitment(c)| ==> SerializeCommitment(c)[i] != '|'
  {
    assert SerializeCommitment(c) == Hex(c.value);
  }

  /** For one channel and sequence number, the digest text of a full state
      determines both commitments: two parties that sign the same digest
      text have signed the same commitments. */
  lemma DigestTextBindsCommitments(channelId: string, sequence: nat, c1: map<Participant, Commitment>,
                                   c2: map<Participant, Commitment>)
    requires Full(c1) && Full(c2)
    requires StateDigestText(channelId, sequence, c1) == StateDigestText(channelId, sequence, c2)
    ensures c1 == c2
  {
    var head := channelId + "|" + Decimal(sequence) + "|";
    var a1, b1 := SerializeCommitment(c1[Alice]), SerializeCommitment(c1[Bob]);
    var a2, b2 := SerializeCommitment(c2[Alice]), SerializeCommitment(c2[Bob]);
    DigestTextOfFullState(channelId, sequence, c1);
    DigestTextOfFullState(channelId, sequence, c2);
    SerializedCommitmentHasNoBar(c1[Alice]);
    SerializedCommitmentHasNoBar(c2[Alice]);
    SplitAfterHead(head, a1, b1, a2, b2);
    assert c1[Alice] == c2[Alice] && c1[Bob] == c2[Bob];
    forall p ensures c1[p] == c2[p] {
      if p == Alice { } else { assert p == Bob; }
    }
    assert c1.Keys == c2.Keys;
  }

  /** Two texts made of the same head, a middle and the same tail have the
      same middle. */
  lemma MiddleCancel(h: string, a1: string, a2: string, t: string)
    requires h + a1 + t == h + a2 + t
    ensures a1 == a2
  {
    CancelRight(h + a1, h + a2, t);
    CancelLeft(h, a1, a2);
  }

  /** `proof_context`: the bytes a balance proof is bound to. */
  function ProofContext(channelId: string, sequence: nat, p: Participant): seq<byte>
  {
    Utf8(channelId + "|" + Decimal(sequence) + "|" + Id(p) + "|opening-proof")
  }

  /** The index of the first '|' in s, or |s| when there is none. */
  function FirstBar(s: string): nat
    decreases |s|
  {
    if s == [] || s[0] == '|' then 0 else 1 + FirstBar(s[1..])
  }

  lemma {:induction false} FirstBarAfter(a: string, rest: string)
    requires forall i :: 0 <= i < |a| ==> a[i] != '|'
    ensures FirstBar(a + "|" + rest) == |a|
    decreases |a|
  {
    if a != [] {
      assert (a + "|" + rest)[1..] == a[1..] + "|" + rest;
      FirstBarAfter(a[1..], rest);
    }
  }

  lemma DecimalHasNoBar(n: nat)
    ensures forall i :: 0 <= i < |Decimal(n)| ==> Decimal(n)[i] != '|'
  {
    forall i | 0 <= i < |Decimal(n)|
      ensures Decimal(n)[i] != '|'
    {
      DecimalHasOnlyDigits(n, Decimal(n)[i]);
    }
  }

  /** Two texts that begin alike and are equal end alike. */
  lemma CancelLeft(h: string, a: string, b: string)
    requires h + a == h + b
    ensures a == b
  {
    assert a == (h + a)[|h|..];
    assert b == (h + b)[|h|..];
  }

  /** Splitting at the first '|': equal texts whose first fields hold no
      '|' have equal first fields and equal remainders. */
  lemma SplitAtBar(a1: string, r1: string, a2: string, r2: string)
    requires forall i :: 0 <= i < |a1| ==> a1[i] != '|'
    requires forall i :: 0 <= i < |a2| ==> a2[i] != '|'
    requires a1 + "|" + r1 == a2 + "|" + r2
    ensures a1 == a2 && r1 == r2
  {
    FirstBarAfter(a1, r1);
    FirstBarAfter(a2, r2);
    assert a1 == (a1 + "|" + r1)[..|a1|];
    assert a2 == (a2 + "|" + r2)[..|a2|];
    assert r1 == (a1 + "|" + r1)[|a1| + 1..];
    assert r2 == (a2 + "|" + r2)[|a2| + 1..];
  }

  /** Within one channel, every (sequence, participant) pair gets its own
      proof context, so a proof cannot be replayed for another state or
      the other party. */
  lemma ProofContextsDistinct(channelId: string, s1: nat, p1: Participant, s2: nat, p2: Participant)
    requires ProofContext(channelId, s1, p1) == ProofContext(channelId, s2, p2)
    ensures s1 == s2 && p1 == p2
  {
    var d1, d2 := Decimal(s1), Decimal(s2);
    var suffix := "|opening-proof";
    Utf8Injective(channelId + "|" + d1 + "|" + Id(p1) + suffix, channelId + "|" + d2 + "|" + Id(p2) + suffix);
    CancelRight(channelId + "|" + d1 + "|" + Id(p1), channelId + "|" + d2 + "|" + Id(p2), suffix);
    DecimalHasNoBar(s1);
    DecimalHasNoBar(s2);
    SplitAfterHead(channelId + "|", d1, Id(p1), d2, Id(p2));
    DecimalInjective(s1, s2);
    ParseId(p1);
    ParseId(p2);
  }

  /** A head, a field free of '|', a '|' and a remainder: equal texts of
      this shape with the same head have equal fields and remainders. */
  lemma SplitAfterHead(h: string, d1: string, y1: string, d2: string, y2: string)
    requires forall i :: 0 <= i < |d1| ==> d1[i] != '|'
    requires forall i :: 0 <= i < |d2| ==> d2[i] != '|'
    requires h + d1 + "|" + y1 == h + d2 + "|" + y2
    ensures d1 == d2 && y1 == y2
  {
    assert h + d1 + "|" + y1 == h + (d1 + "|" + y1);
    assert h + d2 + "|" + y2 == h + (d2 + "|" + y2);
    CancelLeft(h, d1 + "|" + y1, d2 + "|" + y2);
    SplitAtBar(d1, y1, d2, y2);
  }

  // ---------------------------------------------------------------------
  // State

  /** The scalars `random_scalar` draws for one participant in one update:
      the commitment randomness and the proof's two nonces. */
  datatype Nonces = Nonces(randomness: nat, wm: nat, wr: nat)

  /** A copy of the channel state, as `ChannelState.clone` produces it. */
  datatype StateRecord = StateRecord(
    sequence: nat,
    balances: map<Participant, int>,
    commitments: map<Participant, Commitment>,
    openings: map<Participant, Opening>,
    proofs: map<Participant, Proof>,
    signatures: map<Participant, Signature>)

  datatype ChannelError =
    | InvalidAmount
    | InvalidParticipant(id: string)
    | InsufficientBalance
    | ProofCheckFailed(p: Participant)

  /** The proof the channel makes for one participant's balance: knowledge
      of the opening of its fresh commitment, bound to the channel, the
      sequence number and the participant. */
  function ProofFor(ops: Ops, channelId: string, sequence: nat, p: Participant, balance: int, n: Nonces): Proof
  {
    ops.prove(balance, Opening(n.randomness), ops.commit(balance, n.randomness),
              ProofContext(channelId, sequence, p), n.wm, n.wr)
  }

  /** The state `_set_balances` leaves behind for the given balances, before
      anyone signs: each balance committed and proved under the scalars
      drawn for its participant. */
  function Snapshot(ops: Ops, channelId: string, sequence: nat,
                    balances: map<Participant, int>, nonces: Participant -> Nonces): StateRecord
  {
    StateRecord(
      sequence, balances,
      map p | p in balances :: ops.commit(balances[p], nonces(p).randomness),
      map p | p in balances :: Opening(nonces(p).randomness),
      map p | p in balances :: ProofFor(ops, channelId, sequence, p, balances[p], nonces(p)),
      map[])
  }

  /** Maps that hold, for every participant, the entries an update makes are
      those of the snapshot. */
  lemma EntriesMakeSnapshot(ops: Ops, channelId: string, sequence: nat,
                            balances: map<Participant, int>, nonces: Participant -> Nonces,
                            cs: map<Participant, Commitment>, os: map<Participant, Opening>, ps: map<Participant, Proof>)
    requires Full(balances) && Full(cs) && Full(os) && Full(ps)
    requires forall p :: cs[p] == ops.commit(balances[p], nonces(p).randomness)
    requires forall p :: os[p] == Opening(nonces(p).randomness)
    requires forall p :: ps[p] == ProofFor(ops, channelId, sequence, p, balances[p], nonces(p))
    ensures StateRecord(sequence, balances, cs, os, ps, map[]) == Snapshot(ops, channelId, sequence, balances, nonces)
  {
    CommitmentEntries(ops, balances, nonces, cs);
    OpeningEntries(balances, nonces, os);
    ProofEntries(ops, channelId, sequence, balances, nonces, ps);
  }

  lemma CommitmentEntries(ops: Ops, balances: map<Participant, int>, nonces: Participant -> Nonces,
                          cs: map<Participant, Commitment>)
    requires Full(balances) && Full(cs)
    requires forall p :: cs[p] == ops.commit(balances[p], nonces(p).randomness)
    ensures cs == map p | p in balances :: ops.commit(balances[p], nonces(p).randomness)
  {
    var m := map p | p in balances :: ops.commit(balances[p], nonces(p).randomness);
    assert forall p :: p in m && cs[p] == m[p];
  }

  lemma OpeningEntries(balances: map<Participant, int>, nonces: Participant -> Nonces, os: map<Participant, Opening>)
    requires Full(balances) && Full(os)
    requires forall p :: os[p] == Opening(nonces(p).randomness)
    ensures os == map p | p in balances :: Opening(nonces(p).randomness)
  {
    var m := map p | p in balances :: Opening(nonces(p).randomness);
    assert forall p :: p in m && os[p] == m[p];
  }

  lemma ProofEntries(ops: Ops, channelId: string, sequence: nat,
                     balances: map<Participant, int>, nonces: Participant -> Nonces, ps: map<Participant, Proof>)
    requires Full(balances) && Full(ps)
    requires forall p :: ps[p] == ProofFor(ops, channelId, sequence, p, balances[p], nonces(p))
    ensures ps == map p | p in balances :: ProofFor(ops, channelId, sequence, p, balances[p], nonces(p))
  {
    var m := map p | p in balances :: ProofFor(ops, channelId, sequence, p, balances[p], nonces(p));
    assert forall p :: p in m && ps[p] == m[p];
  }

  /** Every commitment of a snapshot opens to its balance under the stored
      opening, the check `verify` makes. */
  lemma SnapshotOpens(ops: Ops, channelId: string, sequence: nat,
                      balances: map<Participant, int>, nonces: Participant -> Nonces)
    requires Opens(ops) && Full(balances)
    ensures var s := Snapshot(ops, channelId, sequence, balances, nonces);
            forall p :: p in s.commitments && p in s.openings
                        && ops.opens(s.commitments[p], balances[p], s.openings[p])
  {
  }

  /** With a complete proof system every proof of a snapshot passes the
      proof check under the context of its own participant and sequence
      number. */
  lemma SnapshotProofsVerify(ops: Ops, channelId: string, sequence: nat,
                             balances: map<Participant, int>, nonces: Participant -> Nonces)
    requires Complete(ops) && Full(balances)
    ensures var s := Snapshot(ops, channelId, sequence, balances, nonces);
            forall p :: p in s.commitments && p in s.proofs
                        && ops.verifyProof(s.commitments[p], s.proofs[p], ProofContext(channelId, sequence, p))
  {
  }

  /** The channel's bookkeeping invariant on values: every participant has
      a balance, a commitment, an opening and a proof; both balances are
      non-negative and hold the value deposited at opening; the history
      holds one copy per sequence number, the last being the current state
      before any signature. */
  ghost predicate Kept(s: StateRecord, history: seq<StateRecord>)
  {
    && Full(s.balances) && Full(s.commitments) && Full(s.openings) && Full(s.proofs)
    && s.balances[Alice] >= 0 && s.balances[Bob] >= 0
    && |history| == s.sequence + 1
    && (forall i :: 0 <= i < |history| ==> history[i].sequence == i)
    && Full(history[0].balances)
    && Total(s.balances) == Total(history[0].balances)
    && history[|history| - 1] == s
  }

  /** The balances after `from` pays `amount` to `to`: a copy of the
      dictionary with the two entries adjusted. */
  function Transfer(balances: map<Participant, int>, from: Participant, to: Participant, amount: int): map<Participant, int>
    requires from in balances && to in balances
  {
    var b := balances[from := balances[from] - amount];
    b[to := b[to] + amount]
  }

  /** A payment between the two parties keeps every entry, keeps the total
      and moves exactly `amount`; when the payer covers it no balance goes
      negative. */
  lemma TransferConserves(balances: map<Participant, int>, from: Participant, to: Participant, amount: int)
    requires Full(balances) && from != to
    ensures var b := Transfer(balances, from, to, amount);
            && Full(b)
            && Total(b) == Total(balances)
            && b[from] == balances[from] - amount
            && b[to] == balances[to] + amount
            && (0 <= amount <= balances[from] && balances[to] >= 0 ==> b[Alice] >= 0 && b[Bob] >= 0)
  {
  }

  /** A snapshot has an entry per participant in each map and no
      signatures. */
  lemma SnapshotShape(ops: Ops, channelId: string, sequence: nat,
                      balances: map<Participant, int>, nonces: Participant -> Nonces)
    requires Full(balances)
    ensures var s := Snapshot(ops, channelId, sequence, balances, nonces);
            && s.sequence == sequence && s.balances == balances && s.signatures == map[]
            && Full(s.commitments) && Full(s.openings) && Full(s.proofs)
  {
  }

  /** The state `open` makes keeps the invariant with itself as the whole
      history. */
  lemma InitialKept(ops: Ops, channelId: string, balances: map<Participant, int>, nonces: Participant -> Nonces)
    requires Full(balances) && balances[Alice] >= 0 && balances[Bob] >= 0
    ensures var s := Snapshot(ops, channelId, 0, balances, nonces);
            Kept(s, [s])
  {
    SnapshotShape(ops, channelId, 0, balances, nonces);
  }

  /** A state one sequence number further that holds the same total,
      appended to the history, keeps the invariant. */
  lemma {:induction false} StepKept(s: StateRecord, history: seq<StateRecord>, t: StateRecord)
    requires Kept(s, history)
    requires t.sequence == s.sequence + 1
    requires Full(t.balances) && Full(t.commitments) && Full(t.openings) && Full(t.proofs)
    requires t.balances[Alice] >= 0 && t.balances[Bob] >= 0
    requires Total(t.balances) == Total(s.balances)
    ensures Kept(t, history + [t])
  {
    var h := history + [t];
    forall i | 0 <= i < |h|
      ensures h[i].sequence == i
    {
      if i < |history| {
        assert h[i] == history[i];
      }
    }
    assert h[0] == history[0];
  }

  class ChannelState {
    var sequence: nat
    var balances: map<Participant, int>
    var commitments: map<Participant, Commitment>
    var openings: map<Participant, Opening>
    var proofs: map<Participant, Proof>
    var signatures: map<Participant, Signature>

    constructor (sequence: nat, balances: map<Participant, int>, commitments: map<Participant, Commitment>,
                 openings: map<Participant, Opening>, proofs: map<Participant, Proof>)
      ensures this.sequence == sequence && this.balances == balances && this.commitments == commitments
      ensures this.openings == openings && this.proofs == proofs && this.signatures == map[]
    {
      this.sequence := sequence;
      this.balances := balances;
      this.commitments := commitments;
      this.openings := openings;
      this.proofs := proofs;
      this.signatures := map[];
    }

    /** `clone`: a copy that later updates of this state do not reach. */
    function Clone(): StateRecord
      reads this
    {
      StateRecord(sequence, balances, commitments, openings, proofs, signatures)
    }

    /** The copy without its signatures. */
    function Unsigned(): StateRecord
      reads this`sequence, this`balances, this`commitments, this`openings, this`proofs
    {
      StateRecord(sequence, balances, commitments, openings, proofs, map[])
    }
  }

  class Channel {
    const channelId: string
    /** The commitment operations over the channel's parameters. */
    const ops: Ops
    const sha: Hash
    const scheme: SignatureScheme
    const signingKeys: Participant -> SigningKey
    const state: ChannelState
    var history: seq<StateRecord>
    /** The scalars drawn at the last update, which the current commitments,
        openings and proofs were made with. */
    ghost var drawn: Participant -> Nonces

    /** The channel's bookkeeping invariant, on the current state without
        its signatures. */
    ghost predicate Valid()
      reads this`history, state`sequence, state`balances, state`commitments, state`openings, state`proofs
    {
      Kept(state.Unsigned(), history)
    }

    /** The commitments, openings and proofs are the ones the last update
        made for the current balances and sequence number. */
    ghost predicate Committed()
      reads this`drawn, state`sequence, state`balances, state`commitments, state`openings, state`proofs
    {
      state.Unsigned() == Snapshot(ops, channelId, state.sequence, state.balances, drawn)
    }

    /** Participant p's commitment and opening are the ones made for its
        entry of `balances` with the scalars drawn for it. */
    ghost predicate Recommitted(p: Participant, balances: map<Participant, int>, nonces: Participant -> Nonces)
      reads state`commitments, state`openings
    {
      && p in balances && p in state.commitments && p in state.openings
      && state.commitments[p] == ops.commit(balances[p], nonces(p).randomness)
      && state.openings[p] == Opening(nonces(p).randomness)
    }

    /** The commitments of a channel open to its balances. */
    lemma CommitmentsOpen()
      requires Valid() && Committed() && Opens(ops)
      ensures forall p :: p in state.commitments && p in state.openings
                          && ops.opens(state.commitments[p], state.balances[p], state.openings[p])
    {
      SnapshotOpens(ops, channelId, state.sequence, state.balances, drawn);
    }

    /** With a complete proof system the proofs of a channel verify under
        the current sequence number. */
    lemma ProofsVerify()
      requires Valid() && Committed() && Complete(ops)
      ensures forall p :: p in state.commitments && p in state.proofs
                          && ops.verifyProof(state.commitments[p], state.proofs[p],
                                             ProofContext(channelId, state.sequence, p))
    {
      SnapshotProofsVerify(ops, channelId, state.sequence, state.balances, drawn);
    }

    /** The dataclass constructor with `__post_init__`: an empty history
        starts with a copy of the initial state. */
    constructor (channelId: string, ops: Ops, sha: Hash, scheme: SignatureScheme,
                 signingKeys: Participant -> SigningKey, state: ChannelState, drawn: Participant -> Nonces)
      ensures this.channelId == channelId && this.ops == ops && this.sha == sha
      ensures this.scheme == scheme && this.signingKeys == signingKeys && this.state == state
      ensures this.drawn == drawn
      ensures history == [state.Clone()]
    {
      this.channelId := channelId;
      this.ops := ops;
      this.sha := sha;
      this.scheme := scheme;
      this.signingKeys := signingKeys;
      this.state := state;
      this.drawn := drawn;
      history := [state.Clone()];
    }

    /** `Channel.open`. An empty `channelId` is replaced by `freshId` (the
        source draws a uuid4); `nonces` are the scalars drawn for each party.
        Negative deposits are refused; otherwise the result is a channel at
        sequence 0 holding the deposits, unsigned, with one history entry,
        unless a fresh proof fails its own check, which a complete proof
        system rules out. */
    static method Open(depositAlice: int, depositBob: int, ops: Ops, channelId: string, freshId: string,
                       signingKeys: Participant -> SigningKey, sha: Hash, scheme: SignatureScheme,
                       nonces: Participant -> Nonces)
      returns (r: Result<Channel, ChannelError>)
      ensures (depositAlice < 0 || depositBob < 0) <==> r == Err(InvalidAmount)
      ensures Complete(ops) && depositAlice >= 0 && depositBob >= 0 ==> r.Ok?
      ensures r.Err? ==> r.error == InvalidAmount || r.error.ProofCheckFailed?
      ensures r.Ok? ==> fresh(r.value) && fresh(r.value.state) && r.value.Valid() && r.value.Committed()
      ensures r.Ok? ==>
                var c := r.value;
                && c.channelId == (if channelId == "" then freshId else channelId)
                && c.ops == ops && c.sha == sha && c.scheme == scheme && c.signingKeys == signingKeys
                && c.state.Clone() == Snapshot(ops, c.channelId, 0, map[Alice := depositAlice, Bob := depositBob], nonces)
                && c.history == [c.state.Clone()]
    {
      if depositAlice < 0 || depositBob < 0 {
        return Err(InvalidAmount);
      }
      var id := if channelId == "" then freshId else channelId;
      var balances := map[Alice := depositAlice, Bob := depositBob];
      var commitments: map<Participant, Commitment> := map[];
      var openings: map<Participant, Opening> := map[];
      var proofs: map<Participant, Proof> := map[];
      for i := 0 to |Participants|
        invariant forall p :: p in commitments <==> p in Participants[..i]
        invariant forall p :: p in openings <==> p in Participants[..i]
        invariant forall p :: p in proofs <==> p in Participants[..i]
        invariant forall p :: p in commitments ==> commitments[p] == ops.commit(balances[p], nonces(p).randomness)
        invariant forall p :: p in openings ==> openings[p] == Opening(nonces(p).randomness)
        invariant forall p :: p in proofs ==> proofs[p] == ProofFor(ops, id, 0, p, balances[p], nonces(p))
      {
        var pid := Participants[i];
        var opening := Opening(nonces(pid).randomness);
        var commitment := ops.commit(balances[pid], opening.randomness);
        commitments := commitments[pid := commitment];
        openings := openings[pid := opening];
        var context := ProofContext(id, 0, pid);
        var proof := ops.prove(balances[pid], opening, commitment, context, nonces(pid).wm, nonces(pid).wr);
        if Complete(ops) {
          CompleteAt(ops, balances[pid], nonces(pid).randomness, context, nonces(pid).wm, nonces(pid).wr);
        }
        if !ops.verifyProof(commitment, proof, context) {
          return Err(ProofCheckFailed(pid));
        }
        proofs := proofs[pid := proof];
      }
      assert Participants[..|Participants|] == Participants;
      EveryParticipant();
      EntriesMakeSnapshot(ops, id, 0, balances, nonces, commitments, openings, proofs);
      InitialKept(ops, id, balances, nonces);
      var state := new ChannelState(0, balances, commitments, openings, proofs);
      var c := new Channel(id, ops, sha, scheme, signingKeys, state, nonces);
      assert c.state.Unsigned() == Snapshot(ops, id, 0, balances, nonces);
      return Ok(c);
    }

    /** `_set_balances`: recommit every balance under fresh scalars and
        prove each commitment under the current sequence number; replace the
        proofs and clear the signatures. A failing self-check returns the
        participant concerned and leaves the state half-updated, as the
        exception does in the source. */
    method SetBalances(balances: map<Participant, int>, nonces: Participant -> Nonces)
      returns (failed: Option<Participant>)
      requires Full(balances) && Full(state.commitments) && Full(state.openings)
      modifies state
      ensures state.sequence == old(state.sequence)
      ensures state.balances == balances
      ensures Complete(ops) ==> failed.None?
      ensures failed.None? ==> state.Clone() == Snapshot(ops, channelId, state.sequence, balances, nonces)
      ensures failed.Some? ==> state.proofs == old(state.proofs) && state.signatures == old(state.signatures)
      ensures failed.Some? ==> Full(state.commitments) && Full(state.openings)
      ensures failed.Some? ==> Recommitted(Alice, balances, nonces) && Recommitted(failed.value, balances, nonces)
      ensures failed == Some(Alice) ==>
                state.commitments[Bob] == old(state.commitments[Bob]) && state.openings[Bob] == old(state.openings[Bob])
    {
      state.balances := balances;
      var newProofs;
      newProofs, failed := RecommitAll(balances, nonces);
      if failed.Some? {
        return failed;
      }
      EveryParticipant();
      EntriesMakeSnapshot(ops, channelId, state.sequence, balances, nonces,
                          state.commitments, state.openings, newProofs);
      state.proofs := newProofs;
      state.signatures := map[];
    }

    /** The loop of `_set_balances`: recommit and reprove each participant
        in turn, stopping at the first proof that fails its self-check.
        The participants before and including the failing one have been
        recommitted by then; the proofs are only collected. */
    method RecommitAll(balances: map<Participant, int>, nonces: Participant -> Nonces)
      returns (newProofs: map<Participant, Proof>, failed: Option<Participant>)
      requires Full(balances) && Full(state.commitments) && Full(state.openings)
      modifies state`commitments, state`openings
      ensures Full(state.commitments) && Full(state.openings)
      ensures Complete(ops) ==> failed.None?
      ensures failed.None? ==>
                && Full(newProofs)
                && forall p :: && state.commitments[p] == ops.commit(balances[p], nonces(p).randomness)
                               && state.openings[p] == Opening(nonces(p).randomness)
                               && newProofs[p] == ProofFor(ops, channelId, state.sequence, p, balances[p], nonces(p))
      ensures failed.Some? ==> Recommitted(Alice, balances, nonces) && Recommitted(failed.value, balances, nonces)
      ensures failed == Some(Alice) ==>
                state.commitments[Bob] == old(state.commitments[Bob]) && state.openings[Bob] == old(state.openings[Bob])
    {
      newProofs := map[];
      for i := 0 to |Participants|
        invariant Full(state.commitments) && Full(state.openings)
        invariant forall p :: p in newProofs <==> p in Participants[..i]
        invariant i == 0 ==> state.commitments[Bob] == old(state.commitments[Bob])
                             && state.openings[Bob] == old(state.openings[Bob])
        invariant forall p :: p in Participants[..i] ==>
                    && state.commitments[p] == ops.commit(balances[p], nonces(p).randomness)
                    && state.openings[p] == Opening(nonces(p).randomness)
                    && newProofs[p] == ProofFor(ops, channelId, state.sequence, p, balances[p], nonces(p))
      {
        var pid := Participants[i];
        var proof, verified := RecommitOne(pid, balances, nonces);
        if !verified {
          assert i == 1 ==> Participants[..i] == [Alice];
          return newProofs, Some(pid);
        }
        newProofs := newProofs[pid := proof];
      }
      assert Participants[..|Participants|] == Participants;
      EveryParticipant();
      return newProofs, None;
    }

    /** One pass of the loop in `_set_balances`: commit one participant's
        balance with fresh randomness, store the commitment and opening,
        prove the opening under the participant's context and check the
        proof. */
    method RecommitOne(pid: Participant, balances: map<Participant, int>, nonces: Participant -> Nonces)
      returns (proof: Proof, verified: bool)
      requires pid in balances
      modifies state`commitments, state`openings
      ensures state.commitments == old(state.commitments)[pid := ops.commit(balances[pid], nonces(pid).randomness)]
      ensures state.openings == old(state.openings)[pid := Opening(nonces(pid).randomness)]
      ensures proof == ProofFor(ops, channelId, state.sequence, pid, balances[pid], nonces(pid))
      ensures verified <==> ops.verifyProof(state.commitments[pid], proof, ProofContext(channelId, state.sequence, pid))
      ensures Complete(ops) ==> verified
    {
      var opening := Opening(nonces(pid).randomness);
      var commitment := ops.commit(balances[pid], opening.randomness);
      state.commitments := state.commitments[pid := commitment];
      state.openings := state.openings[pid := opening];
      var context := ProofContext(channelId, state.sequence, pid);
      proof := ops.prove(balances[pid], opening, commitment, context, nonces(pid).wm, nonces(pid).wr);
      if Complete(ops) {
        CompleteAt(ops, balances[pid], nonces(pid).randomness, context, nonces(pid).wm, nonces(pid).wr);
      }
      verified := ops.verifyProof(commitment, proof, context);
    }

    /** `apply_payment`: `payer` sends `amount` to the other party. The
        three refusals leave the channel as it was; a payment moves the
        amount, bumps the sequence number, recommits and reproves both
        balances, drops the signatures and appends the new state to the
        history. */
    method ApplyPayment(payer: string, amount: int, nonces: Participant -> Nonces)
      returns (r: Result<StateRecord, ChannelError>)
      requires Valid()
      modifies this, state
      ensures ParseParticipant(payer).None? ==> r == Err(InvalidParticipant(payer))
      ensures ParseParticipant(payer).Some? && amount <= 0 ==> r == Err(InvalidAmount)
      ensures (ParseParticipant(payer).Some? && amount > old(state.balances[ParseParticipant(payer).value]))
              ==> r == Err(InsufficientBalance)
      ensures r.Err? && !r.error.ProofCheckFailed? ==> unchanged(this) && unchanged(state)
      ensures (Complete(ops) && ParseParticipant(payer).Some?
               && 0 < amount <= old(state.balances[ParseParticipant(payer).value])) ==> r.Ok?
      ensures r.Err? && r.error.ProofCheckFailed? ==>
                var from := ParseParticipant(payer).value;
                var to := ParseParticipant(Other(payer).value).value;
                var balances := Transfer(old(state.balances), from, to, amount);
                && state.sequence == old(state.sequence) + 1 && history == old(history)
                && state.balances == balances
                && state.proofs == old(state.proofs) && state.signatures == old(state.signatures)
                && Full(state.commitments) && Full(state.openings)
                && Recommitted(Alice, balances, nonces) && Recommitted(r.error.p, balances, nonces)
                && (r.error.p == Alice ==>
                      state.commitments[Bob] == old(state.commitments[Bob])
                      && state.openings[Bob] == old(state.openings[Bob]))
      ensures r.Ok? ==>
                var from := ParseParticipant(payer).value;
                var to := ParseParticipant(Other(payer).value).value;
                var balances := Transfer(old(state.balances), from, to, amount);
                && Valid() && Committed()
                && state.Clone() == Snapshot(ops, channelId, old(state.sequence) + 1, balances, nonces)
                && history == old(history) + [state.Clone()]
                && r.value == state.Clone()
    {
      var from := ParseParticipant(payer);
      if from.None? {
        return Err(InvalidParticipant(payer));
      }
      var p := from.value;
      if amount <= 0 {
        return Err(InvalidAmount);
      }
      if amount > state.balances[p] {
        return Err(InsufficientBalance);
      }
      var payee := ParseParticipant(Other(payer).value).value;
      assert payee != p;
      var balances := Transfer(state.balances, p, payee, amount);
      TransferConserves(state.balances, p, payee, amount);
      ghost var before := state.Unsigned();
      state.sequence := state.sequence + 1;
      var failed := SetBalances(balances, nonces);
      if failed.Some? {
        return Err(ProofCheckFailed(failed.value));
      }
      ghost var after := Snapshot(ops, channelId, before.sequence + 1, balances, nonces);
      SnapshotShape(ops, channelId, before.sequence + 1, balances, nonces);
      StepKept(before, history, after);
      drawn := nonces;
      history := history + [state.Clone()];
      return Ok(state.Clone());
    }

    /** `state_digest`. */
    function StateDigest(): seq<byte>
      reads state`sequence, state`commitments
    {
      ComputeStateDigest(sha, channelId, state.sequence, state.commitments)
    }

    /** Participant p holds a signature of the current digest made with its
        own key. */
    ghost predicate SignedBy(p: Participant)
      reads state`sequence, state`commitments, state`signatures
    {
      p in state.signatures && state.signatures[p] == scheme.sign(signingKeys(p), StateDigest())
    }

    /** `sign_state`: sign the current digest as one participant and store
        the signature; nothing else about the channel changes. */
    method SignState(id: string) returns (r: Result<Signature, ChannelError>)
      modifies state`signatures
      ensures ParseParticipant(id).None? ==> r == Err(InvalidParticipant(id)) && unchanged(state)
      ensures ParseParticipant(id).Some? ==>
                var p := ParseParticipant(id).value;
                && r == Ok(scheme.sign(signingKeys(p), StateDigest()))
                && state.signatures == old(state.signatures)[p := r.value]
                && SignedBy(p)
    {
      var p := ParseParticipant(id);
      if p.None? {
        return Err(InvalidParticipant(id));
      }
      var signature := scheme.sign(signingKeys(p.value), StateDigest());
      state.signatures := state.signatures[p.value := signature];
      return Ok(signature);
    }

    /** `is_fully_signed`: every participant has stored a signature. */
    predicate IsFullySigned()
      reads state`signatures
    {
      Full(state.signatures)
    }

    /** `verify_signatures`: every participant's stored signature checks
        against its verification key and the current digest. */
    method VerifySignatures() returns (ok: bool)
      ensures ok <==> forall p :: p in state.signatures
                                  && scheme.verify(scheme.verifyKeyOf(signingKeys(p)), StateDigest(), state.signatures[p])
      ensures ok ==> IsFullySigned()
    {
      var digest := StateDigest();
      for i := 0 to |Participants|
        invariant forall p :: p in Participants[..i] ==>
                    p in state.signatures
                    && scheme.verify(scheme.verifyKeyOf(signingKeys(p)), digest, state.signatures[p])
      {
        var pid := Participants[i];
        if pid !in state.signatures {
          return false;
        }
        if !scheme.verify(scheme.verifyKeyOf(signingKeys(pid)), digest, state.signatures[pid]) {
          return false;
        }
      }
      assert Participants[..|Participants|] == Participants;
      EveryParticipant();
      return true;
    }

    /** Signatures both parties made over the current digest verify, given
        a signature scheme whose honest signatures check. */
    lemma SignedByAllVerifies()
      requires Sound(scheme)
      requires SignedBy(Alice) && SignedBy(Bob)
      ensures IsFullySigned()
      ensures forall p :: p in state.signatures
                          && scheme.verify(scheme.verifyKeyOf(signingKeys(p)), StateDigest(), state.signatures[p])
    {
      forall p
        ensures p in state.signatures
                && scheme.verify(scheme.verifyKeyOf(signingKeys(p)), StateDigest(), state.signatures[p])
      {
        match p
        case Alice =>
        case Bob =>
      }
    }

    /** A committed state that both parties signed, as a value: its
        unsigned part is the snapshot of the last update and each party's
        signature is over its digest. */
    lemma SignedState()
      requires Committed() && SignedBy(Alice) && SignedBy(Bob)
      ensures var s := state.Clone();
              && s.(signatures := map[]) == Snapshot(ops, channelId, s.sequence, s.balances, drawn)
              && forall p :: p in s.signatures
                             && s.signatures[p] == scheme.sign(signingKeys(p), ComputeStateDigest(sha, channelId, s.sequence, s.commitments))
    {
      forall p
        ensures p in state.signatures && state.signatures[p] == scheme.sign(signingKeys(p), StateDigest())
      {
        match p
        case Alice =>
        case Bob =>
      }
    }

    /** `closing_payload`. */
    function ClosingPayload(): ClosePayload
      reads state
    {
      PayloadOf(channelId, state.Clone())
    }
  }

  /** The payload `closing_payload` builds from a state: every field
      present, and each decodes back to the state it was made from. */
  function PayloadOf(channelId: string, s: StateRecord): (payload: ClosePayload)
    ensures payload.channelId == Some(channelId) && payload.sequence == Some(s.sequence)
    ensures payload.balances.Some? && payload.commitments.Some? && payload.openings.Some?
    ensures payload.proofs.Some? && payload.signatures.Some?
    ensures forall p :: Id(p) in payload.balances.value <==> p in s.balances
    ensures forall p :: p in s.balances ==> payload.balances.value[Id(p)] == s.balances[p]
    ensures forall p :: Id(p) in payload.commitments.value <==> p in s.commitments
    ensures forall p :: p in s.commitments ==>
              DeserializeCommitment(payload.commitments.value[Id(p)]) == Some(s.commitments[p])
    ensures forall p :: Id(p) in payload.openings.value <==> p in s.openings
    ensures forall p :: p in s.openings ==>
              DeserializeOpening(payload.openings.value[Id(p)]) == Some(s.openings[p])
    ensures forall p :: Id(p) in payload.proofs.value <==> p in s.proofs
    ensures forall p :: p in s.proofs ==>
              DeserializeProof(payload.proofs.value[Id(p)]) == Some(s.proofs[p])
    ensures forall p :: Id(p) in payload.signatures.value <==> p in s.signatures
    ensures forall p :: p in s.signatures ==>
              SignatureFromHex(payload.signatures.value[Id(p)]) == Some(s.signatures[p])
  {
    ClosePayload(
      Some(channelId),
      Some(s.sequence),
      Some(ById(s.balances)),
      Some(Encoded(s.commitments, SerializeCommitment)),
      Some(Encoded(s.openings, SerializeOpening)),
      Some(Encoded(s.proofs, SerializeProof)),
      Some(Encoded(s.signatures, SignatureToHex)))
  }

  /** A dictionary keyed by participant with every value put in its wire
      form, re-keyed by participant id. */
  function Encoded<T, U>(m: map<Participant, T>, encode: T -> U): (r: map<string, U>)
    ensures forall p :: Id(p) in r <==> p in m
    ensures forall p :: p in m ==> r[Id(p)] == encode(m[p])
  {
    ById(map p | p in m :: encode(m[p]))
  }

  /** A dictionary keyed by participant, re-keyed by participant id. */
  function ById<T>(m: map<Participant, T>): (r: map<string, T>)
    ensures forall p :: Id(p) in r <==> p in m
    ensures forall p :: p in m ==> r[Id(p)] == m[p]
    ensures forall k :: k in r ==> ParseParticipant(k).Some?
  {
    (if Alice in m then map[Id(Alice) := m[Alice]] else map[])
      + (if Bob in m then map[Id(Bob) := m[Bob]] else map[])
  }

  /** The dictionary `closing_payload` builds, as the ledger reads it: a
      field is None when it is missing or not of the type the ledger asks
      for. */
  datatype ClosePayload = ClosePayload(
    channelId: Option<string>,
    sequence: Option<int>,
    balances: Option<map<string, int>>,
    commitments: Option<map<string, string>>,
    openings: Option<map<string, string>>,
    proofs: Option<map<string, ProofHex>>,
    signatures: Option<map<string, string>>)
}
