/** Whose keys a record must be signed with: the payer's, the updated account's, the genesis account's or the slot leader's, kind by kind,
    on every path that takes records. */
module Signers {
  import opened Numbers
  import opened Outcomes
  import opened ChainTypes
  import opened Bank
  import opened LedgerView
  import opened TxHandlers
  import opened TxSignatures
  import opened ChainSpec
  import opened Mining
  import opened Runs

  /** The account on whose behalf the transaction acts, or, for what keeps accounts alive or ends them, the leader of the slot. */
  predicate ActsFor(tx: TypedTx, leader: Id, id: Id) {
    && (tx.TxDefault? || tx.TxNewUser? ==> id == tx.fromWalletId)
    && (tx.TxUserUpdate? ==> id == tx.walletId)
    && (tx.TxConfig? || tx.TxGenesis? ==> id == ID_GENESIS)
    && (tx.TxRenewal? || tx.TxEndUser? ==> id == if leader == 0 then tx.walletId else leader)
  }

  /** Enough signatures, each matched to a key of the account that verifies it, no key used twice. */
  ghost predicate SignedBy(codec: Codec, rec: Record, a: Account) {
    && rec.signatures != [] && |rec.signatures| >= a.wallet.minSignatures
    && Matchable(VerifierFor(codec, a.wallet.keyType, rec.data), a.wallet.publicKeys, rec.signatures)
  }

  /** No signature of the record verifies under two different keys of the account. */
  ghost predicate KeysApart(codec: Codec, rec: Record, a: Account) {
    OneKeyEach(VerifierFor(codec, a.wallet.keyType, rec.data), a.wallet.publicKeys, rec.signatures)
  }

  /** Signatures that are accepted are those of the account the transaction acts for, if the account is known; and they are accepted
      whenever they are, provided no signature verifies under two keys. An unknown account is tolerated in loose mode, and for the
      genesis account as long as there are no accounts at all. */
  lemma SignaturesIff(codec: Codec, b: Accounts, rec: Record, leader: Id, strict: bool, id: Id)
    requires codec.decode(rec).Some? && ActsFor(codec.decode(rec).value, leader, id)
    ensures var s := ValidateTxSignatures(codec, b, rec, leader, strict);
      && (s.Done? && id in b ==> SignedBy(codec, rec, b[id]))
      && (id in b && SignedBy(codec, rec, b[id]) && KeysApart(codec, rec, b[id]) ==> s.Done?)
      && (id !in b ==> (s.Done? <==> rec.signatures != [] && (!strict || (b == map[] && id == ID_GENESIS))))
  {
    hide CheckSignatures;
    if id in b {
      if KeysApart(codec, rec, b[id]) {
        SignaturesAcceptedIff(codec, rec.data, rec.signatures, b[id]);
      }
      if CheckSignatures(codec, rec.data, rec.signatures, b[id]).Done? {
        var m := AcceptedSignaturesMatch(codec, rec.data, rec.signatures, b[id]);
      }
    }
  }

  /** Every transaction acts for exactly one account. */
  lemma ActsForOne(tx: TypedTx, leader: Id)
    ensures exists id :: ActsFor(tx, leader, id)
    ensures forall i, j | ActsFor(tx, leader, i) && ActsFor(tx, leader, j) :: i == j
  {
    assert ActsFor(tx, leader, if tx.TxDefault? || tx.TxNewUser? then tx.fromWalletId
      else if tx.TxUserUpdate? then tx.walletId
      else if tx.TxConfig? || tx.TxGenesis? then ID_GENESIS else if leader == 0 then tx.walletId else leader);
  }

  /** Acceptance by a block, strict or loose. */
  lemma ProcessedIsSigned(codec: Codec, l: Ledger, w: World, rec: Record, block: Block, strict: bool, id: Id)
    requires ProcessRecord(codec, l, w, rec, block, strict).1.Done?
    ensures codec.decode(rec).Some?
    ensures ActsFor(codec.decode(rec).value, block.slotLeader, id) && id in w.accounts ==> SignedBy(codec, rec, w.accounts[id])
  {
    hide ApplyBlock, CheckSignatures, SignedBy;
    DecodedIfSigned(codec, w.accounts, rec, block.slotLeader, strict);
    if ActsFor(codec.decode(rec).value, block.slotLeader, id) {
      SignaturesIff(codec, w.accounts, rec, block.slotLeader, strict, id);
    }
  }

  lemma DecodedIfSigned(codec: Codec, b: Accounts, rec: Record, leader: Id, strict: bool)
    requires ValidateTxSignatures(codec, b, rec, leader, strict).Done?
    ensures codec.decode(rec).Some?
  {
    hide CheckSignatures;
  }

  /** Acceptance by the overlay of a miner: the committed accounts decide, and whoever is unknown there has no say. */
  lemma BufferedIsSigned(v: View, leader: Id, overlay: Accounts, rec: Record, id: Id)
    requires AddBuffer(v, leader, overlay, rec).1.Done?
    ensures v.codec.decode(rec).Some?
    ensures ActsFor(v.codec.decode(rec).value, leader, id) ==>
      if id in v.Committed() then SignedBy(v.codec, rec, v.Committed()[id]) else v.Committed() == map[] && id == ID_GENESIS
  {
    hide ApplyBuffer, ValidateTxSignatures, SignedBy;
    DecodedIfSigned(v.codec, v.Committed(), rec, leader, true);
    if ActsFor(v.codec.decode(rec).value, leader, id) {
      SignaturesIff(v.codec, v.Committed(), rec, leader, true, id);
    }
  }

  // ----- blocks -----

  /** Each record from position `i` on is signed by the account it acts for, with the keys that the records before have left it. */
  ghost predicate SignedThroughout(codec: Codec, l: Ledger, w: World, block: Block, i: nat)
    requires i <= |block.records|
    decreases |block.records| - i
  {
    i == |block.records| ||
    (&& codec.decode(block.records[i]).Some?
     && (forall id | ActsFor(codec.decode(block.records[i]).value, block.slotLeader, id) && id in w.accounts ::
           SignedBy(codec, block.records[i], w.accounts[id]))
     && SignedThroughout(codec, l, ProcessRecord(codec, l, w, block.records[i], block, true).0, block, i + 1))
  }

  lemma {:induction false} RecordsAreSigned(codec: Codec, l: Ledger, w: World, block: Block, i: nat)
    requires i <= |block.records| && ProcessRecords(codec, l, w, block, i, true).1.Done?
    ensures SignedThroughout(codec, l, w, block, i)
    decreases |block.records| - i
  {
    hide ProcessRecord, SignedBy, ActsFor;
    if i < |block.records| {
      ProcessedIsSigned(codec, l, w, block.records[i], block, true, 0);
      forall id | ActsFor(codec.decode(block.records[i]).value, block.slotLeader, id) && id in w.accounts
        ensures SignedBy(codec, block.records[i], w.accounts[id])
      {
        ProcessedIsSigned(codec, l, w, block.records[i], block, true, id);
      }
      RecordsAreSigned(codec, l, ProcessRecord(codec, l, w, block.records[i], block, true).0, block, i + 1);
    }
  }

  /** In every block that a chain grown from its genesis block accepts, every record is signed by the account it acts for. */
  lemma AcceptedBlockIsSigned(codec: Codec, st: ChainState, node: ChainNode, now: int)
    requires BaseInvariant(st) && AtTip(st, node) && AddBlock(codec, st, node, now).1.Done?
    ensures SignedThroughout(codec, st.ledger, st.world, node.block, 0)
  {
    hide AddBlock, BaseInvariant, AtTip, ProcessRecords, SignedThroughout;
    OfferUnfolds(codec, st, node, now);
    RecordsAreSigned(codec, st.ledger, st.world, node.block, 0);
  }
}
