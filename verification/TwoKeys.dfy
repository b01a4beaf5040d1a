/** Two accounts with different keys: a user's update signed with the leader's keys is refused by blocks and by miners, one signed with the
    user's own is carried out. */
module TwoKeys {
  import opened Numbers
  import opened Outcomes
  import opened ChainTypes
  import opened Bank
  import opened LedgerView
  import opened TxFees
  import opened TxHandlers
  import opened TxSignatures
  import opened ChainSpec
  import opened Archive
  import opened ChainCodec
  import opened AccountCodec
  import opened BinaryCodec
  import opened PackedSizes
  import opened Mining
  import opened HandlerOutcomes
  import opened SmallChain
  import Ouroboros

  /** The program's codec, with a key verifying only itself as a signature. */
  function Strictly(): Codec {
    Binary(bytes => bytes, (keyType, key, message, signature) => key == signature, (stakes, slot, epoch) => ID_RESERVE)
  }

  const USER: Id := ID_FIRST_USER
  const USERS_KEY: Bytes := [1]
  const LEADERS_KEY: Bytes := [2]
  const NEW_KEY: Bytes := [3]

  function Keyed(key: Bytes): Wallet {
    Wallet(map[ID_GENESIS := 0], [key], 1, TK_ED25519)
  }

  function Two(): Accounts {
    map[USER := Account.Account(USER, Keyed(USERS_KEY), 0), ID_RESERVE := Account.Account(ID_RESERVE, Keyed(LEADERS_KEY), 0)]
  }

  function Changing(): TypedTx {
    TxUserUpdate(USER, 0, Strictly().packUserAccount(UserAccount(Keyed(NEW_KEY), [])), NEVER)
  }

  function SignedWith(key: Bytes): Record {
    Strictly().encode(Changing()).(signatures := [key])
  }

  lemma ChangingReads(key: Bytes)
    ensures Strictly().userAccountOf(Changing().meta) == Some(UserAccount(Keyed(NEW_KEY), []))
    ensures Strictly().decode(SignedWith(key)) == Some(Changing()) && SignedWith(key).signatures == [key] && |Changing().meta| <= 1000
  {
    hide UserAccountFits, UserAccountBytes, UserAccountFromBytes, UserAccountSmall, TxBytes, DecodeRecord;
    var a := UserAccount(Keyed(NEW_KEY), []);
    KeyedFits();
    UserAccountRoundTrip(a);
    UserAccountLength(a);
    var keys: seq<Bytes> := [NEW_KEY];
    assert keys[1..] == [] && KeysLength(keys) == 9;
    assert |a.wallet.balances| == 1;
    TxRoundTrip(Changing(), [key]);
  }

  lemma KeyedFits()
    ensures var a := UserAccount(Keyed(NEW_KEY), []); UserAccountFits(a) && UserAccountSmall(a)
  {
  }

  /** One key, one signature. */
  lemma KeyIsSignature(data: Bytes, key: Bytes, signature: Bytes, a: Account)
    requires a.wallet == Keyed(key)
    ensures CheckSignatures(Strictly(), data, [signature], a) == if key == signature then Done else Failed(TxSignature)
  {
    var ok := VerifierFor(Strictly(), TK_ED25519, data);
    var none := NoneUsed([key]);
    assert [signature][1..] == [];
    assert ok([key][0], signature) <==> key == signature;
    assert FirstFree(ok, [key], none, signature, 1) == None;
    assert FirstFree(ok, [key], none, signature, 0) == if key == signature then Some(0) else None;
    assert Greedy(ok, [key], none, [signature]) <==> key == signature by {
      assert [signature][0] == signature;
      if key == signature {
        assert Greedy(ok, [key], none[0 := true], []);
      }
    }
  }

  lemma UpdateCarriedOut(cx: Context)
    requires cx.codec == Strictly() && cx.config == Some(FREE.Config())
    ensures Handle(cx, Changing(), Two(), map[], 1, true).1.Done?
    ensures var after := Handle(cx, Changing(), Two(), map[], 1, true).0; USER in after && after[USER].wallet.publicKeys == [NEW_KEY]
  {
    hide Binary, CheckFee;
    ChangingReads(USERS_KEY);
    var tx := Changing();
    UpdateIff(cx, USER, 0, tx.meta, Two(), 1, true);
    FreeOfCharge(cx, TxUserUpdate(USER, 0, tx.meta, Window(0, 0, 0)));
  }

  lemma FreeOfCharge(cx: Context, tx: TypedTx)
    requires cx.config == Some(FREE.Config()) && tx.TxUserUpdate? && |tx.meta| <= 1000
    ensures CheckFee(cx, tx).Done?
  {
    hide Binary;
    FeeAcceptedIff(cx, tx, 0, 0);
  }

  /** In a block led by the reserve and in the reserve's mempool: the update passes with the user's key and not with the reserve's. */
  lemma OwnKeyOnly(l: Ledger, w: World, block: Block, v: View, overlay: Accounts)
    requires w.accounts == Two() && w.config == Some(FREE.Config()) && block.slotLeader == ID_RESERVE && block.index == 1
    requires v.codec == Strictly() && v.Committed() == Two()
    ensures ProcessRecord(Strictly(), l, w, SignedWith(LEADERS_KEY), block, true) == (w, Failed(TxSignature))
    ensures AddBuffer(v, ID_RESERVE, overlay, SignedWith(LEADERS_KEY)) == (overlay, Failed(TxSignature))
    ensures var (next, s) := ProcessRecord(Strictly(), l, w, SignedWith(USERS_KEY), block, true);
      s.Done? && USER in next.accounts && next.accounts[USER].wallet.publicKeys == [NEW_KEY]
    ensures ValidateTxSignatures(Strictly(), Two(), SignedWith(USERS_KEY), ID_RESERVE, true).Done?
  {
    hide Binary, CheckSignatures, Handle, SignedWith;
    ChangingReads(USERS_KEY);
    ChangingReads(LEADERS_KEY);
    KeyIsSignature(SignedWith(USERS_KEY).data, USERS_KEY, USERS_KEY, Two()[USER]);
    KeyIsSignature(SignedWith(LEADERS_KEY).data, USERS_KEY, LEADERS_KEY, Two()[USER]);
    UpdateCarriedOut(ContextOf(Strictly(), l, w));
  }
}
