/** Matching the signatures of a record to the public keys of a wallet: each signature takes the first key that is
    still free and verifies it. */
module TxSignatures {
  import opened Numbers
  import opened Outcomes
  import opened ChainTypes

  /** Whether `key` verifies `signature` for the message at hand. */
  type Verifier = (Bytes, Bytes) -> bool

  function FirstFree(ok: Verifier, keys: seq<Bytes>, used: seq<bool>, signature: Bytes, start: nat): (r: Option<nat>)
    requires |used| == |keys| && start <= |keys|
    ensures r.Some? ==> start <= r.value < |keys| && !used[r.value] && ok(keys[r.value], signature)
    ensures r.None? ==> forall i | start <= i < |keys| :: !used[i] ==> !ok(keys[i], signature)
    decreases |keys| - start
  {
    if start == |keys| then None
    else if !used[start] && ok(keys[start], signature) then Some(start)
    else FirstFree(ok, keys, used, signature, start + 1)
  }

  predicate Greedy(ok: Verifier, keys: seq<Bytes>, used: seq<bool>, signatures: seq<Bytes>)
    requires |used| == |keys|
    decreases |signatures|
  {
    signatures == [] ||
    var i := FirstFree(ok, keys, used, signatures[0], 0);
    i.Some? && Greedy(ok, keys, used[i.value := true], signatures[1..])
  }

  function NoneUsed(keys: seq<Bytes>): (r: seq<bool>)
    ensures |r| == |keys| && forall i | 0 <= i < |r| :: !r[i]
  {
    seq(|keys|, _ => false)
  }

  function VerifierFor(codec: Codec, keyType: nat, message: Bytes): Verifier {
    (key, signature) => codec.verify(keyType, key, message, signature)
  }

  function CheckSignatures(codec: Codec, message: Bytes, signatures: seq<Bytes>, account: Account): Status {
    var w := account.wallet;
    if |signatures| < w.minSignatures then Failed(TxSignature)
    else if Greedy(VerifierFor(codec, w.keyType, message), w.publicKeys, NoneUsed(w.publicKeys), signatures) then Done
    else Failed(TxSignature)
  }

  method VerifySignaturesAgainstAccount(codec: Codec, message: Bytes, signatures: seq<Bytes>, account: Account)
    returns (s: Status)
    ensures s == CheckSignatures(codec, message, signatures, account)
  {
    if |signatures| < account.wallet.minSignatures {
      return Failed(TxSignature);
    }
    var keys := account.wallet.publicKeys;
    ghost var ok := VerifierFor(codec, account.wallet.keyType, message);
    var keyUsed := NoneUsed(keys);
    var j := 0;
    while j < |signatures|
      invariant 0 <= j <= |signatures| && |keyUsed| == |keys|
      invariant Greedy(ok, keys, NoneUsed(keys), signatures) == Greedy(ok, keys, keyUsed, signatures[j..])
    {
      var matched := false;
      var i := 0;
      while i < |keys| && !matched
        invariant 0 <= i <= |keys|
        invariant !matched ==> FirstFree(ok, keys, keyUsed, signatures[j], 0) == FirstFree(ok, keys, keyUsed, signatures[j], i)
        invariant matched ==> i < |keys| && FirstFree(ok, keys, keyUsed, signatures[j], 0) == Some(i)
        decreases |keys| - i, !matched
      {
        if !keyUsed[i] && codec.verify(account.wallet.keyType, keys[i], message, signatures[j]) {
          matched := true;
        } else {
          i := i + 1;
        }
      }
      if !matched {
        return Failed(TxSignature);
      }
      keyUsed := keyUsed[i := true];
      j := j + 1;
    }
    return Done;
  }

  /** Signature `j` is assigned the key position `m[j]`; positions are free and pairwise different. */
  ghost predicate Matches(ok: Verifier, keys: seq<Bytes>, used: seq<bool>, signatures: seq<Bytes>, m: seq<nat>)
    requires |used| == |keys|
  {
    && |m| == |signatures|
    && (forall j | 0 <= j < |m| :: m[j] < |keys| && !used[m[j]] && ok(keys[m[j]], signatures[j]))
    && (forall j, k | 0 <= j < k < |m| :: m[j] != m[k])
  }

  ghost predicate Matchable(ok: Verifier, keys: seq<Bytes>, signatures: seq<Bytes>) {
    exists m: seq<nat> :: Matches(ok, keys, NoneUsed(keys), signatures, m)
  }

  /** A signature verifies under at most one key value, although that value may be listed several times. */
  ghost predicate OneKeyEach(ok: Verifier, keys: seq<Bytes>, signatures: seq<Bytes>) {
    forall s, i, j | s in signatures && 0 <= i < |keys| && 0 <= j < |keys| ::
      ok(keys[i], s) && ok(keys[j], s) ==> keys[i] == keys[j]
  }

  lemma {:induction false} GreedySound(ok: Verifier, keys: seq<Bytes>, used: seq<bool>, signatures: seq<Bytes>) returns (m: seq<nat>)
    requires |used| == |keys| && Greedy(ok, keys, used, signatures)
    ensures Matches(ok, keys, used, signatures, m)
    decreases |signatures|
  {
    if signatures == [] {
      m := [];
    } else {
      var i := FirstFree(ok, keys, used, signatures[0], 0).value;
      var rest := GreedySound(ok, keys, used[i := true], signatures[1..]);
      m := [i] + rest;
    }
  }

  /** The exchange step: whoever was assigned the position that the first signature takes gets the first
      signature's own position instead, which holds the same key. */
  lemma Exchange(ok: Verifier, keys: seq<Bytes>, used: seq<bool>, signatures: seq<Bytes>, m: seq<nat>, i: nat)
    returns (n: seq<nat>)
    requires |used| == |keys| && signatures != [] && i < |keys| && !used[i] && ok(keys[i], signatures[0])
    requires OneKeyEach(ok, keys, signatures) && Matches(ok, keys, used, signatures, m)
    ensures Matches(ok, keys, used[i := true], signatures[1..], n)
  {
    assert signatures[0] in signatures;
    assert keys[m[0]] == keys[i];
    n := seq(|m| - 1, j requires 0 <= j < |m| - 1 => if m[j + 1] == i then m[0] else m[j + 1]);
  }

  lemma {:induction false} GreedyComplete(ok: Verifier, keys: seq<Bytes>, used: seq<bool>, signatures: seq<Bytes>, m: seq<nat>)
    requires |used| == |keys| && OneKeyEach(ok, keys, signatures) && Matches(ok, keys, used, signatures, m)
    ensures Greedy(ok, keys, used, signatures)
    decreases |signatures|
  {
    if signatures != [] {
      assert !used[m[0]] && ok(keys[m[0]], signatures[0]);
      var i := FirstFree(ok, keys, used, signatures[0], 0).value;
      var n := Exchange(ok, keys, used, signatures, m, i);
      assert forall s | s in signatures[1..] :: s in signatures;
      GreedyComplete(ok, keys, used[i := true], signatures[1..], n);
    }
  }

  /** The greedy loop accepts exactly the signature lists that are long enough and can be matched one to one
      with keys that verify them, provided no signature verifies under two different keys. */
  lemma SignaturesAcceptedIff(codec: Codec, message: Bytes, signatures: seq<Bytes>, account: Account)
    requires OneKeyEach(VerifierFor(codec, account.wallet.keyType, message), account.wallet.publicKeys, signatures)
    ensures CheckSignatures(codec, message, signatures, account).Done? <==>
      && |signatures| >= account.wallet.minSignatures
      && Matchable(VerifierFor(codec, account.wallet.keyType, message), account.wallet.publicKeys, signatures)
  {
    var ok := VerifierFor(codec, account.wallet.keyType, message);
    var keys := account.wallet.publicKeys;
    if Greedy(ok, keys, NoneUsed(keys), signatures) {
      var m := GreedySound(ok, keys, NoneUsed(keys), signatures);
    }
    if Matchable(ok, keys, signatures) {
      var m: seq<nat> :| Matches(ok, keys, NoneUsed(keys), signatures, m);
      GreedyComplete(ok, keys, NoneUsed(keys), signatures, m);
    }
  }

  /** Acceptance alone, with no assumption on the verifier, already gives the one-to-one matching. */
  lemma AcceptedSignaturesMatch(codec: Codec, message: Bytes, signatures: seq<Bytes>, account: Account) returns (m: seq<nat>)
    requires CheckSignatures(codec, message, signatures, account).Done?
    ensures |signatures| >= account.wallet.minSignatures
    ensures Matches(VerifierFor(codec, account.wallet.keyType, message), account.wallet.publicKeys,
                    NoneUsed(account.wallet.publicKeys), signatures, m)
  {
    m := GreedySound(VerifierFor(codec, account.wallet.keyType, message), account.wallet.publicKeys,
                     NoneUsed(account.wallet.publicKeys), signatures);
  }
}
