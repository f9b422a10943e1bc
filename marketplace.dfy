/** The Marketplace v3 escrow contract: holders swap (escrow) editions of an
    FA2 token at a fixed price per edition, anyone collects one edition per
    call by paying that exact price, and the issuer may cancel to get the
    unsold editions back. A manager administers the fee, the fee recipient,
    the allowed FA2 contracts and a pause switch. */
module MarketplaceV3 {
  import opened Tezos
  import opened TokenLedger
  import opened Payout

  /** One entry of the `swaps` big map. Only `objktAmount` ever changes. */
  datatype SwapRecord = SwapRecord(
    issuer: Address,
    fa2: Address,
    objktId: TokenId,
    objktAmount: nat,
    xtzPerObjkt: Mutez,
    royalties: nat,
    creator: Address)

  datatype Error =
    | NotManager
    | TezAttached
    | SwapsPaused
    | FeeTooHigh
    | Fa2NotAllowed
    | NoSwappedEditions
    | RoyaltiesTooHigh
    | UnknownSwap
    | WrongTezAmount
    | SwapCollected
    | NotSwapIssuer
    | UnknownContract
    | TokenTransferFailed(reason: Fa2Error)

  /** Editions of token `t` on the FA2 contract at `fa2` that swap `id`
      still offers; 0 when there is no such swap. */
  function Held(swaps: map<nat, SwapRecord>, id: nat, fa2: Address, t: TokenId): nat {
    if id in swaps && swaps[id].fa2 == fa2 && swaps[id].objktId == t then swaps[id].objktAmount else 0
  }

  /** Editions of token `t` on `fa2` that the swaps with ids below `n` hold
      in escrow together. */
  function Escrowed(swaps: map<nat, SwapRecord>, fa2: Address, t: TokenId, n: nat): nat {
    if n == 0 then 0 else Escrowed(swaps, fa2, t, n - 1) + Held(swaps, n - 1, fa2, t)
  }

  /** Changing one swap `k` changes the escrowed total by exactly the
      change of that swap's editions, when `k` is counted at all. */
  lemma {:induction false} EscrowedFrame(s1: map<nat, SwapRecord>, s2: map<nat, SwapRecord>, k: nat,
                                         fa2: Address, t: TokenId, n: nat)
    requires forall i :: i != k ==> Held(s1, i, fa2, t) == Held(s2, i, fa2, t)
    ensures Escrowed(s2, fa2, t, n) + (if k < n then Held(s1, k, fa2, t) else 0)
         == Escrowed(s1, fa2, t, n) + (if k < n then Held(s2, k, fa2, t) else 0)
    decreases n
  {
    if n > 0 {
      EscrowedFrame(s1, s2, k, fa2, t, n - 1);
    }
  }

  /** One swap never offers more than the escrowed total it is part of. */
  lemma {:induction false} HeldWithinEscrowed(swaps: map<nat, SwapRecord>, k: nat, fa2: Address, t: TokenId, n: nat)
    requires k < n
    ensures Held(swaps, k, fa2, t) <= Escrowed(swaps, fa2, t, n)
    decreases n
  {
    if k < n - 1 {
      HeldWithinEscrowed(swaps, k, fa2, t, n - 1);
    }
  }

  /** `owner`'s balance on one FA2 ledger covers every token the swaps
      below `counter` hold in escrow on that contract. */
  ghost predicate Covers(swaps: map<nat, SwapRecord>, counter: nat, fa2: Address, ledger: Ledger, owner: Address) {
    forall t: TokenId {:trigger Escrowed(swaps, fa2, t, counter)} :: Escrowed(swaps, fa2, t, counter) <= Balance(ledger, owner, t)
  }

  /** Nobody is an operator of `owner`'s tokens. */
  ghost predicate NoOperatorsOf(ops: set<Operator>, owner: Address) {
    forall o :: o in ops ==> o.owner != owner
  }

  /** A transfer that `owner` did not send, and that the FA2 contract
      accepts, cannot take units from `owner` when `owner` has no operators;
      so it keeps `owner`'s escrow covered. */
  lemma TransferKeepsCover(swaps: map<nat, SwapRecord>, counter: nat, fa2: Address, ledger: Ledger,
                           ops: set<Operator>, owner: Address,
                           sender: Address, from: Address, to: Address, id: TokenId, amount: nat)
    requires Covers(swaps, counter, fa2, ledger, owner) && NoOperatorsOf(ops, owner) && sender != owner
    requires (sender == from || Operator(from, sender, id) in ops) && amount <= Balance(ledger, from, id)
    ensures from != owner
    ensures Covers(swaps, counter, fa2, Moved(ledger, from, to, id, amount), owner)
  {
  }

  /** Swap `k` gives `n` of its editions back out of escrow, as a sale (one
      edition, record kept) or a cancellation (all editions, record
      deleted) does, while the marketplace `owner` sends them on: the
      escrow stays covered on every contract. */
  lemma ReleaseKeepsCover(s0: map<nat, SwapRecord>, s1: map<nat, SwapRecord>, counter: nat, k: nat, n: nat,
                          fa2: Address, l0: Ledger, l1: Ledger, owner: Address, to: Address)
    requires Covers(s0, counter, fa2, l0, owner)
    requires k in s0 && k < counter && n <= s0[k].objktAmount
    requires || s1 == s0[k := s0[k].(objktAmount := s0[k].objktAmount - n)]
             || (s1 == s0 - {k} && n == s0[k].objktAmount)
    requires s0[k].fa2 == fa2 ==> n <= Balance(l0, owner, s0[k].objktId) && l1 == Moved(l0, owner, to, s0[k].objktId, n)
    requires s0[k].fa2 != fa2 ==> l1 == l0
    ensures Covers(s1, counter, fa2, l1, owner)
  {
    forall t: TokenId
      ensures Escrowed(s1, fa2, t, counter) <= Balance(l1, owner, t)
    {
      EscrowedFrame(s0, s1, k, fa2, t, counter);
    }
  }

  /** A new swap `counter` escrows `n` editions that its issuer, someone
      other than the marketplace `owner`, hands over: the escrow stays
      covered on every contract. */
  lemma EscrowKeepsCover(s0: map<nat, SwapRecord>, counter: nat, rec: SwapRecord,
                         fa2: Address, l0: Ledger, l1: Ledger, owner: Address)
    requires Covers(s0, counter, fa2, l0, owner)
    requires counter !in s0 && rec.issuer != owner
    requires rec.fa2 == fa2 ==>
      rec.objktAmount <= Balance(l0, rec.issuer, rec.objktId)
      && l1 == Moved(l0, rec.issuer, owner, rec.objktId, rec.objktAmount)
    requires rec.fa2 != fa2 ==> l1 == l0
    ensures Covers(s0[counter := rec], counter + 1, fa2, l1, owner)
  {
    forall t: TokenId
      ensures Escrowed(s0[counter := rec], fa2, t, counter + 1) <= Balance(l1, owner, t)
    {
      EscrowedFrame(s0, s0[counter := rec], counter, fa2, t, counter);
    }
  }

  /** Minting only adds units, so escrow stays covered. */
  lemma CreditKeepsCover(swaps: map<nat, SwapRecord>, counter: nat, fa2: Address, ledger: Ledger, owner: Address,
                         to: Address, id: TokenId, amount: nat)
    requires Covers(swaps, counter, fa2, ledger, owner)
    ensures Covers(swaps, counter, fa2, Credited(ledger, to, id, amount), owner)
  {
  }

  /** Operator updates sent by anyone but `owner` give nobody rights over
      `owner`'s tokens. */
  lemma UpdatesKeepNoOperators(ops: set<Operator>, us: seq<OperatorUpdate>, sender: Address, owner: Address)
    requires NoOperatorsOf(ops, owner) && AllOwnedBy(us, sender) && sender != owner
    ensures NoOperatorsOf(ApplyUpdates(ops, us), owner)
  {
    forall o | o in ApplyUpdates(ops, us)
      ensures o.owner != owner
    {
      if o.owner != sender {
        OthersUntouched(ops, us, sender, o);
      }
    }
  }

  /** The FA2 contracts deployed on chain, each under its own address; an
      address names at most one contract. */
  ghost predicate Registry(fa2s: map<Address, Fa2>) {
    forall a :: a in fa2s ==> fa2s[a].address == a
  }

  /** The contract deployed at `a`, if any. */
  function Contract(fa2s: map<Address, Fa2>, a: Address): set<Fa2> {
    if a in fa2s then {fa2s[a]} else {}
  }

  class Marketplace {
    /** The contract's own address, the escrow owner in every FA2 ledger. */
    const address: Address
    /** Largest fee `update_fee` accepts, in thousandths. */
    const maxFee: nat
    /** Largest royalty fraction `swap` accepts, in thousandths. */
    const maxRoyalties: nat

    var manager: Address
    var swaps: map<nat, SwapRecord>
    var counter: nat
    var fee: nat
    var feeRecipient: Address
    var paused: bool
    var allowedFa2s: map<Address, bool>
    /** The contract's tez balance. */
    var balance: Mutez

    /** Storage invariant: every swap id was allocated from `counter`, the
        royalty and fee fractions of a sale never exceed the whole price,
        and the contract holds no tez between calls. */
    ghost predicate Valid()
      reads this
    {
      && maxFee + maxRoyalties <= PerMille
      && fee <= maxFee
      && balance == 0
      && (forall id :: id in swaps ==> id < counter && swaps[id].royalties <= maxRoyalties)
    }

    constructor (address: Address, manager: Address, allowedFa2s: map<Address, bool>, fee: nat,
                 feeRecipient: Address, maxFee: nat, maxRoyalties: nat)
      requires fee <= maxFee && maxFee + maxRoyalties <= PerMille
      ensures Valid()
      ensures this.address == address && this.manager == manager && this.allowedFa2s == allowedFa2s
      ensures this.fee == fee && this.feeRecipient == feeRecipient
      ensures this.maxFee == maxFee && this.maxRoyalties == maxRoyalties
      ensures swaps == map[] && counter == 0 && !paused
    {
      this.address := address;
      this.maxFee := maxFee;
      this.maxRoyalties := maxRoyalties;
      this.manager := manager;
      this.allowedFa2s := allowedFa2s;
      this.fee := fee;
      this.feeRecipient := feeRecipient;
      swaps := map[];
      counter := 0;
      paused := false;
      balance := 0;
    }

    /** New swaps may be created on the FA2 contract at `fa2`. */
    predicate IsAllowed(fa2: Address)
      reads this
    {
      fa2 in allowedFa2s && allowedFa2s[fa2]
    }

    /** The escrow invariant over the FA2 contracts on chain: every swap
        names a deployed contract, the marketplace's balance of each token
        covers the editions its swaps still offer, and nobody is an
        operator of the marketplace's tokens. */
    ghost predicate EscrowCovers(fa2s: map<Address, Fa2>)
      reads this`swaps, this`counter, fa2s.Values`ledger, fa2s.Values`operators
    {
      && Registry(fa2s)
      && (forall id :: id in swaps ==> swaps[id].fa2 in fa2s)
      && (forall a :: a in fa2s ==>
            Covers(swaps, counter, a, fa2s[a].ledger, address) && NoOperatorsOf(fa2s[a].operators, address))
    }

    /** The FA2 contract that swap `swapId` escrows editions on, if any. */
    function SwapContract(fa2s: map<Address, Fa2>, swapId: nat): set<Fa2>
      reads this`swaps
    {
      if swapId in swaps then Contract(fa2s, swaps[swapId].fa2) else {}
    }

    /** `swap`: escrows `objktAmount` editions of `objktId` held by `sender`
        on the FA2 contract at `fa2` and records the offer under the next
        id. The marketplace must be an operator of the sender's token for
        the escrow transfer. The marketplace never calls its own entry
        points, so `sender` is another account. */
    method Swap(sender: Address, amount: Mutez, fa2s: map<Address, Fa2>, fa2: Address, objktId: TokenId,
                objktAmount: nat, xtzPerObjkt: Mutez, royalties: nat, creator: Address) returns (r: Outcome<Error>)
      requires Valid() && EscrowCovers(fa2s) && sender != address
      modifies this`swaps, this`counter, Contract(fa2s, fa2)`ledger
      ensures Valid() && EscrowCovers(fa2s)
      ensures r.Ok? <==>
        && !paused
        && amount == 0
        && IsAllowed(fa2)
        && objktAmount > 0
        && royalties <= maxRoyalties
        && fa2 in fa2s
        && old(fa2s[fa2].CanTransfer(address, sender, objktId, objktAmount))
      ensures r.Ok? ==>
        && old(counter) !in old(swaps)
        && swaps == old(swaps)[old(counter) :=
             SwapRecord(sender, fa2, objktId, objktAmount, xtzPerObjkt, royalties, creator)]
        && counter == old(counter) + 1
        && fa2s[fa2].ledger == Moved(old(fa2s[fa2].ledger), sender, address, objktId, objktAmount)
      ensures r.Fail? ==>
        && swaps == old(swaps) && counter == old(counter)
        && (fa2 in fa2s ==> fa2s[fa2].ledger == old(fa2s[fa2].ledger))
    {
      if paused {
        return Fail(SwapsPaused);
      }
      if amount != 0 {
        return Fail(TezAttached);
      }
      if !IsAllowed(fa2) {
        return Fail(Fa2NotAllowed);
      }
      if objktAmount == 0 {
        return Fail(NoSwappedEditions);
      }
      if royalties > maxRoyalties {
        return Fail(RoyaltiesTooHigh);
      }
      if fa2 !in fa2s {
        return Fail(UnknownContract);
      }
      ghost var before := swaps;
      var t := fa2s[fa2].Transfer(address, sender, address, objktId, objktAmount);
      if t.Fail? {
        return Fail(TokenTransferFailed(t.error));
      }
      swaps := swaps[counter := SwapRecord(sender, fa2, objktId, objktAmount, xtzPerObjkt, royalties, creator)];
      counter := counter + 1;
      r := Ok;
      forall a | a in fa2s
        ensures Covers(swaps, counter, a, fa2s[a].ledger, address)
      {
        assert a != fa2 ==> fa2s[a].address != fa2s[fa2].address;
        EscrowKeepsCover(before, counter - 1, swaps[counter - 1], a, old(fa2s[a].ledger), fa2s[a].ledger, address);
      }
    }

    /** `collect`: sells one edition of swap `swapId` to `sender` for exactly
        its price, which is forwarded at once to the creator (royalty), the
        fee recipient (fee) and the issuer (the rest). The escrow invariant
        guarantees that the edition is there to be sent. */
    method Collect(sender: Address, amount: Mutez, swapId: nat, fa2s: map<Address, Fa2>)
      returns (r: Outcome<Error>, payments: seq<Payment>)
      requires Valid() && EscrowCovers(fa2s)
      modifies this`swaps, this`balance, SwapContract(fa2s, swapId)`ledger
      ensures Valid() && EscrowCovers(fa2s)
      ensures r.Ok? <==>
        && !paused
        && swapId in old(swaps)
        && amount == old(swaps)[swapId].xtzPerObjkt
        && old(swaps)[swapId].objktAmount > 0
      ensures r.Ok? ==>
        var s := old(swaps)[swapId];
        && swaps == old(swaps)[swapId := s.(objktAmount := s.objktAmount - 1)]
        && 1 <= old(Balance(fa2s[s.fa2].ledger, address, s.objktId))
        && fa2s[s.fa2].ledger == Moved(old(fa2s[s.fa2].ledger), address, sender, s.objktId, 1)
        && s.royalties + fee <= PerMille
        && payments == Payouts(amount, s.royalties, fee, s.creator, feeRecipient, s.issuer)
        && Sum(payments) == amount
      ensures r.Fail? ==>
        && swaps == old(swaps) && payments == []
        && forall a :: a in fa2s ==> fa2s[a].ledger == old(fa2s[a].ledger)
    {
      payments := [];
      if paused {
        return Fail(SwapsPaused), payments;
      }
      if swapId !in swaps {
        return Fail(UnknownSwap), payments;
      }
      var s := swaps[swapId];
      if amount != s.xtzPerObjkt {
        return Fail(WrongTezAmount), payments;
      }
      if s.objktAmount == 0 {
        return Fail(SwapCollected), payments;
      }
      SendEdition(swapId, sender, fa2s);
      balance := balance + amount;
      payments := Payouts(amount, s.royalties, fee, s.creator, feeRecipient, s.issuer);
      balance := balance - Sum(payments);
      r := Ok;
    }

    /** The token side of a sale: one edition of swap `swapId` leaves escrow
        for `to`, which the escrow invariant guarantees is possible. */
    method SendEdition(swapId: nat, to: Address, fa2s: map<Address, Fa2>)
      requires Valid() && EscrowCovers(fa2s)
      requires swapId in swaps && swaps[swapId].objktAmount > 0
      modifies this`swaps, SwapContract(fa2s, swapId)`ledger
      ensures Valid() && EscrowCovers(fa2s)
      ensures
        var s := old(swaps)[swapId];
        && swaps == old(swaps)[swapId := s.(objktAmount := s.objktAmount - 1)]
        && 1 <= old(Balance(fa2s[s.fa2].ledger, address, s.objktId))
        && fa2s[s.fa2].ledger == Moved(old(fa2s[s.fa2].ledger), address, to, s.objktId, 1)
    {
      var s := swaps[swapId];
      ghost var before := swaps;
      HeldWithinEscrowed(swaps, swapId, s.fa2, s.objktId, counter);
      var t := fa2s[s.fa2].Transfer(address, address, to, s.objktId, 1);
      assert t.Ok?;
      swaps := swaps[swapId := s.(objktAmount := s.objktAmount - 1)];
      forall a | a in fa2s
        ensures Covers(swaps, counter, a, fa2s[a].ledger, address)
      {
        assert a != s.fa2 ==> fa2s[a].address != fa2s[s.fa2].address;
        ReleaseKeepsCover(before, swaps, counter, swapId, 1, a, old(fa2s[a].ledger), fa2s[a].ledger, address, to);
      }
    }

    /** `cancel_swap`: the issuer takes back the unsold editions of swap
        `swapId` and the record is deleted; the id is not reused. The escrow
        invariant guarantees that the editions are there to be returned. */
    method CancelSwap(sender: Address, amount: Mutez, swapId: nat, fa2s: map<Address, Fa2>) returns (r: Outcome<Error>)
      requires Valid() && EscrowCovers(fa2s)
      modifies this`swaps, SwapContract(fa2s, swapId)`ledger
      ensures Valid() && EscrowCovers(fa2s)
      ensures r.Ok? <==>
        && amount == 0
        && swapId in old(swaps)
        && sender == old(swaps)[swapId].issuer
      ensures r.Ok? ==>
        var s := old(swaps)[swapId];
        && swaps == old(swaps) - {swapId}
        && s.objktAmount <= old(Balance(fa2s[s.fa2].ledger, address, s.objktId))
        && fa2s[s.fa2].ledger == Moved(old(fa2s[s.fa2].ledger), address, s.issuer, s.objktId, s.objktAmount)
      ensures r.Fail? ==>
        && swaps == old(swaps)
        && forall a :: a in fa2s ==> fa2s[a].ledger == old(fa2s[a].ledger)
    {
      if amount != 0 {
        return Fail(TezAttached);
      }
      if swapId !in swaps {
        return Fail(UnknownSwap);
      }
      var s := swaps[swapId];
      if sender != s.issuer {
        return Fail(NotSwapIssuer);
      }
      ghost var before := swaps;
      HeldWithinEscrowed(swaps, swapId, s.fa2, s.objktId, counter);
      var t := fa2s[s.fa2].Transfer(address, address, s.issuer, s.objktId, s.objktAmount);
      assert t.Ok?;
      swaps := swaps - {swapId};
      r := Ok;
      forall a | a in fa2s
        ensures Covers(swaps, counter, a, fa2s[a].ledger, address)
      {
        assert a != s.fa2 ==> fa2s[a].address != fa2s[s.fa2].address;
        ReleaseKeepsCover(before, swaps, counter, swapId, s.objktAmount, a, old(fa2s[a].ledger), fa2s[a].ledger,
                          address, s.issuer);
      }
    }

    /** The common guard of the administrative entry points. */
    method CheckManager(sender: Address, amount: Mutez) returns (r: Outcome<Error>)
      ensures r.Ok? <==> sender == manager && amount == 0
    {
      if sender != manager {
        return Fail(NotManager);
      }
      if amount != 0 {
        return Fail(TezAttached);
      }
      r := Ok;
    }

    /** `update_fee`, bounded by `maxFee`. */
    method UpdateFee(sender: Address, amount: Mutez, newFee: nat) returns (r: Outcome<Error>)
      requires Valid()
      modifies this`fee
      ensures Valid()
      ensures r.Ok? <==> sender == manager && amount == 0 && newFee <= maxFee
      ensures fee == if r.Ok? then newFee else old(fee)
    {
      r := CheckManager(sender, amount);
      if r.Fail? {
        return;
      }
      if newFee > maxFee {
        return Fail(FeeTooHigh);
      }
      fee := newFee;
    }

    /** `update_fee_recipient`. */
    method UpdateFeeRecipient(sender: Address, amount: Mutez, newRecipient: Address) returns (r: Outcome<Error>)
      requires Valid()
      modifies this`feeRecipient
      ensures Valid()
      ensures r.Ok? <==> sender == manager && amount == 0
      ensures feeRecipient == if r.Ok? then newRecipient else old(feeRecipient)
    {
      r := CheckManager(sender, amount);
      if r.Ok? {
        feeRecipient := newRecipient;
      }
    }

    /** `update_manager`: hands the administration over in one call. */
    method UpdateManager(sender: Address, amount: Mutez, newManager: Address) returns (r: Outcome<Error>)
      requires Valid()
      modifies this`manager
      ensures Valid()
      ensures r.Ok? <==> sender == old(manager) && amount == 0
      ensures manager == if r.Ok? then newManager else old(manager)
    {
      r := CheckManager(sender, amount);
      if r.Ok? {
        manager := newManager;
      }
    }

    /** `add_fa2`: allows new swaps on the FA2 contract at `fa2`. */
    method AddFa2(sender: Address, amount: Mutez, fa2: Address) returns (r: Outcome<Error>)
      requires Valid()
      modifies this`allowedFa2s
      ensures Valid()
      ensures r.Ok? <==> sender == manager && amount == 0
      ensures allowedFa2s == if r.Ok? then old(allowedFa2s)[fa2 := true] else old(allowedFa2s)
    {
      r := CheckManager(sender, amount);
      if r.Ok? {
        allowedFa2s := allowedFa2s[fa2 := true];
      }
    }

    /** `remove_fa2`: forbids new swaps on `fa2`; the entry stays, set to false. */
    method RemoveFa2(sender: Address, amount: Mutez, fa2: Address) returns (r: Outcome<Error>)
      requires Valid()
      modifies this`allowedFa2s
      ensures Valid()
      ensures r.Ok? <==> sender == manager && amount == 0
      ensures allowedFa2s == if r.Ok? then old(allowedFa2s)[fa2 := false] else old(allowedFa2s)
    {
      r := CheckManager(sender, amount);
      if r.Ok? {
        allowedFa2s := allowedFa2s[fa2 := false];
      }
    }

    /** `set_pause`: while paused, `swap` and `collect` fail. */
    method SetPause(sender: Address, amount: Mutez, pause: bool) returns (r: Outcome<Error>)
      requires Valid()
      modifies this`paused
      ensures Valid()
      ensures r.Ok? <==> sender == manager && amount == 0
      ensures paused == if r.Ok? then pause else old(paused)
    {
      r := CheckManager(sender, amount);
      if r.Ok? {
        paused := pause;
      }
    }
  }

  /** Removing a key just added to a map that lacked it gives the map back. */
  lemma AddedThenRemoved(m: map<nat, SwapRecord>, k: nat, v: SwapRecord)
    requires k !in m
    ensures m[k := v] - {k} == m
  {
  }

  /** A listing withdrawn at once: `swap` followed by the issuer's
      `cancel_swap` of the new id. When the swap is accepted the cancel is
      too; the swaps are then as before, the id stays used up, and every
      balance on the FA2 contract is restored. */
  method SwapThenCancel(mp: Marketplace, fa2s: map<Address, Fa2>, sender: Address, fa2: Address,
                        objktId: TokenId, objktAmount: nat, xtzPerObjkt: Mutez, royalties: nat, creator: Address)
    returns (listed: Outcome<Error>, cancelled: Outcome<Error>)
    requires mp.Valid() && mp.EscrowCovers(fa2s) && sender != mp.address
    modifies mp`swaps, mp`counter, Contract(fa2s, fa2)`ledger
    ensures mp.Valid() && mp.EscrowCovers(fa2s)
    ensures listed.Ok? ==> cancelled.Ok?
    ensures mp.swaps == old(mp.swaps)
    ensures mp.counter == if listed.Ok? then old(mp.counter) + 1 else old(mp.counter)
    ensures fa2 in fa2s ==>
      forall owner: Address, t: TokenId :: Balance(fa2s[fa2].ledger, owner, t) == Balance(old(fa2s[fa2].ledger), owner, t)
  {
    listed := mp.Swap(sender, 0, fa2s, fa2, objktId, objktAmount, xtzPerObjkt, royalties, creator);
    if listed.Fail? {
      return listed, listed;
    }
    var id := mp.counter - 1;
    ghost var listing := mp.swaps[id];
    cancelled := mp.CancelSwap(sender, 0, id, fa2s);
    AddedThenRemoved(old(mp.swaps), id, listing);
    MovedBack(old(fa2s[fa2].ledger), sender, mp.address, objktId, objktAmount);
  }
}
