/** The Marketplace v3 test scenarios, each replayed call by call against
    the model. A call the scenario expects to be rejected is asserted to
    fail, and every check the scenario makes on storage or on a ledger is
    asserted afterwards. Each scenario holds for every admissible choice of
    the fee and royalty bounds. */
module Scenarios {
  import opened Tezos
  import opened TokenLedger
  import opened Payout
  import opened MinterV1
  import opened MarketplaceV3

  const Admin: Address := "admin"
  const Artist1: Address := "artist1"
  const Artist2: Address := "artist2"
  const Collector1: Address := "collector1"
  const Collector2: Address := "collector2"
  const ObjktAddress: Address := "objkt"
  const NewObjktAddress: Address := "newobjkt"
  const MarketplaceV1Address: Address := "marketplaceV1"
  const MarketplaceV3Address: Address := "marketplaceV3"

  /** One tez, in mutez. */
  const Tez: Mutez := 1000000

  /** Bounds consistent with the scenarios: a fee of 100 and royalties of
      100 are accepted, and a fee of 1000 is not. */
  predicate Admissible(maxFee: nat, maxRoyalties: nat) {
    100 <= maxFee && 100 <= maxRoyalties && maxFee + maxRoyalties <= PerMille
  }

  /** The deployed contracts every scenario starts from: the OBJKT and
      new OBJKT FA2 contracts, the V1 minter (made administrator of OBJKT)
      and Marketplace v3 with OBJKT allowed and a fee of 25. */
  method Environment(maxFee: nat, maxRoyalties: nat)
    returns (objkt: Fa2, newObjkt: Fa2, fa2s: map<Address, Fa2>, v1: Minter, mp: Marketplace)
    requires Admissible(maxFee, maxRoyalties)
    ensures fresh(objkt) && fresh(newObjkt) && fresh(v1) && fresh(mp) && OnChain(fa2s, objkt, newObjkt, mp)
    ensures objkt.administrator == MarketplaceV1Address
    ensures objkt.ledger == map[] && objkt.operators == {}
    ensures newObjkt.administrator == Admin && newObjkt.ledger == map[] && newObjkt.operators == {}
    ensures v1.address == MarketplaceV1Address && v1.objkt == objkt && v1.objktId == GenesisObjktId
    ensures mp.Valid() && mp.maxFee == maxFee && mp.maxRoyalties == maxRoyalties
    ensures mp.manager == Admin && mp.fee == 25 && mp.feeRecipient == Admin
    ensures mp.allowedFa2s == map[ObjktAddress := true]
    ensures mp.swaps == map[] && mp.counter == 0 && !mp.paused && mp.balance == 0
    ensures mp.EscrowCovers(fa2s)
  {
    objkt := new Fa2(ObjktAddress, Admin);
    newObjkt := new Fa2(NewObjktAddress, Admin);
    v1 := new Minter(MarketplaceV1Address, objkt);
    mp := new Marketplace(MarketplaceV3Address, Admin, map[ObjktAddress := true], 25, Admin, maxFee, maxRoyalties);
    var r := objkt.SetAdministrator(Admin, MarketplaceV1Address);
    assert r.Ok?;
    fa2s := map[ObjktAddress := objkt, NewObjktAddress := newObjkt];
  }

  /** The operator update that lets Marketplace v3 move `owner`'s units of `id`. */
  function AddMarketplace(owner: Address, id: TokenId): seq<OperatorUpdate> {
    [AddOperator(Operator(owner, MarketplaceV3Address, id))]
  }

  /** The contracts on chain: OBJKT and new OBJKT, registered at their
      addresses, and Marketplace v3 at its own. */
  predicate OnChain(fa2s: map<Address, Fa2>, objkt: Fa2, newObjkt: Fa2, mp: Marketplace) {
    && objkt.address == ObjktAddress && newObjkt.address == NewObjktAddress
    && mp.address == MarketplaceV3Address
    && ObjktAddress in fa2s && fa2s[ObjktAddress] == objkt
    && NewObjktAddress in fa2s && fa2s[NewObjktAddress] == newObjkt
  }

  /** The common opening of the trading scenarios: artist1 mints 100
      editions of OBJKT #152 through V1 and makes Marketplace v3 an operator
      of them. */
  method MintedEnvironment(maxFee: nat, maxRoyalties: nat)
    returns (objkt: Fa2, newObjkt: Fa2, fa2s: map<Address, Fa2>, v1: Minter, mp: Marketplace)
    requires Admissible(maxFee, maxRoyalties)
    ensures fresh(objkt) && fresh(newObjkt) && fresh(v1) && fresh(mp) && OnChain(fa2s, objkt, newObjkt, mp)
    ensures objkt.ledger == map[(Artist1, 152) := 100]
    ensures objkt.operators == {Operator(Artist1, MarketplaceV3Address, 152)}
    ensures mp.Valid() && mp.manager == Admin && mp.maxRoyalties == maxRoyalties
    ensures !mp.paused && mp.allowedFa2s == map[ObjktAddress := true]
    ensures mp.swaps == map[] && mp.counter == 0 && mp.EscrowCovers(fa2s)
  {
    objkt, newObjkt, fa2s, v1, mp := Environment(maxFee, maxRoyalties);
    assert v1.objktId == 152;
    var m := v1.MintObjkt(Artist1, Artist1, 100, 100);
    assert m.Ok? && v1.objktId == 153;
    var u := objkt.UpdateOperators(Artist1, AddMarketplace(Artist1, 152));
    assert u.Ok?;
  }

  /** Artist1 swaps `editions` of its 100 editions of #152 at `price` mutez
      each; the swap gets id 0. */
  method Listed(objkt: Fa2, newObjkt: Fa2, fa2s: map<Address, Fa2>, mp: Marketplace, editions: nat, price: Mutez)
    requires OnChain(fa2s, objkt, newObjkt, mp) && mp.Valid() && mp.EscrowCovers(fa2s)
    requires !mp.paused && mp.allowedFa2s == map[ObjktAddress := true]
    requires 100 <= mp.maxRoyalties && mp.swaps == map[] && mp.counter == 0
    requires objkt.ledger == map[(Artist1, 152) := 100]
    requires Operator(Artist1, MarketplaceV3Address, 152) in objkt.operators
    requires 0 < editions <= 100
    modifies mp`swaps, mp`counter, objkt`ledger
    ensures mp.Valid() && mp.EscrowCovers(fa2s)
    ensures mp.counter == 1 && 0 in mp.swaps
    ensures mp.swaps[0] == SwapRecord(Artist1, ObjktAddress, 152, editions, price, 100, Artist1)
    ensures Balance(objkt.ledger, Artist1, 152) == 100 - editions
    ensures Balance(objkt.ledger, MarketplaceV3Address, 152) == editions
    ensures Balance(objkt.ledger, Collector1, 152) == 0 && Balance(objkt.ledger, Collector2, 152) == 0
  {
    var r := mp.Swap(Artist1, 0, fa2s, ObjktAddress, 152, editions, price, 100, Artist1);
    assert r.Ok?;
  }

  // ---------------------------------------------------------------------
  // "Test swap and collect"

  /** A swap with tez attached fails and changes nothing. */
  method SwapAndCollectTezRefused(objkt: Fa2, newObjkt: Fa2, fa2s: map<Address, Fa2>, mp: Marketplace)
    requires OnChain(fa2s, objkt, newObjkt, mp) && mp.Valid() && mp.EscrowCovers(fa2s)
    modifies mp`swaps, mp`counter, objkt`ledger
    ensures mp.Valid() && mp.EscrowCovers(fa2s)
    ensures mp.swaps == old(mp.swaps) && mp.counter == old(mp.counter) && objkt.ledger == old(objkt.ledger)
  {
    var r := mp.Swap(Artist1, 3 * Tez, fa2s, ObjktAddress, 152, 50, Tez, 100, Artist1);
    assert r.Fail?;
  }

  /** Collecting with one mutez too few or too many fails and changes nothing. */
  method SwapAndCollectWrongPrice(objkt: Fa2, newObjkt: Fa2, fa2s: map<Address, Fa2>, mp: Marketplace)
    requires OnChain(fa2s, objkt, newObjkt, mp) && mp.Valid() && mp.EscrowCovers(fa2s)
    requires 0 in mp.swaps && mp.swaps[0] == SwapRecord(Artist1, ObjktAddress, 152, 50, Tez, 100, Artist1)
    modifies mp`swaps, mp`balance, objkt`ledger
    ensures mp.Valid() && mp.EscrowCovers(fa2s)
    ensures mp.swaps == old(mp.swaps) && objkt.ledger == old(objkt.ledger)
  {
    var c, paid := mp.Collect(Collector1, Tez - 1, 0, fa2s);
    assert c.Fail?;
    c, paid := mp.Collect(Collector1, Tez + 1, 0, fa2s);
    assert c.Fail?;
  }

  /** Paying the price exactly hands the first collector one edition; the
      marketplace keeps no tez. */
  method SwapAndCollectFirstSale(objkt: Fa2, newObjkt: Fa2, fa2s: map<Address, Fa2>, mp: Marketplace)
    requires OnChain(fa2s, objkt, newObjkt, mp) && mp.Valid() && mp.EscrowCovers(fa2s) && !mp.paused
    requires 0 in mp.swaps && mp.swaps[0] == SwapRecord(Artist1, ObjktAddress, 152, 50, Tez, 100, Artist1)
    requires Balance(objkt.ledger, Artist1, 152) == 50 && Balance(objkt.ledger, MarketplaceV3Address, 152) == 50
    requires Balance(objkt.ledger, Collector1, 152) == 0 && Balance(objkt.ledger, Collector2, 152) == 0
    modifies mp`swaps, mp`balance, objkt`ledger
    ensures mp.Valid() && mp.EscrowCovers(fa2s)
    ensures 0 in mp.swaps && mp.swaps[0] == SwapRecord(Artist1, ObjktAddress, 152, 49, Tez, 100, Artist1)
    ensures Balance(objkt.ledger, Artist1, 152) == 50 && Balance(objkt.ledger, MarketplaceV3Address, 152) == 49
    ensures Balance(objkt.ledger, Collector1, 152) == 1 && Balance(objkt.ledger, Collector2, 152) == 0
  {
    var c, paid := mp.Collect(Collector1, Tez, 0, fa2s);
    assert c.Ok? && Sum(paid) == Tez;
    assert mp.balance == 0;
  }

  /** A second collector buys another edition. */
  method SwapAndCollectSecondSale(objkt: Fa2, newObjkt: Fa2, fa2s: map<Address, Fa2>, mp: Marketplace)
    requires OnChain(fa2s, objkt, newObjkt, mp) && mp.Valid() && mp.EscrowCovers(fa2s) && !mp.paused
    requires 0 in mp.swaps && mp.swaps[0] == SwapRecord(Artist1, ObjktAddress, 152, 49, Tez, 100, Artist1)
    requires Balance(objkt.ledger, Artist1, 152) == 50 && Balance(objkt.ledger, MarketplaceV3Address, 152) == 49
    requires Balance(objkt.ledger, Collector1, 152) == 1 && Balance(objkt.ledger, Collector2, 152) == 0
    modifies mp`swaps, mp`balance, objkt`ledger
    ensures mp.Valid() && mp.EscrowCovers(fa2s)
    ensures 0 in mp.swaps && mp.swaps[0] == SwapRecord(Artist1, ObjktAddress, 152, 48, Tez, 100, Artist1)
    ensures Balance(objkt.ledger, Artist1, 152) == 50 && Balance(objkt.ledger, MarketplaceV3Address, 152) == 48
    ensures Balance(objkt.ledger, Collector1, 152) == 1 && Balance(objkt.ledger, Collector2, 152) == 1
  {
    var c, paid := mp.Collect(Collector2, Tez, 0, fa2s);
    assert c.Ok? && Sum(paid) == Tez;
    assert mp.balance == 0;
    assert mp.swaps[0].objktAmount == 50 - 2;
  }

  /** Only the issuer, with no tez attached, can cancel; the unsold
      editions return to it, the record is gone and a second cancel fails. */
  method SwapAndCollectCancel(objkt: Fa2, newObjkt: Fa2, fa2s: map<Address, Fa2>, mp: Marketplace)
    requires OnChain(fa2s, objkt, newObjkt, mp) && mp.Valid() && mp.EscrowCovers(fa2s)
    requires 0 in mp.swaps && mp.swaps[0] == SwapRecord(Artist1, ObjktAddress, 152, 48, Tez, 100, Artist1)
    requires Balance(objkt.ledger, Artist1, 152) == 50 && Balance(objkt.ledger, MarketplaceV3Address, 152) == 48
    requires Balance(objkt.ledger, Collector1, 152) == 1 && Balance(objkt.ledger, Collector2, 152) == 1
    modifies mp`swaps, objkt`ledger
  {
    var r := mp.CancelSwap(Collector1, 0, 0, fa2s);
    assert r.Fail?;
    r := mp.CancelSwap(Artist1, 3 * Tez, 0, fa2s);
    assert r.Fail?;
    r := mp.CancelSwap(Artist1, 0, 0, fa2s);
    assert r.Ok?;
    assert Balance(objkt.ledger, Artist1, 152) == 100 - 2;
    assert Balance(objkt.ledger, MarketplaceV3Address, 152) == 0;
    assert Balance(objkt.ledger, Collector1, 152) == 1;
    assert Balance(objkt.ledger, Collector2, 152) == 1;
    assert 0 !in mp.swaps;
    r := mp.CancelSwap(Artist1, 0, 0, fa2s);
    assert r.Fail?;
  }

  method TestSwapAndCollect(maxFee: nat, maxRoyalties: nat)
    requires Admissible(maxFee, maxRoyalties)
  {
    var objkt, newObjkt, fa2s, v1, mp := MintedEnvironment(maxFee, maxRoyalties);
    SwapAndCollectTezRefused(objkt, newObjkt, fa2s, mp);
    Listed(objkt, newObjkt, fa2s, mp, 50, Tez);
    SwapAndCollectWrongPrice(objkt, newObjkt, fa2s, mp);
    SwapAndCollectFirstSale(objkt, newObjkt, fa2s, mp);
    SwapAndCollectSecondSale(objkt, newObjkt, fa2s, mp);
    SwapAndCollectCancel(objkt, newObjkt, fa2s, mp);
  }

  // ---------------------------------------------------------------------
  // "Test free collect" and "Test very cheap collect"

  /** One edition of a swap of 50 is collected at `price` mutez: the whole
      price is forwarded and the collector gets the edition. */
  method OneSale(objkt: Fa2, newObjkt: Fa2, fa2s: map<Address, Fa2>, mp: Marketplace, price: Mutez)
    requires OnChain(fa2s, objkt, newObjkt, mp) && mp.Valid() && mp.EscrowCovers(fa2s) && !mp.paused
    requires 0 in mp.swaps && mp.swaps[0] == SwapRecord(Artist1, ObjktAddress, 152, 50, price, 100, Artist1)
    requires Balance(objkt.ledger, Artist1, 152) == 50 && Balance(objkt.ledger, MarketplaceV3Address, 152) == 50
    requires Balance(objkt.ledger, Collector1, 152) == 0
    modifies mp`swaps, mp`balance, objkt`ledger
    ensures mp.Valid() && mp.EscrowCovers(fa2s)
    ensures 0 in mp.swaps && mp.swaps[0].objktAmount == 49
    ensures Balance(objkt.ledger, Artist1, 152) == 50 && Balance(objkt.ledger, MarketplaceV3Address, 152) == 49
    ensures Balance(objkt.ledger, Collector1, 152) == 1
  {
    var c, paid := mp.Collect(Collector1, price, 0, fa2s);
    assert c.Ok? && Sum(paid) == price;
    assert price == 0 ==> paid == [];
  }

  /** An edition priced at 0 is collected with no tez; nothing is paid out. */
  method TestFreeCollect(maxFee: nat, maxRoyalties: nat)
    requires Admissible(maxFee, maxRoyalties)
  {
    var objkt, newObjkt, fa2s, v1, mp := MintedEnvironment(maxFee, maxRoyalties);
    Listed(objkt, newObjkt, fa2s, mp, 50, 0);
    OneSale(objkt, newObjkt, fa2s, mp, 0);
  }

  /** An edition priced at 2 mutez: the shares round down and the whole
      payment is still forwarded. */
  method TestVeryCheapCollect(maxFee: nat, maxRoyalties: nat)
    requires Admissible(maxFee, maxRoyalties)
  {
    var objkt, newObjkt, fa2s, v1, mp := MintedEnvironment(maxFee, maxRoyalties);
    Listed(objkt, newObjkt, fa2s, mp, 50, 2);
    OneSale(objkt, newObjkt, fa2s, mp, 2);
  }

  // ---------------------------------------------------------------------
  // The administrative entry points

  /** "Test update fee". */
  method TestUpdateFee(maxFee: nat, maxRoyalties: nat)
    requires Admissible(maxFee, maxRoyalties)
  {
    var objkt, newObjkt, fa2s, v1, mp := Environment(maxFee, maxRoyalties);
    var r := mp.UpdateFee(Artist1, 0, 100);
    assert r.Fail?;
    r := mp.UpdateFee(Admin, 3 * Tez, 100);
    assert r.Fail?;
    r := mp.UpdateFee(Admin, 0, 100);
    assert r.Ok? && mp.fee == 100;
    r := mp.UpdateFee(Admin, 0, 1000);
    assert r.Fail? && mp.fee == 100;
  }

  /** "Test update fee recipient". */
  method TestUpdateFeeRecipient(maxFee: nat, maxRoyalties: nat)
    requires Admissible(maxFee, maxRoyalties)
  {
    var objkt, newObjkt, fa2s, v1, mp := Environment(maxFee, maxRoyalties);
    var r := mp.UpdateFeeRecipient(Artist1, 0, Artist1);
    assert r.Fail?;
    r := mp.UpdateFeeRecipient(Admin, 3 * Tez, Artist1);
    assert r.Fail?;
    r := mp.UpdateFeeRecipient(Admin, 0, Artist1);
    assert r.Ok? && mp.feeRecipient == Artist1;
  }

  /** "Test update manager": the handover takes effect at once; the old
      manager loses the right and the new one can hand over again. */
  method TestUpdateManager(maxFee: nat, maxRoyalties: nat)
    requires Admissible(maxFee, maxRoyalties)
  {
    var objkt, newObjkt, fa2s, v1, mp := Environment(maxFee, maxRoyalties);
    var r := mp.UpdateManager(Artist1, 0, Artist1);
    assert r.Fail?;
    r := mp.UpdateManager(Admin, 3 * Tez, Artist1);
    assert r.Fail?;
    r := mp.UpdateManager(Admin, 0, Artist1);
    assert r.Ok? && mp.manager == Artist1;
    r := mp.UpdateManager(Admin, 0, Artist2);
    assert r.Fail?;
    r := mp.UpdateManager(Artist1, 0, Artist2);
    assert r.Ok? && mp.manager == Artist2;
  }

  // ---------------------------------------------------------------------
  // "Test add and remove fa2"

  /** Artist1 holds 100 units of token 0 of the new OBJKT contract and makes
      the marketplace an operator of them. */
  method AddFa2Minted(maxFee: nat, maxRoyalties: nat)
    returns (objkt: Fa2, newObjkt: Fa2, fa2s: map<Address, Fa2>, mp: Marketplace)
    requires Admissible(maxFee, maxRoyalties)
    ensures fresh(objkt) && fresh(newObjkt) && fresh(mp) && OnChain(fa2s, objkt, newObjkt, mp)
    ensures mp.Valid() && mp.EscrowCovers(fa2s)
    ensures mp.manager == Admin && !mp.paused && mp.allowedFa2s == map[ObjktAddress := true]
    ensures 100 <= mp.maxRoyalties && mp.swaps == map[] && mp.counter == 0
    ensures Operator(Artist1, MarketplaceV3Address, 0) in newObjkt.operators
    ensures newObjkt.ledger == map[(Artist1, 0) := 100]
  {
    var v1;
    objkt, newObjkt, fa2s, v1, mp := Environment(maxFee, maxRoyalties);
    var m := newObjkt.Mint(Admin, Artist1, 100, 0);
    assert m.Ok?;
    var u := newObjkt.UpdateOperators(Artist1, AddMarketplace(Artist1, 0));
    assert u.Ok?;
  }

  /** Swapping token 0 of the new OBJKT contract fails while that contract
      is not allowed. */
  method AddFa2Refused(objkt: Fa2, newObjkt: Fa2, fa2s: map<Address, Fa2>, mp: Marketplace)
    requires OnChain(fa2s, objkt, newObjkt, mp) && mp.Valid() && mp.EscrowCovers(fa2s)
    requires mp.allowedFa2s == map[ObjktAddress := true]
    modifies mp`swaps, mp`counter, newObjkt`ledger
    ensures mp.Valid() && mp.EscrowCovers(fa2s)
    ensures mp.swaps == old(mp.swaps) && mp.counter == old(mp.counter) && newObjkt.ledger == old(newObjkt.ledger)
  {
    var r := mp.Swap(Artist1, 0, fa2s, NewObjktAddress, 0, 50, Tez, 100, Artist1);
    assert r.Fail?;
  }

  /** Only the manager, with no tez attached, can allow the new OBJKT
      contract; then its token 0 can be swapped. */
  method AddFa2Allows(objkt: Fa2, newObjkt: Fa2, fa2s: map<Address, Fa2>, mp: Marketplace)
    requires OnChain(fa2s, objkt, newObjkt, mp) && mp.Valid() && mp.EscrowCovers(fa2s)
    requires mp.manager == Admin && !mp.paused && mp.allowedFa2s == map[ObjktAddress := true]
    requires 100 <= mp.maxRoyalties && mp.swaps == map[] && mp.counter == 0
    requires Operator(Artist1, MarketplaceV3Address, 0) in newObjkt.operators
    requires newObjkt.ledger == map[(Artist1, 0) := 100]
    modifies mp`allowedFa2s, mp`swaps, mp`counter, newObjkt`ledger
    ensures mp.Valid() && mp.EscrowCovers(fa2s)
    ensures mp.allowedFa2s == map[ObjktAddress := true, NewObjktAddress := true]
    ensures mp.counter == 1 && 0 in mp.swaps && mp.swaps[0] == SwapRecord(Artist1, NewObjktAddress, 0, 50, Tez, 100, Artist1)
    ensures Balance(newObjkt.ledger, Artist1, 0) == 50 && Balance(newObjkt.ledger, MarketplaceV3Address, 0) == 50
    ensures Balance(newObjkt.ledger, Collector1, 0) == 0
  {
    var r := mp.AddFa2(Artist1, 0, NewObjktAddress);
    assert r.Fail?;
    r := mp.AddFa2(Admin, 3 * Tez, NewObjktAddress);
    assert r.Fail?;
    r := mp.AddFa2(Admin, 0, NewObjktAddress);
    assert r.Ok?;
    assert mp.allowedFa2s[ObjktAddress] && mp.allowedFa2s[NewObjktAddress];
    r := mp.Swap(Artist1, 0, fa2s, NewObjktAddress, 0, 50, Tez, 100, Artist1);
    assert r.Ok?;
  }

  /** Only the manager, with no tez attached, can remove the contract
      again; then new swaps on it fail. */
  method RemoveFa2Refuses(objkt: Fa2, newObjkt: Fa2, fa2s: map<Address, Fa2>, mp: Marketplace)
    requires OnChain(fa2s, objkt, newObjkt, mp) && mp.Valid() && mp.EscrowCovers(fa2s)
    requires mp.manager == Admin && mp.allowedFa2s == map[ObjktAddress := true, NewObjktAddress := true]
    modifies mp`allowedFa2s, mp`swaps, mp`counter, newObjkt`ledger
    ensures mp.Valid() && mp.EscrowCovers(fa2s)
    ensures mp.swaps == old(mp.swaps) && mp.counter == old(mp.counter) && newObjkt.ledger == old(newObjkt.ledger)
  {
    var r := mp.RemoveFa2(Artist1, 0, NewObjktAddress);
    assert r.Fail?;
    r := mp.RemoveFa2(Admin, 3 * Tez, NewObjktAddress);
    assert r.Fail?;
    r := mp.RemoveFa2(Admin, 0, NewObjktAddress);
    assert r.Ok?;
    assert mp.allowedFa2s[ObjktAddress] && !mp.allowedFa2s[NewObjktAddress];
    r := mp.Swap(Artist1, 0, fa2s, NewObjktAddress, 0, 1, Tez, 100, Artist1);
    assert r.Fail?;
  }

  /** The existing swap on the removed contract can still be collected and
      cancelled. */
  method RemovedFa2KeepsSwaps(objkt: Fa2, newObjkt: Fa2, fa2s: map<Address, Fa2>, mp: Marketplace)
    requires OnChain(fa2s, objkt, newObjkt, mp) && mp.Valid() && mp.EscrowCovers(fa2s) && !mp.paused
    requires 0 in mp.swaps && mp.swaps[0] == SwapRecord(Artist1, NewObjktAddress, 0, 50, Tez, 100, Artist1)
    requires Balance(newObjkt.ledger, Artist1, 0) == 50 && Balance(newObjkt.ledger, MarketplaceV3Address, 0) == 50
    requires Balance(newObjkt.ledger, Collector1, 0) == 0
    modifies mp`swaps, mp`balance, newObjkt`ledger
  {
    var c, paid := mp.Collect(Collector1, Tez, 0, fa2s);
    assert c.Ok?;
    var r := mp.CancelSwap(Artist1, 0, 0, fa2s);
    assert r.Ok?;
    assert Balance(newObjkt.ledger, Artist1, 0) == 100 - 1;
    assert Balance(newObjkt.ledger, MarketplaceV3Address, 0) == 0;
    assert Balance(newObjkt.ledger, Collector1, 0) == 1;
  }

  method TestAddAndRemoveFa2(maxFee: nat, maxRoyalties: nat)
    requires Admissible(maxFee, maxRoyalties)
  {
    var objkt, newObjkt, fa2s, mp := AddFa2Minted(maxFee, maxRoyalties);
    AddFa2Refused(objkt, newObjkt, fa2s, mp);
    AddFa2Allows(objkt, newObjkt, fa2s, mp);
    RemoveFa2Refuses(objkt, newObjkt, fa2s, mp);
    RemovedFa2KeepsSwaps(objkt, newObjkt, fa2s, mp);
  }

  // ---------------------------------------------------------------------
  // "Test pause contract"

  /** One of the ten swapped editions is collected. */
  method PauseFirstSale(objkt: Fa2, newObjkt: Fa2, fa2s: map<Address, Fa2>, mp: Marketplace)
    requires OnChain(fa2s, objkt, newObjkt, mp) && mp.Valid() && mp.EscrowCovers(fa2s) && !mp.paused
    requires 0 in mp.swaps && mp.swaps[0] == SwapRecord(Artist1, ObjktAddress, 152, 10, Tez, 100, Artist1)
    requires Balance(objkt.ledger, Artist1, 152) == 90 && Balance(objkt.ledger, MarketplaceV3Address, 152) == 10
    modifies mp`swaps, mp`balance, objkt`ledger
    ensures mp.Valid() && mp.EscrowCovers(fa2s)
    ensures 0 in mp.swaps && mp.swaps[0] == SwapRecord(Artist1, ObjktAddress, 152, 9, Tez, 100, Artist1)
    ensures Balance(objkt.ledger, Artist1, 152) == 90 && Balance(objkt.ledger, MarketplaceV3Address, 152) == 9
  {
    var c, paid := mp.Collect(Collector1, Tez, 0, fa2s);
    assert c.Ok?;
  }

  /** Only the manager, with no tez attached, can pause. */
  method PauseByManager(mp: Marketplace)
    requires mp.Valid() && mp.manager == Admin
    modifies mp`paused
    ensures mp.Valid() && mp.paused
  {
    var r := mp.SetPause(Collector1, 0, true);
    assert r.Fail?;
    r := mp.SetPause(Admin, 3 * Tez, true);
    assert r.Fail?;
    r := mp.SetPause(Admin, 0, true);
    assert r.Ok?;
  }

  /** While paused, swaps and collects fail and change nothing. */
  method PauseBlocksTrading(objkt: Fa2, newObjkt: Fa2, fa2s: map<Address, Fa2>, mp: Marketplace)
    requires OnChain(fa2s, objkt, newObjkt, mp) && mp.Valid() && mp.EscrowCovers(fa2s) && mp.paused
    requires 0 in mp.swaps && mp.swaps[0] == SwapRecord(Artist1, ObjktAddress, 152, 9, Tez, 100, Artist1)
    modifies mp`swaps, mp`counter, mp`balance, objkt`ledger
    ensures mp.Valid() && mp.EscrowCovers(fa2s)
    ensures mp.swaps == old(mp.swaps) && mp.counter == old(mp.counter) && objkt.ledger == old(objkt.ledger)
  {
    var r := mp.Swap(Artist1, 0, fa2s, ObjktAddress, 152, 10, Tez, 100, Artist1);
    assert r.Fail?;
    var c, paid := mp.Collect(Collector1, Tez, 0, fa2s);
    assert c.Fail?;
  }

  /** While paused the issuer can still cancel. */
  method PauseStillCancels(objkt: Fa2, newObjkt: Fa2, fa2s: map<Address, Fa2>, mp: Marketplace)
    requires OnChain(fa2s, objkt, newObjkt, mp) && mp.Valid() && mp.EscrowCovers(fa2s) && mp.paused
    requires 0 in mp.swaps && mp.swaps[0] == SwapRecord(Artist1, ObjktAddress, 152, 9, Tez, 100, Artist1)
    requires Balance(objkt.ledger, Artist1, 152) == 90 && Balance(objkt.ledger, MarketplaceV3Address, 152) == 9
    modifies mp`swaps, objkt`ledger
    ensures mp.Valid() && mp.EscrowCovers(fa2s)
    ensures 0 !in mp.swaps
    ensures Balance(objkt.ledger, Artist1, 152) == 99 && Balance(objkt.ledger, MarketplaceV3Address, 152) == 0
  {
    var r := mp.CancelSwap(Artist1, 0, 0, fa2s);
    assert r.Ok?;
  }

  /** The manager unpauses. */
  method PauseLifted(mp: Marketplace)
    requires mp.Valid() && mp.manager == Admin
    modifies mp`paused
    ensures mp.Valid() && !mp.paused
  {
    var r := mp.SetPause(Admin, 0, false);
    assert r.Ok?;
  }

  /** After unpausing, swapping works again and the new swap takes the next id. */
  method PauseResumedSwap(objkt: Fa2, newObjkt: Fa2, fa2s: map<Address, Fa2>, mp: Marketplace)
    requires OnChain(fa2s, objkt, newObjkt, mp) && mp.Valid() && mp.EscrowCovers(fa2s)
    requires !mp.paused && mp.allowedFa2s == map[ObjktAddress := true]
    requires 100 <= mp.maxRoyalties && mp.counter == 1
    requires Operator(Artist1, MarketplaceV3Address, 152) in objkt.operators
    requires Balance(objkt.ledger, Artist1, 152) == 99 && Balance(objkt.ledger, MarketplaceV3Address, 152) == 0
    modifies mp`swaps, mp`counter, objkt`ledger
    ensures mp.Valid() && mp.EscrowCovers(fa2s)
    ensures mp.counter == 2 && 1 in mp.swaps && mp.swaps[1] == SwapRecord(Artist1, ObjktAddress, 152, 10, Tez, 100, Artist1)
    ensures Balance(objkt.ledger, Artist1, 152) == 89 && Balance(objkt.ledger, MarketplaceV3Address, 152) == 10
  {
    var r := mp.Swap(Artist1, 0, fa2s, ObjktAddress, 152, 10, Tez, 100, Artist1);
    assert r.Ok?;
  }

  /** After unpausing, collecting and cancelling work again. */
  method PauseResumedTrade(objkt: Fa2, newObjkt: Fa2, fa2s: map<Address, Fa2>, mp: Marketplace)
    requires OnChain(fa2s, objkt, newObjkt, mp) && mp.Valid() && mp.EscrowCovers(fa2s) && !mp.paused
    requires 1 in mp.swaps && mp.swaps[1] == SwapRecord(Artist1, ObjktAddress, 152, 10, Tez, 100, Artist1)
    requires Balance(objkt.ledger, Artist1, 152) == 89 && Balance(objkt.ledger, MarketplaceV3Address, 152) == 10
    modifies mp`swaps, mp`balance, objkt`ledger
  {
    var c, paid := mp.Collect(Collector1, Tez, 1, fa2s);
    assert c.Ok?;
    var r := mp.CancelSwap(Artist1, 0, 1, fa2s);
    assert r.Ok? && 1 !in mp.swaps;
    assert Balance(objkt.ledger, Artist1, 152) == 98;
  }

  /** Ten editions are swapped and one is sold before the pause. */
  method PauseOpening(maxFee: nat, maxRoyalties: nat)
    returns (objkt: Fa2, newObjkt: Fa2, fa2s: map<Address, Fa2>, mp: Marketplace)
    requires Admissible(maxFee, maxRoyalties)
    ensures fresh(objkt) && fresh(newObjkt) && fresh(mp) && OnChain(fa2s, objkt, newObjkt, mp)
    ensures mp.Valid() && mp.EscrowCovers(fa2s)
    ensures mp.manager == Admin && mp.allowedFa2s == map[ObjktAddress := true] && !mp.paused
    ensures 100 <= mp.maxRoyalties && mp.counter == 1
    ensures 0 in mp.swaps && mp.swaps[0] == SwapRecord(Artist1, ObjktAddress, 152, 9, Tez, 100, Artist1)
    ensures Operator(Artist1, MarketplaceV3Address, 152) in objkt.operators
    ensures Balance(objkt.ledger, Artist1, 152) == 90 && Balance(objkt.ledger, MarketplaceV3Address, 152) == 9
  {
    var v1;
    objkt, newObjkt, fa2s, v1, mp := MintedEnvironment(maxFee, maxRoyalties);
    Listed(objkt, newObjkt, fa2s, mp, 10, Tez);
    PauseFirstSale(objkt, newObjkt, fa2s, mp);
  }

  /** While paused, only cancelling works. */
  method PausedPeriod(objkt: Fa2, newObjkt: Fa2, fa2s: map<Address, Fa2>, mp: Marketplace)
    requires OnChain(fa2s, objkt, newObjkt, mp) && mp.Valid() && mp.EscrowCovers(fa2s) && mp.manager == Admin
    requires 0 in mp.swaps && mp.swaps[0] == SwapRecord(Artist1, ObjktAddress, 152, 9, Tez, 100, Artist1)
    requires Balance(objkt.ledger, Artist1, 152) == 90 && Balance(objkt.ledger, MarketplaceV3Address, 152) == 9
    modifies mp`paused, mp`swaps, mp`counter, mp`balance, objkt`ledger
    ensures mp.Valid() && mp.EscrowCovers(fa2s) && mp.paused
    ensures mp.counter == old(mp.counter) && 0 !in mp.swaps
    ensures Balance(objkt.ledger, Artist1, 152) == 99 && Balance(objkt.ledger, MarketplaceV3Address, 152) == 0
  {
    PauseByManager(mp);
    PauseBlocksTrading(objkt, newObjkt, fa2s, mp);
    PauseStillCancels(objkt, newObjkt, fa2s, mp);
  }

  method TestPauseContract(maxFee: nat, maxRoyalties: nat)
    requires Admissible(maxFee, maxRoyalties)
  {
    var objkt, newObjkt, fa2s, mp := PauseOpening(maxFee, maxRoyalties);
    PausedPeriod(objkt, newObjkt, fa2s, mp);
    PauseLifted(mp);
    PauseResumedSwap(objkt, newObjkt, fa2s, mp);
    PauseResumedTrade(objkt, newObjkt, fa2s, mp);
  }

  // ---------------------------------------------------------------------
  // "Test swap v3 failure conditions"

  /** Nobody can mint through V1 on behalf of artist1; artist1 mints one
      edition of #152 itself. */
  method SwapFailureMint(maxFee: nat, maxRoyalties: nat)
    returns (objkt: Fa2, newObjkt: Fa2, fa2s: map<Address, Fa2>, v1: Minter, mp: Marketplace)
    requires Admissible(maxFee, maxRoyalties)
    ensures fresh(objkt) && fresh(newObjkt) && fresh(v1) && fresh(mp)
    ensures OnChain(fa2s, objkt, newObjkt, mp) && mp.Valid() && mp.EscrowCovers(fa2s)
    ensures objkt.administrator == MarketplaceV1Address
    ensures v1.address == MarketplaceV1Address && v1.objkt == objkt && v1.objktId == 153
    ensures !mp.paused && mp.allowedFa2s == map[ObjktAddress := true]
    ensures 100 <= mp.maxRoyalties && mp.swaps == map[] && mp.counter == 0
    ensures objkt.ledger == map[(Artist1, 152) := 1] && objkt.operators == {}
  {
    objkt, newObjkt, fa2s, v1, mp := Environment(maxFee, maxRoyalties);
    var m := v1.MintObjkt(Artist2, Artist1, 1, 100);
    assert m.Fail? && v1.objktId == 152;
    m := v1.MintObjkt(Admin, Artist1, 1, 100);
    assert m.Fail? && v1.objktId == 152;
    m := v1.MintObjkt(Artist1, Artist1, 1, 100);
    assert m.Ok? && v1.objktId == 153;
  }

  /** Before artist1 makes the marketplace an operator, swapping the
      edition fails; then artist1 does. */
  method SwapFailureNoOperator(objkt: Fa2, newObjkt: Fa2, fa2s: map<Address, Fa2>, mp: Marketplace)
    requires OnChain(fa2s, objkt, newObjkt, mp) && mp.Valid() && mp.EscrowCovers(fa2s)
    requires objkt.operators == {}
    modifies mp`swaps, mp`counter, objkt`ledger, objkt`operators
    ensures mp.Valid() && mp.EscrowCovers(fa2s)
    ensures mp.swaps == old(mp.swaps) && mp.counter == old(mp.counter) && objkt.ledger == old(objkt.ledger)
    ensures objkt.operators == {Operator(Artist1, MarketplaceV3Address, 152)}
  {
    var r := mp.Swap(Artist1, 0, fa2s, ObjktAddress, 152, 1, 10000, 100, Artist1);
    assert r.Fail?;
    var u := objkt.UpdateOperators(Artist1, AddMarketplace(Artist1, 152));
    assert u.Ok?;
  }

  /** Swapping more editions than held, or someone else's editions, fails
      and changes nothing. */
  method SwapFailureNotHeld(objkt: Fa2, newObjkt: Fa2, fa2s: map<Address, Fa2>, mp: Marketplace)
    requires OnChain(fa2s, objkt, newObjkt, mp) && mp.Valid() && mp.EscrowCovers(fa2s)
    requires objkt.ledger == map[(Artist1, 152) := 1]
    requires objkt.operators == {Operator(Artist1, MarketplaceV3Address, 152)}
    modifies mp`swaps, mp`counter, objkt`ledger
    ensures mp.Valid() && mp.EscrowCovers(fa2s)
    ensures mp.swaps == old(mp.swaps) && mp.counter == old(mp.counter) && objkt.ledger == old(objkt.ledger)
  {
    var r := mp.Swap(Artist1, 0, fa2s, ObjktAddress, 152, 10, 10000, 100, Artist1);
    assert r.Fail?;
    r := mp.Swap(Artist2, 0, fa2s, ObjktAddress, 152, 1, 10000, 100, Artist1);
    assert r.Fail?;
  }

  /** Swapping artist1's edition as the manager, or swapping no editions,
      fails and changes nothing. */
  method SwapFailureManagerOrNone(objkt: Fa2, newObjkt: Fa2, fa2s: map<Address, Fa2>, mp: Marketplace)
    requires OnChain(fa2s, objkt, newObjkt, mp) && mp.Valid() && mp.EscrowCovers(fa2s)
    requires objkt.ledger == map[(Artist1, 152) := 1]
    requires objkt.operators == {Operator(Artist1, MarketplaceV3Address, 152)}
    modifies mp`swaps, mp`counter, objkt`ledger
    ensures mp.Valid() && mp.EscrowCovers(fa2s)
    ensures mp.swaps == old(mp.swaps) && mp.counter == old(mp.counter) && objkt.ledger == old(objkt.ledger)
  {
    var r := mp.Swap(Admin, 0, fa2s, ObjktAddress, 152, 1, 10000, 100, Artist1);
    assert r.Fail?;
    r := mp.Swap(Artist1, 0, fa2s, ObjktAddress, 152, 0, 10000, 100, Artist1);
    assert r.Fail?;
  }

  /** The single edition is swapped as id 0, after which a second swap of
      it fails. */
  method SwapFailureFirstToken(objkt: Fa2, newObjkt: Fa2, fa2s: map<Address, Fa2>, mp: Marketplace)
    requires OnChain(fa2s, objkt, newObjkt, mp) && mp.Valid() && mp.EscrowCovers(fa2s)
    requires !mp.paused && mp.allowedFa2s == map[ObjktAddress := true]
    requires 100 <= mp.maxRoyalties && mp.swaps == map[] && mp.counter == 0
    requires objkt.ledger == map[(Artist1, 152) := 1]
    requires Operator(Artist1, MarketplaceV3Address, 152) in objkt.operators
    modifies mp`swaps, mp`counter, objkt`ledger
    ensures mp.Valid() && mp.EscrowCovers(fa2s)
    ensures mp.counter == 1 && 0 in mp.swaps
    ensures Balance(objkt.ledger, Artist2, 153) == 0 && Balance(objkt.ledger, Artist2, 154) == 0
  {
    var r := mp.Swap(Artist1, 0, fa2s, ObjktAddress, 152, 1, 10000, 100, Artist1);
    assert r.Ok? && 0 in mp.swaps && 1 !in mp.swaps && mp.counter == 1;
    assert Balance(objkt.ledger, Artist1, 152) == 0 && Balance(objkt.ledger, MarketplaceV3Address, 152) == 1;
    r := mp.Swap(Artist1, 0, fa2s, ObjktAddress, 152, 1, 10000, 100, Artist1);
    assert r.Fail? && 0 in mp.swaps && 1 !in mp.swaps && mp.counter == 1;
  }

  /** Artist2 mints ten editions of #153 and makes the marketplace an
      operator of them; the escrow invariant survives both calls. */
  method SwapFailureSecondMint(objkt: Fa2, newObjkt: Fa2, fa2s: map<Address, Fa2>, v1: Minter, mp: Marketplace)
    requires OnChain(fa2s, objkt, newObjkt, mp) && mp.EscrowCovers(fa2s)
    requires objkt.administrator == MarketplaceV1Address && mp.address == MarketplaceV3Address
    requires v1.address == MarketplaceV1Address && v1.objkt == objkt && v1.objktId == 153
    requires Balance(objkt.ledger, Artist2, 153) == 0 && Balance(objkt.ledger, Artist2, 154) == 0
    modifies v1`objktId, objkt`ledger, objkt`operators
    ensures mp.EscrowCovers(fa2s) && v1.objktId == 154
    ensures Operator(Artist2, MarketplaceV3Address, 153) in objkt.operators
    ensures Balance(objkt.ledger, Artist2, 153) == 10 && Balance(objkt.ledger, Artist2, 154) == 0
  {
    ghost var ledger, operators := objkt.ledger, objkt.operators;
    var m := v1.MintObjkt(Artist2, Artist2, 10, 100);
    assert m.Ok? && v1.objktId == 154;
    CreditKeepsCover(mp.swaps, mp.counter, ObjktAddress, ledger, mp.address, Artist2, 153, 10);
    var u := objkt.UpdateOperators(Artist2, AddMarketplace(Artist2, 153));
    assert u.Ok?;
    UpdatesKeepNoOperators(operators, AddMarketplace(Artist2, 153), Artist2, mp.address);
  }

  /** Swapping more editions of #153 than artist2 holds, or token #154 that
      nobody holds, fails. */
  method SwapFailureSecondRejected(objkt: Fa2, newObjkt: Fa2, fa2s: map<Address, Fa2>, mp: Marketplace)
    requires OnChain(fa2s, objkt, newObjkt, mp) && mp.Valid() && mp.EscrowCovers(fa2s)
    requires Balance(objkt.ledger, Artist2, 153) == 10 && Balance(objkt.ledger, Artist2, 154) == 0
    modifies mp`swaps, mp`counter, objkt`ledger
    ensures mp.Valid() && mp.EscrowCovers(fa2s)
    ensures mp.swaps == old(mp.swaps) && mp.counter == old(mp.counter) && objkt.ledger == old(objkt.ledger)
  {
    var r := mp.Swap(Artist2, 0, fa2s, ObjktAddress, 153, 100, 12000, 100, Artist2);
    assert r.Fail?;
    r := mp.Swap(Artist2, 0, fa2s, ObjktAddress, 154, 10, 12000, 100, Artist2);
    assert r.Fail?;
  }

  /** The ten editions of #153 are swapped as id 1, and a second swap of
      them fails. */
  method SwapFailureSecondToken(objkt: Fa2, newObjkt: Fa2, fa2s: map<Address, Fa2>, mp: Marketplace)
    requires OnChain(fa2s, objkt, newObjkt, mp) && mp.Valid() && mp.EscrowCovers(fa2s)
    requires !mp.paused && mp.allowedFa2s == map[ObjktAddress := true]
    requires 100 <= mp.maxRoyalties && mp.counter == 1 && 0 in mp.swaps
    requires Operator(Artist2, MarketplaceV3Address, 153) in objkt.operators
    requires Balance(objkt.ledger, Artist2, 153) == 10
    modifies mp`swaps, mp`counter, objkt`ledger
  {
    var r := mp.Swap(Artist2, 0, fa2s, ObjktAddress, 153, 10, 12000, 100, Artist2);
    assert r.Ok? && 0 in mp.swaps && 1 in mp.swaps && 2 !in mp.swaps && mp.counter == 2;
    r := mp.Swap(Artist2, 0, fa2s, ObjktAddress, 153, 10, 12000, 100, Artist2);
    assert r.Fail? && 0 in mp.swaps && 1 in mp.swaps && 2 !in mp.swaps && mp.counter == 2;
  }

  /** The scenario up to the first successful swap. */
  method SwapFailureOpening(maxFee: nat, maxRoyalties: nat)
    returns (objkt: Fa2, newObjkt: Fa2, fa2s: map<Address, Fa2>, v1: Minter, mp: Marketplace)
    requires Admissible(maxFee, maxRoyalties)
    ensures fresh(objkt) && fresh(newObjkt) && fresh(v1) && fresh(mp)
    ensures OnChain(fa2s, objkt, newObjkt, mp) && mp.Valid() && mp.EscrowCovers(fa2s)
    ensures objkt.administrator == MarketplaceV1Address
    ensures v1.address == MarketplaceV1Address && v1.objkt == objkt && v1.objktId == 153
    ensures !mp.paused && mp.allowedFa2s == map[ObjktAddress := true]
    ensures 100 <= mp.maxRoyalties && mp.counter == 1 && 0 in mp.swaps
    ensures Balance(objkt.ledger, Artist2, 153) == 0 && Balance(objkt.ledger, Artist2, 154) == 0
  {
    objkt, newObjkt, fa2s, v1, mp := SwapFailureMint(maxFee, maxRoyalties);
    SwapFailureNoOperator(objkt, newObjkt, fa2s, mp);
    SwapFailureNotHeld(objkt, newObjkt, fa2s, mp);
    SwapFailureManagerOrNone(objkt, newObjkt, fa2s, mp);
    SwapFailureFirstToken(objkt, newObjkt, fa2s, mp);
  }

  method TestSwapFailureConditions(maxFee: nat, maxRoyalties: nat)
    requires Admissible(maxFee, maxRoyalties)
  {
    var objkt, newObjkt, fa2s, v1, mp := SwapFailureOpening(maxFee, maxRoyalties);
    SwapFailureSecondMint(objkt, newObjkt, fa2s, v1, mp);
    SwapFailureSecondRejected(objkt, newObjkt, fa2s, mp);
    SwapFailureSecondToken(objkt, newObjkt, fa2s, mp);
  }

  // ---------------------------------------------------------------------
  // "Test cancel v3 swap failure conditions"

  /** Artist1 mints one edition of #152 and makes the marketplace an
      operator of it. */
  method CancelFailureMint(maxFee: nat, maxRoyalties: nat)
    returns (objkt: Fa2, newObjkt: Fa2, fa2s: map<Address, Fa2>, mp: Marketplace)
    requires Admissible(maxFee, maxRoyalties)
    ensures fresh(objkt) && fresh(newObjkt) && fresh(mp) && OnChain(fa2s, objkt, newObjkt, mp)
    ensures mp.Valid() && mp.EscrowCovers(fa2s)
    ensures !mp.paused && mp.allowedFa2s == map[ObjktAddress := true]
    ensures 100 <= mp.maxRoyalties && mp.swaps == map[] && mp.counter == 0
    ensures objkt.ledger == map[(Artist1, 152) := 1]
    ensures objkt.operators == {Operator(Artist1, MarketplaceV3Address, 152)}
  {
    var v1;
    objkt, newObjkt, fa2s, v1, mp := Environment(maxFee, maxRoyalties);
    var m := v1.MintObjkt(Artist1, Artist1, 1, 100);
    assert m.Ok?;
    var u := objkt.UpdateOperators(Artist1, AddMarketplace(Artist1, 152));
    assert u.Ok?;
  }

  /** The edition is swapped as id 0. */
  method CancelFailureListing(objkt: Fa2, newObjkt: Fa2, fa2s: map<Address, Fa2>, mp: Marketplace)
    requires OnChain(fa2s, objkt, newObjkt, mp) && mp.Valid() && mp.EscrowCovers(fa2s)
    requires !mp.paused && mp.allowedFa2s == map[ObjktAddress := true]
    requires 100 <= mp.maxRoyalties && mp.swaps == map[] && mp.counter == 0
    requires objkt.ledger == map[(Artist1, 152) := 1]
    requires objkt.operators == {Operator(Artist1, MarketplaceV3Address, 152)}
    modifies mp`swaps, mp`counter, objkt`ledger
    ensures mp.Valid() && mp.EscrowCovers(fa2s) && mp.counter == 1
    ensures 0 in mp.swaps && mp.swaps[0] == SwapRecord(Artist1, ObjktAddress, 152, 1, 10000, 100, Artist1)
    ensures Balance(objkt.ledger, Artist1, 152) == 0 && Balance(objkt.ledger, MarketplaceV3Address, 152) == 1
  {
    var r := mp.Swap(Artist1, 0, fa2s, ObjktAddress, 152, 1, 10000, 100, Artist1);
    assert r.Ok? && 0 in mp.swaps && 1 !in mp.swaps && mp.counter == 1;
  }

  /** Cancelling an unknown id, or someone else's swap (also as the
      manager), fails and changes nothing. */
  method CancelFailureRefused(objkt: Fa2, newObjkt: Fa2, fa2s: map<Address, Fa2>, mp: Marketplace)
    requires OnChain(fa2s, objkt, newObjkt, mp) && mp.Valid() && mp.EscrowCovers(fa2s) && mp.counter == 1
    requires 0 in mp.swaps && mp.swaps[0] == SwapRecord(Artist1, ObjktAddress, 152, 1, 10000, 100, Artist1)
    modifies mp`swaps, objkt`ledger
    ensures mp.Valid() && mp.EscrowCovers(fa2s)
    ensures mp.swaps == old(mp.swaps) && objkt.ledger == old(objkt.ledger)
  {
    var r := mp.CancelSwap(Artist1, 0, 1535, fa2s);
    assert r.Fail? && 0 in mp.swaps && 1 !in mp.swaps && mp.counter == 1;
    r := mp.CancelSwap(Artist2, 0, 0, fa2s);
    assert r.Fail? && 0 in mp.swaps && 1 !in mp.swaps && mp.counter == 1;
    r := mp.CancelSwap(Admin, 0, 0, fa2s);
    assert r.Fail? && 0 in mp.swaps && 1 !in mp.swaps && mp.counter == 1;
  }

  /** The issuer's cancel succeeds, returns the edition, and the counter is
      not reused. */
  method CancelFailureByIssuer(objkt: Fa2, newObjkt: Fa2, fa2s: map<Address, Fa2>, mp: Marketplace)
    requires OnChain(fa2s, objkt, newObjkt, mp) && mp.Valid() && mp.EscrowCovers(fa2s) && mp.counter == 1
    requires 0 in mp.swaps && mp.swaps[0] == SwapRecord(Artist1, ObjktAddress, 152, 1, 10000, 100, Artist1)
    requires Balance(objkt.ledger, Artist1, 152) == 0 && Balance(objkt.ledger, MarketplaceV3Address, 152) == 1
    modifies mp`swaps, objkt`ledger
  {
    var r := mp.CancelSwap(Artist1, 0, 0, fa2s);
    assert r.Ok? && 0 !in mp.swaps && 1 !in mp.swaps && mp.counter == 1;
    assert Balance(objkt.ledger, Artist1, 152) == 1;
  }

  method TestCancelSwapFailureConditions(maxFee: nat, maxRoyalties: nat)
    requires Admissible(maxFee, maxRoyalties)
  {
    var objkt, newObjkt, fa2s, mp := CancelFailureMint(maxFee, maxRoyalties);
    CancelFailureListing(objkt, newObjkt, fa2s, mp);
    CancelFailureRefused(objkt, newObjkt, fa2s, mp);
    CancelFailureByIssuer(objkt, newObjkt, fa2s, mp);
  }
}
