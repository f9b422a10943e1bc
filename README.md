# hic et nunc Marketplace v3: an escrow state machine in Dafny

This project models the Marketplace v3 contract of hic et nunc, a Tezos NFT
marketplace, as it is pinned down by its SmartPy test suite
(`smart-py/objkt_swap_v3_test.py`). The contract's own source and the FA2 token
contract it talks to are not part of this model. Both are modelled as state
machines whose entry points behave as the test suite requires.

- `Tezos` (`tezos.dfy`): addresses, mutez, and the `Outcome` of an entry point.
  A call either succeeds or fails; a failing call changes nothing, which
  mirrors Tezos' all-or-nothing operations.
- `TokenLedger` (`token_ledger.dfy`): a minimal TZIP-12 FA2 contract. It has a
  ledger of balances keyed by (owner, token id) and a set of
  (owner, operator, token id) operators. Its entry points are the
  operator-checked, balance-checked `transfer`, owner-only `update_operators`,
  and the administrator's `mint` and `set_administrator`.
- `Payout` (`payout.dfy`): how the price of one collected edition is split
  between the creator (royalties), the fee recipient (fee) and the issuer (the
  rest). The split conserves the price exactly.
- `MarketplaceV3` (`marketplace.dfy`): the class `Marketplace`. Its storage is
  `swaps`, `counter`, `manager`, `fee`, `fee_recipient`, `paused`,
  `allowed_fa2s` and the contract's tez balance. Its entry points are `swap`,
  `collect`, `cancel_swap`, `update_fee`, `update_fee_recipient`,
  `update_manager`, `add_fa2`, `remove_fa2` and `set_pause`.
- `MinterV1` (`minter.dfy`): the V1 marketplace's `mint_OBJKT`, used only to set
  scenarios up. Its token id counter starts at 152.
- `Scenarios` (`scenarios.dfy`): every test of the suite except the V1 mint
  failure test, replayed call by call. A call the test expects to be rejected
  is asserted to fail, and each `scenario.verify` becomes an assertion. Long
  tests are split into phases whose contracts carry the intermediate storage
  and balances.

Each entry point returns `Ok` or `Fail(error)`. Its contract states:
- the exact condition for success, as an if-and-only-if;
- the complete new state on success;
- that nothing changed on failure.

The FA2 contracts on chain form a registry, a map from address to contract in
which every contract sits under its own address, so an address names one
contract. The marketplace keeps an escrow invariant over that registry
(`Marketplace.EscrowCovers`):
- every swap names a contract of the registry;
- on every contract, the marketplace's balance of each token covers the
  editions that its swaps still offer of that token (`Escrowed`, the sum of
  `Held` over the swap ids allocated so far);
- nobody is an operator of the marketplace's own tokens, so only the
  marketplace itself can move them.

`swap`, `collect` and `cancel_swap` preserve the invariant, and so do FA2
transfers, mints and operator updates sent by anyone else. Because of it, a
`collect` of a live swap paid exactly and a `cancel_swap` by the issuer never
fail on the token transfer: their success conditions name only the
marketplace's own checks.

The fee bound and the royalty bound are not visible in the tests. They are
constructor parameters `maxFee` and `maxRoyalties`. The scenarios hold for
every choice with `100 <= maxFee`, `100 <= maxRoyalties` and
`maxFee + maxRoyalties <= 1000`: a fee of 100 is accepted, 1000 is rejected,
and royalties of 100 are accepted.

## Model

| member | source | states |
|---|---|---|
| `TokenLedger.Moved` | smart-py/objkt_swap_v3_test.py:144-146 | Moving units of one token changes only the sender's and the receiver's balance of that token, by exactly the amount |
| `TokenLedger.Credited` | smart-py/objkt_swap_v3_test.py:107-114 | Minting raises only the recipient's balance of the minted token, by exactly the amount |
| `TokenLedger.MovedBack` | smart-py/objkt_swap_v3_test.py:176-185 | Moving units and moving them back restores every balance; `MarketplaceV3.SwapThenCancel` uses it for a swap followed by its cancellation |
| `TokenLedger.ApplyUpdatesMembership` | smart-py/objkt_swap_v3_test.py:116-122 | After a batch of operator updates, a triple is an operator exactly when the last update about it added it, or when no update mentions it and it already was one |
| `TokenLedger.OthersUntouched` | smart-py/objkt_swap_v3_test.py:837-842 | A batch that an owner may send leaves the operator status of every other owner's triples unchanged |
| `TokenLedger.Fa2.constructor` | smart-py/objkt_swap_v3_test.py:25-40 | A freshly deployed FA2 contract sits at its address with the given administrator, an empty ledger and no operators |
| `TokenLedger.Fa2.Transfer` | smart-py/objkt_swap_v3_test.py:697-786 | A transfer succeeds exactly when the sender is the owner or its operator for the token and the owner holds enough; it then moves the units and otherwise changes nothing |
| `TokenLedger.Fa2.UpdateOperators` | smart-py/objkt_swap_v3_test.py:116-122 | The batch succeeds exactly when every update concerns the sender's own tokens; the operator set becomes the updates applied in order, and a failed batch changes nothing |
| `TokenLedger.Fa2.Mint` | smart-py/objkt_swap_v3_test.py:383-388 | Only the administrator can mint, and a mint credits the recipient |
| `TokenLedger.Fa2.SetAdministrator` | smart-py/objkt_swap_v3_test.py:69-70 | Only the administrator can appoint its successor |
| `Payout.SharesFit` | smart-py/objkt_swap_v3_test.py:162-167 | Royalty and fee shares, each rounded down, of fractions totalling at most one whole never exceed the price, so the issuer's part is never negative |
| `Payout.SumConcat` | smart-py/objkt_swap_v3_test.py:162-167 | The total of two payment lists is the sum of their totals |
| `Payout.Send` | smart-py/objkt_swap_v3_test.py:233-237 | A transfer moves exactly its amount, and a zero amount produces no transfer |
| `Payout.Payouts` | smart-py/objkt_swap_v3_test.py:162-167 | The transfers for one sale add up to the price, so the marketplace keeps nothing. Every transfer is positive and goes to the creator, the fee recipient or the issuer, and each of them receives its share. A free edition produces no transfer |
| `MinterV1.Minter.constructor` | smart-py/objkt_swap_v3_test.py:46-51 | Marketplace v1 is deployed at its address over the OBJKT contract with its token id counter at 152, the genesis id the first mint receives (lines 103 and 558) |
| `MinterV1.Minter.MintObjkt` | smart-py/objkt_swap_v3_test.py:658-694 | Minting succeeds only for the artist's own address and a positive edition count; it credits the new token to the artist and advances the id counter by one, and a failed mint leaves the counter unchanged |
| `MarketplaceV3.EscrowedFrame` | smart-py/objkt_swap_v3_test.py:164-174 | When one swap's offered editions change and no other swap's do, the escrowed total of every token changes by exactly that swap's change |
| `MarketplaceV3.HeldWithinEscrowed` | smart-py/objkt_swap_v3_test.py:158-191 | The editions one allocated swap offers never exceed the escrowed total of its token, so a covered escrow holds them |
| `MarketplaceV3.TransferKeepsCover` | smart-py/objkt_swap_v3_test.py:697-786 | An FA2 transfer that the marketplace did not send and that the FA2 contract accepts cannot take units from a marketplace without operators, so the escrow stays covered |
| `MarketplaceV3.CreditKeepsCover` | smart-py/objkt_swap_v3_test.py:824-835 | Minting only adds units, so the escrow stays covered |
| `MarketplaceV3.UpdatesKeepNoOperators` | smart-py/objkt_swap_v3_test.py:837-842 | Operator updates sent by anyone other than the marketplace leave the marketplace without operators |
| `MarketplaceV3.ReleaseKeepsCover` | smart-py/objkt_swap_v3_test.py:158-191 | A swap that gives editions back out of escrow, by a sale of one edition or a cancellation of all, keeps the escrow covered on every contract while the marketplace sends them on |
| `MarketplaceV3.EscrowKeepsCover` | smart-py/objkt_swap_v3_test.py:128-156 | A new swap under the next id, whose issuer hands its editions to the marketplace, keeps the escrow covered on every contract |
| `MarketplaceV3.Marketplace.constructor` | smart-py/objkt_swap_v3_test.py:53-57 | A fresh marketplace has no swaps, counter 0, is not paused and holds the given manager, fee and allowed contracts |
| `MarketplaceV3.Marketplace.Swap` | smart-py/objkt_swap_v3_test.py:128-156 | A swap succeeds exactly when the marketplace is not paused, no tez is attached, the FA2 contract is allowed, at least one edition is offered, the royalties are within bounds, the contract is on chain, and the marketplace may move that many of the sender's editions. On success the editions go into escrow, the record is stored under the former counter with the sender as issuer, and the counter grows by one. On failure nothing changes. The escrow invariant is kept |
| `MarketplaceV3.Marketplace.Collect` | smart-py/objkt_swap_v3_test.py:158-174 | A collect succeeds exactly when the marketplace is not paused, the swap exists, the payment equals its price and editions remain; the escrow invariant guarantees the edition is there. On success one edition moves from escrow to the buyer and the remaining count drops by one. The whole payment is forwarded as the royalty, fee and issuer shares, and the tez balance returns to 0. On failure nothing changes and nothing is paid. The escrow invariant is kept |
| `MarketplaceV3.Marketplace.SendEdition` | smart-py/objkt_swap_v3_test.py:158-174 | One edition of a live swap leaves escrow for the buyer: the escrow invariant guarantees the marketplace holds it, the swap offers one edition fewer, and the invariant is kept |
| `MarketplaceV3.Marketplace.CancelSwap` | smart-py/objkt_swap_v3_test.py:176-191 | A cancel succeeds exactly when no tez is attached, the swap exists and the sender is its issuer, also while paused; the escrow invariant guarantees the editions are there. On success the remaining editions return to the issuer, the record is removed and the counter is untouched. On failure nothing changes. The escrow invariant is kept |
| `MarketplaceV3.Marketplace.CheckManager` | smart-py/objkt_swap_v3_test.py:309-311 | The administrative guard passes exactly for the manager with no tez attached |
| `MarketplaceV3.Marketplace.UpdateFee` | smart-py/objkt_swap_v3_test.py:307-318 | Only the manager, with no tez attached and a fee within the bound, changes the fee; any other call leaves it |
| `MarketplaceV3.Marketplace.UpdateFeeRecipient` | smart-py/objkt_swap_v3_test.py:330-337 | Only the manager, with no tez attached, changes the fee recipient |
| `MarketplaceV3.Marketplace.UpdateManager` | smart-py/objkt_swap_v3_test.py:350-365 | The manager hands over in a single call; afterwards only the new manager passes the guard |
| `MarketplaceV3.Marketplace.AddFa2` | smart-py/objkt_swap_v3_test.py:408-416 | Only the manager, with no tez attached, allows an FA2 contract; other entries are unchanged |
| `MarketplaceV3.Marketplace.RemoveFa2` | smart-py/objkt_swap_v3_test.py:441-448 | Only the manager, with no tez attached, disallows an FA2 contract; its entry stays, set to false |
| `MarketplaceV3.Marketplace.SetPause` | smart-py/objkt_swap_v3_test.py:510-516 | Only the manager, with no tez attached, sets or clears the pause flag |
| `MarketplaceV3.SwapThenCancel` | smart-py/objkt_swap_v3_test.py:176-191 | A swap withdrawn at once by its issuer: when the swap is accepted the cancel is too, the swaps are as before, the counter stays advanced by one, and every balance on the FA2 contract is restored |
| `Scenarios.Environment` | smart-py/objkt_swap_v3_test.py:16-88 | The deployed contracts: OBJKT administered by V1, Marketplace v3 with fee 25 and only OBJKT allowed, and the escrow invariant holding from the start |
| `Scenarios.MintedEnvironment` | smart-py/objkt_swap_v3_test.py:101-122 | After artist1 mints 100 editions of #152 and makes the marketplace an operator, artist1 holds all 100 editions |
| `Scenarios.Listed` | smart-py/objkt_swap_v3_test.py:136-156 | Swapping some of artist1's 100 editions escrows them and stores the record under id 0, with counter 1 |
| `Scenarios.SwapAndCollectTezRefused` | smart-py/objkt_swap_v3_test.py:128-134 | A swap with tez attached fails and changes nothing |
| `Scenarios.SwapAndCollectWrongPrice` | smart-py/objkt_swap_v3_test.py:158-160 | Paying one mutez too little or too much fails and changes nothing |
| `Scenarios.SwapAndCollectFirstSale` | smart-py/objkt_swap_v3_test.py:162-163 | The exact price sells one edition to the first collector |
| `Scenarios.SwapAndCollectSecondSale` | smart-py/objkt_swap_v3_test.py:164-174 | After two sales the marketplace holds no tez, 48 editions remain, and each collector holds one |
| `Scenarios.OneSale` | smart-py/objkt_swap_v3_test.py:222-243 | A single sale of one edition of 50, free or at 2 mutez, leaves 49 in escrow, one with the collector, and no tez in the marketplace |
| `Scenarios.AddFa2Minted` | smart-py/objkt_swap_v3_test.py:380-394 | Artist1 holds 100 units of token 0 on the new OBJKT contract, with the marketplace as operator |
| `Scenarios.AddFa2Refused` | smart-py/objkt_swap_v3_test.py:396-406 | A swap on a contract not yet allowed fails and changes nothing |
| `Scenarios.AddFa2Allows` | smart-py/objkt_swap_v3_test.py:408-439 | Only the manager's `add_fa2` succeeds; afterwards a swap on the new contract succeeds, with record and ledger as the test checks |
| `Scenarios.RemoveFa2Refuses` | smart-py/objkt_swap_v3_test.py:441-455 | Only the manager's `remove_fa2` succeeds; afterwards new swaps on that contract fail and nothing changes |
| `Scenarios.PauseOpening` | smart-py/objkt_swap_v3_test.py:479-508 | Ten editions are swapped under id 0 and one is collected |
| `Scenarios.PauseFirstSale` | smart-py/objkt_swap_v3_test.py:507-508 | One edition of the ten is collected |
| `Scenarios.PauseByManager` | smart-py/objkt_swap_v3_test.py:510-516 | Pausing is manager-only and without tez |
| `Scenarios.PauseBlocksTrading` | smart-py/objkt_swap_v3_test.py:518-526 | While paused, swap and collect fail and change nothing |
| `Scenarios.PauseStillCancels` | smart-py/objkt_swap_v3_test.py:528-529 | While paused, the issuer's cancel succeeds and returns the unsold editions |
| `Scenarios.PausedPeriod` | smart-py/objkt_swap_v3_test.py:510-529 | The paused period as a whole: the marketplace ends paused with swap 0 cancelled and the counter kept |
| `Scenarios.PauseLifted` | smart-py/objkt_swap_v3_test.py:531-532 | The manager unpauses |
| `Scenarios.PauseResumedSwap` | smart-py/objkt_swap_v3_test.py:534-541 | After unpausing, a swap succeeds again and takes id 1 |
| `Scenarios.SwapFailureMint` | smart-py/objkt_swap_v3_test.py:657-694 | Minting on behalf of another fails and leaves V1's counter at 152; artist1's own mint advances it to 153 |
| `Scenarios.SwapFailureNoOperator` | smart-py/objkt_swap_v3_test.py:696-718 | Without the operator a swap fails and changes nothing; then artist1 adds the marketplace as operator |
| `Scenarios.SwapFailureNotHeld` | smart-py/objkt_swap_v3_test.py:720-752 | Swapping more editions than held, or someone else's editions, fails and changes nothing |
| `Scenarios.SwapFailureManagerOrNone` | smart-py/objkt_swap_v3_test.py:754-786 | Swapping artist1's edition as the manager, or swapping no editions, fails and changes nothing |
| `Scenarios.SwapFailureFirstToken` | smart-py/objkt_swap_v3_test.py:788-822 | One swap succeeds under id 0 with counter 1, and a second swap of the same edition fails |
| `Scenarios.SwapFailureOpening` | smart-py/objkt_swap_v3_test.py:657-822 | The test up to the first successful swap, ending with counter 1 and swap 0 recorded |
| `Scenarios.SwapFailureSecondMint` | smart-py/objkt_swap_v3_test.py:824-842 | Artist2 mints ten editions of #153 and adds the marketplace as operator; V1's counter is 154 and the escrow invariant still holds |
| `Scenarios.SwapFailureSecondRejected` | smart-py/objkt_swap_v3_test.py:910-944 | Swapping more editions of #153 than held, or the unminted #154, fails and changes nothing |
| `Scenarios.CancelFailureMint` | smart-py/objkt_swap_v3_test.py:997-1013 | One edition of #152 is minted to artist1 with the marketplace as operator |
| `Scenarios.CancelFailureListing` | smart-py/objkt_swap_v3_test.py:1015-1030 | The edition is swapped under id 0 with counter 1 |
| `Scenarios.CancelFailureRefused` | smart-py/objkt_swap_v3_test.py:1032-1063 | Cancelling an unknown id, or someone else's swap (also as the manager), fails and changes nothing |

The following scenario methods carry the rest of each test as assertions; they
state nothing beyond them:

- `TestSwapAndCollect` and `SwapAndCollectCancel` replay smart-py/objkt_swap_v3_test.py:91-191.
- `TestFreeCollect` replays lines 194-243.
- `TestVeryCheapCollect` replays lines 246-295.
- `TestUpdateFee`, `TestUpdateFeeRecipient` and `TestUpdateManager` replay lines 298-365.
- `TestAddAndRemoveFa2` and `RemovedFa2KeepsSwaps` replay lines 368-464.
- `TestPauseContract` and `PauseResumedTrade` replay lines 467-543.
- `TestSwapFailureConditions` and `SwapFailureSecondToken` replay lines 644-982.
- `TestCancelSwapFailureConditions` and `CancelFailureByIssuer` replay lines 984-1076.

## Left out

- SmartPy plumbing (script imports, test accounts, metadata and IPFS URIs, `sp.pack`) is not modelled: it is test scaffolding, not contract logic.
- The hDAO token and the curate contract are not part of this model; no Marketplace v3 test uses them.
- V1 `mint_OBJKT` is modelled only as far as the scenarios use it: own address, positive edition count, crediting the token and advancing the id. Its edition and royalty limits, and the test "Test mint failure conditions" that exercises them, are left out. They belong to V1, not to Marketplace v3.
- FA2 features beyond balances, operators, single transfers, mint and set_administrator are left out: batched transfers with several destinations, token metadata, `balance_of`. The marketplace does not rely on them.
- `MarketplaceV3.Marketplace.Swap`: requires that the sender is not the marketplace itself. The marketplace has no entry point that calls its own `swap`, and the escrow invariant depends on it: a swap the marketplace sent itself would record editions it already holds for another swap.
- The escrow invariant is shown to survive FA2 calls sent by accounts other than the marketplace (`TransferKeepsCover`, `CreditKeepsCover`, `UpdatesKeepNoOperators`). The marketplace sends FA2 calls only from `swap`, `collect` and `cancel_swap`, whose contracts keep the invariant.
- Mutez are unbounded naturals; Tezos' 64-bit mutez overflow is not modelled, since no test comes near it.
- The royalty/fee split is not visible in the tests, which only check that the marketplace keeps no tez. The model splits with shares rounded down in thousandths and gives the remainder to the issuer. Only conservation is what the tests pin down.
- Tez sent to beneficiaries is returned as the list of payments of `Collect`; the beneficiaries' own tez accounts are not modelled.
- `MarketplaceV3.Marketplace.Collect` keeps a record whose last edition was sold, with zero editions left. No test shows whether the contract deletes it; further collects of it fail in either case.
- The royalty checks the tests mark as not yet enforced (a mismatch with the minted royalties, too low, zero) are not enforced here either. The only royalty check is the `maxRoyalties` bound.
- `update_manager` is modelled as a single step, because the tests (lines 350-365) expect the new manager to act at once. A two-step propose-and-accept handover is not modelled.
- `MarketplaceV3.Marketplace.UpdateFee` bounds the fee by the parameter `maxFee`. The contract's actual cap is not visible; the tests only show that 100 passes and 1000 fails.
