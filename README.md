# TokenSale: a verified model of the sale state machine and its settlement

This project models `TokenSale`, a fixed-price token sale contract. The behaviour is taken
from the contract's test suite (`test/TokenSale.ts` and the `Ownable` and `Whitelist`
tests); the Solidity source is not part of this model.

- **Deployment.** The seller sets a sale window `[timeStart, timeEnd]`, a token supply
  and a token price in wei. The constructor rejects a window that does not start in the
  future, a window that does not end after it starts, an empty supply and a free token,
  checked in that order. The deployer becomes the owner and holds the whole supply.
- **Whitelisting.** Only the owner may add or remove buyers on the whitelist.
- **Buying.** A whitelisted buyer sends ether during the window. The contract checks,
  in order: the buyer is whitelisted, the sale has started, it has not ended, something
  was sent, and the total contributed stays within what the whole supply is worth
  (`tokenPrice * tokenSupply`). On success the buyer is appended to the ordered
  `investors` list on its first purchase, and its `ownerToEthers` entry grows by the
  amount sent. No tokens move yet.
- **Ending.** After `timeEnd`, `endSale` declares the sale ended exactly once and emits
  `SaleEnded`.
- **Distributing.** `distributeTokens`, allowed only once the sale is declared ended,
  walks the investors in purchase order. Each investor is granted
  `floor(contribution / price)` whole tokens, capped by the supply still unsold. What
  the grant does not cost is recorded as a refund owed to the investor, and the cost
  goes to the owner's proceeds. The owner's pre-loaded allotment is then burnt.

Files:

- `ledger.dfy` (module `Ledger`) holds addresses, Solidity-style mappings (a missing key
  reads 0), sums over the investor list, and the well-formedness of the purchase book.
- `settlement.dfy` (module `Distribution`) holds the settlement rule as a pure function
  `Settle` of the purchase book, and the lemmas about it: which tokens go where, that
  ether is conserved, and that no investor is rationed when the book is within capacity.
- `sale.dfy` (module `Sale`) holds the contract as the class `TokenSale`, with
  imperative methods for the calls and functions for the views. The class invariant
  `Valid()` ties the ledgers together in every phase.
- `scenarios.dfy` (module `Scenarios`) replays each test scenario as a client method
  whose postcondition is the test's expected outcome.

The model's conventions:

- **Amounts and time.** All amounts are unbounded naturals: wei for ether, whole tokens
  for tokens. Block time is passed to every call as `now`.
- **Ghost clock.** The ghost field `clock` records the time of the latest successful
  call. Block time never decreases, so every call requires `now >= clock`. Because of
  this invariant, a sale that was declared ended can never sell again.
- **Reverts.** A reverting call returns `Revert(reason)` and changes nothing. The error
  variants name the contract's revert messages.

`endSale` and `distributeTokens` both reject an early call, but with different
messages: "Sale period is not over yet" and "The sale is not over yet". The model
therefore has two variants, `PeriodNotOver` and `NotOver`.

## Model

| member | source | states |
|---|---|---|
| Sale.ValidateTerms | test/TokenSale.ts:41-79 | construction succeeds iff `now < timeStart < timeEnd`, supply > 0 and price > 0; each violation yields its own revert reason, the first violated check winning |
| Sale.Deploy | test/TokenSale.ts:41-84 | a deployment is rejected exactly when the terms fail, with the reason `ValidateTerms` gives; otherwise the sale is fresh and valid, belongs to the deployer, and `ownerToTokens(deployer)` equals the supply |
| Sale.TokenSale.constructor | test/TokenSale.ts:81-84 | the new sale satisfies the invariant, its owner is the deployer, the owner holds the whole supply, and the whitelist, investor list and contributions are empty |
| Sale.TokenSale.Whitelisted | test/Whitelist.ts:21 | `whitelisted(a)` is membership in the whitelist set. The constructor starts the set empty and only the owner's `setWhitelisted` changes it, so an address reads false until the owner sets it |
| Sale.TokenSale.SetWhitelisted | test/Whitelist.ts:20-21 | a non-owner caller is rejected with `NotOwner` and changes nothing; for the owner, `whitelisted(a)` afterwards equals the flag set, and no other address changes |
| Sale.BuyGuard | test/TokenSale.ts:88-121 | a purchase passes iff the buyer is whitelisted, `timeStart <= now <= timeEnd`, the amount is positive and `raised + amount <= price * supply`; each failure gets its own reason, in the contract's check order |
| Sale.TokenSale.BuyToken | test/TokenSale.ts:123-141 | the outcome is `BuyGuard`'s; on success a new buyer is appended to `investors`, the buyer's contribution grows by exactly the amount sent, `raised` grows by it, and the invariant (book well formed, `raised` = sum of contributions, within capacity) is kept; on failure nothing changes |
| Ledger.Purchase | test/TokenSale.ts:123-141 | recording a purchase keeps every investor listed once, with exactly the listed investors holding positive contributions, and adds the amount to the sum of contributions |
| Sale.TokenSale.NoPurchaseAfterEnd | test/TokenSale.ts:96-103 | once the sale has been declared ended, a purchase is rejected as ended (or not whitelisted), whatever is sent |
| Sale.TokenSale.EndSale | test/TokenSale.ts:145-162 | rejected with `PeriodNotOver` while `now <= timeEnd`, then with `AlreadyOver` once ended; otherwise the stage becomes `Ended` and exactly one `SaleEnded` event is appended |
| Sale.TokenSale.DistributeTokens | test/TokenSale.ts:166-204 | rejected with `NotOver` unless the stage is exactly `Ended`; on success the ledgers are the settlement of the investors in order, with the owner's allotment burnt, and the invariant then says every non-owner holds `floor(paid / price)`, the owner holds 0, everyone is owed `paid % price`, and proceeds plus refunds equal the ether raised |
| Sale.TokenSale.CreditInvestors | test/TokenSale.ts:171-194 | the loop over the investors leaves balances, refunds and proceeds equal to `Settle` of the investor list |
| Sale.TokenSale.Investors | test/TokenSale.ts:130 | `investors(i)` is defined iff `i` is below the number of investors; the investor found has a positive contribution and occurs at no other index |
| Sale.TokenSale.OwnerToEthers | test/TokenSale.ts:140 | a contribution is positive iff the address is an investor, and is at most the total raised |
| Sale.TokenSale.OwnerToTokens | test/TokenSale.ts:190-193 | before distribution the owner holds the supply and everyone else 0; after it the owner holds 0 and every other address holds `floor(ownerToEthers / price)` |
| Sale.TokenSale.RefundOf | test/TokenSale.ts:166-204 | nothing is owed before distribution; afterwards each address is owed `ownerToEthers % price`. Refunds are the model's record of what the settlement rule owes; the withdrawal tests are empty |
| Sale.TokenSale.SettledSupply | test/TokenSale.ts:171-194 | after distribution only investors hold tokens, and together they hold at most the supply |
| Distribution.Grant | test/TokenSale.ts:190 | the grant is at most the tokens left and at most `floor(contribution / price)`, costs no more than the contribution, and is one of the two |
| Distribution.Settle | test/TokenSale.ts:171-194 | the unsold rest never exceeds the supply |
| Distribution.Progress | test/TokenSale.ts:171-194 | the settlement reached after `k` turns of the loop leaves at most the supply unsold |
| Distribution.ProgressSettles | test/TokenSale.ts:171-194 | after `k` turns the loop's state is exactly the settlement of the first `k` investors |
| Distribution.SettleKeys | test/TokenSale.ts:171-194 | a grant and a refund are written for exactly the listed investors; every other address keeps its starting balance |
| Distribution.SettleAt | test/TokenSale.ts:171-194 | the `k`-th investor is granted what its contribution buys from the supply the earlier investors left; grant × price + refund = its contribution, and its balance grows by the grant |
| Distribution.FirstComeFirstServed | test/TokenSale.ts:171-194 | the first investor is granted `min(floor(contribution / price), supply)` |
| Distribution.SettleProceeds | test/TokenSale.ts:166-204 | the owner's proceeds are exactly the price of the tokens sold. Proceeds are the model's record of what the settlement rule owes the owner; the withdrawal tests are empty |
| Distribution.SettleSold | test/TokenSale.ts:171-194 | for distinct investors, the tokens granted plus the unsold rest equal the supply |
| Distribution.SettleConservesEther | test/TokenSale.ts:166-204 | the proceeds plus all refunds equal what the investors paid. Both are the model's record of what the settlement rule owes; the withdrawal tests are empty |
| Distribution.RequestedWithinPaid | test/TokenSale.ts:114-121 | the whole tokens requested never cost more than was paid |
| Distribution.SettleUncapped | test/TokenSale.ts:171-194 | while the requests fit in the supply, each investor gets exactly `floor(contribution / price)` and the rest of the supply is left unsold |
| Distribution.NoRationingWithinCapacity | test/TokenSale.ts:114-121 | when contributions total at most `price * supply` (the purchase cap), every investor is granted `floor(contribution / price)` and refunded `contribution % price` |
| Distribution.SettleMeaning | test/TokenSale.ts:190-203 | for a book within capacity, once the owner's allotment is burnt the owner holds 0, every other address holds `floor(paid / price)`, everyone is owed `paid % price`, and proceeds plus refunds equal what was paid |
| Distribution.SumWithinRequested | test/TokenSale.ts:171-194 | balances of at most `floor(paid / price)` each add up to at most the whole tokens requested |
| Distribution.ThreeEqualShares | test/TokenSale.ts:171-194 | three distinct investors who each pay `price * supply / 3` are each granted `supply / 3` |
| Distribution.ThirdOfValue | test/TokenSale.ts:177-190 | a third of the sale's value, rounded down, buys a third of the supply, rounded down |
| Scenarios.DeploymentRejections | test/TokenSale.ts:41-79 | the four invalid deployments are rejected with the four distinct reasons |
| Scenarios.SupplyOnOwner | test/TokenSale.ts:81-84 | after deployment the owner is the deployer and holds the whole supply |
| Scenarios.WhitelistByOwner | test/Ownable.ts:25-27 | a non-owner cannot whitelist; the owner can, after which the address reads as whitelisted |
| Scenarios.BuyUnlisted | test/Whitelist.ts:28 | an address never whitelisted is rejected with `NotWhitelisted` |
| Scenarios.BuyBeforeStart | test/TokenSale.ts:88-94 | a whitelisted purchase before the window is rejected with `NotStarted` |
| Scenarios.BuyAfterEnd | test/TokenSale.ts:96-103 | a whitelisted purchase at `timeEnd + 1` is rejected with `HasEnded` |
| Scenarios.BuyNothing | test/TokenSale.ts:105-112 | sending 0 is rejected with `ZeroAmount` |
| Scenarios.BuyBeyondSupply | test/TokenSale.ts:114-121 | sending `price * supply + price` is rejected with `SupplyDepleted` |
| Scenarios.FirstPurchase | test/TokenSale.ts:123-141 | after a first purchase of 0.1 ether the buyer is `investors(0)` and `ownerToEthers(buyer)` is 0.1 ether |
| Scenarios.EndTooEarly | test/TokenSale.ts:145-149 | `endSale` at `timeStart` is rejected with `PeriodNotOver` |
| Scenarios.EndTwice | test/TokenSale.ts:151-162 | `endSale` at `timeEnd + 1` succeeds and emits `SaleEnded`; a second call is rejected with `AlreadyOver` |
| Scenarios.DistributeTooEarly | test/TokenSale.ts:166-169 | distribution before `endSale` is rejected with `NotOver` |
| Scenarios.ThreeInvestors | test/TokenSale.ts:171-194 | three investors paying a third of the sale's value each end up with `floor(10000 / 3)` tokens, and the owner with none |
| Scenarios.BurnUnsold | test/TokenSale.ts:198-204 | with no investors, distribution succeeds and leaves the owner with 0 tokens |

## Left out

- The Solidity source of `TokenSale`, `Ownable` and `Whitelist` is not part of this model. The behaviour follows the tests' assertions.
- Ether withdrawal (owner proceeds and investor refunds) and token transfer are left out. Their tests are empty placeholders (test/TokenSale.ts:208-220). The model records what is owed (`refunds`, `proceeds`) but has no call to pay it out.
- Re-entrancy, gas, and the transfer of ether into the contract are left out; they belong to the EVM's execution model.
- uint256 overflow is not modelled; amounts are unbounded naturals. Three products occur:
  the purchase cap `price * supply`, the cost `g * price` of an investor's grant, and the
  same cost accumulated into the proceeds. A grant's cost is at most that investor's
  contribution (`Distribution.Grant` ensures `g * price <= contribution`), so it stays
  within the cap. `Sale.Deploy` nevertheless accepts terms where `price * supply` itself
  exceeds the uint256 range; on such terms the contract's cap check would overflow, and
  the model does not capture that.
- Events other than `SaleEnded` are not modelled; `SaleEnded` is recorded in the `events` log.
- Whether `endSale` is restricted to the owner is not modelled. The tests only call it from the owner, and no gate on it is observable, so any caller may end the sale.
- Sale.TokenSale.CreditInvestors: builds the balances, refunds and proceeds on local copies and stores them after the walk, rather than writing storage on each turn. A call is atomic, so no caller can observe the difference.
- The deployment script (`scripts/deploy.ts`) and the test harness are left out. That covers fixtures, signers, `time.increaseTo` (replaced by the `now` parameter) and wall-clock reads.
- Revert message strings are not modelled; each is named by a variant of `Error`.
- If the owner also bought tokens, the final burn also clears the owner's grant. The tests do not settle this case; the model zeroes the owner's balance, as the burn test demands.
