/**
 The contract's test scenarios, replayed on the model: each method deploys a sale with
 the standard terms (the window opens a month after deployment and closes a month later,
 10000 tokens at 0.1 ether each), drives it through the calls of one scenario, and
 promises in its postcondition the outcome the scenario expects.
 */
module Scenarios {
  import opened Ledger
  import opened Distribution
  import opened Sale

  /** Thirty days, in seconds. */
  const Month: nat := 30 * 24 * 60 * 60
  /** 0.1 ether, in wei. */
  const Price: nat := 100_000_000_000_000_000
  const Supply: nat := 10000

  /** Deploys the standard sale at time `now`. */
  method Standard(owner: Address, now: nat) returns (sale: TokenSale)
    ensures fresh(sale) && sale.Valid() && sale.owner == owner
    ensures sale.timeStart == now + Month && sale.timeEnd == now + 2 * Month
    ensures sale.tokenSupply == Supply && sale.tokenPrice == Price
    ensures sale.whitelist == {} && sale.investors == [] && sale.ownerToEthers == map[] && sale.raised == 0
    ensures sale.stage == Selling && sale.clock == now && sale.events == []
  {
    sale := new TokenSale(owner, now, now + Month, now + 2 * Month, Supply, Price);
  }

  /** Deploys the standard sale and whitelists `buyer`. */
  method StandardWith(owner: Address, buyer: Address, now: nat) returns (sale: TokenSale)
    ensures fresh(sale) && sale.Valid() && sale.owner == owner
    ensures sale.timeStart == now + Month && sale.timeEnd == now + 2 * Month
    ensures sale.tokenSupply == Supply && sale.tokenPrice == Price
    ensures sale.whitelist == {buyer} && sale.investors == [] && sale.ownerToEthers == map[] && sale.raised == 0
    ensures sale.stage == Selling && sale.clock == now && sale.events == []
  {
    sale := Standard(owner, now);
    var r := sale.SetWhitelisted(owner, now, buyer, true);
  }

  /** Each of the constructor's four checks rejects a deployment that violates it alone. */
  method DeploymentRejections(deployer: Address, now: nat) returns (early: Deployment, empty: Deployment,
                                                                    unsupplied: Deployment, free: Deployment)
    ensures early == Rejected(StartNotInFuture)
    ensures empty == Rejected(EndNotAfterStart)
    ensures unsupplied == Rejected(NoTokensForSale)
    ensures free == Rejected(FreeToken)
  {
    early := Deploy(deployer, now, now, now + 2 * Month, Supply, Price);
    empty := Deploy(deployer, now, now + Month, now + Month, Supply, Price);
    unsupplied := Deploy(deployer, now, now + Month, now + 2 * Month, 0, Price);
    free := Deploy(deployer, now, now + Month, now + 2 * Month, Supply, 0);
  }

  /** A fresh sale belongs to its deployer, who holds the whole supply. */
  method SupplyOnOwner(deployer: Address, now: nat) returns (owner: Address, balance: nat)
    ensures owner == deployer && balance == Supply
  {
    var sale := Standard(deployer, now);
    owner := sale.owner;
    balance := sale.OwnerToTokens(deployer);
  }

  /** Only the owner may change the whitelist, and a listed address reads as whitelisted. */
  method WhitelistByOwner(owner: Address, other: Address, now: nat) returns (byOther: Outcome, byOwner: Outcome, listed: bool)
    requires other != owner
    ensures byOther == Revert(NotOwner) && byOwner == Ok && listed
  {
    var sale := Standard(owner, now);
    byOther := sale.SetWhitelisted(other, now, other, true);
    byOwner := sale.SetWhitelisted(owner, now, other, true);
    listed := sale.Whitelisted(other);
  }

  /** An address that was never whitelisted cannot buy, even inside the window. */
  method BuyUnlisted(owner: Address, buyer: Address, now: nat) returns (r: Outcome)
    ensures r == Revert(NotWhitelisted)
  {
    var sale := Standard(owner, now);
    r := sale.BuyToken(buyer, now + Month, Price);
  }

  /** Buying before the window opens is rejected. */
  method BuyBeforeStart(owner: Address, buyer: Address, now: nat) returns (r: Outcome)
    ensures r == Revert(NotStarted)
  {
    var sale := StandardWith(owner, buyer, now);
    r := sale.BuyToken(buyer, now, Price);
  }

  /** Buying one second after the window closes is rejected. */
  method BuyAfterEnd(owner: Address, buyer: Address, now: nat) returns (r: Outcome)
    ensures r == Revert(HasEnded)
  {
    var sale := StandardWith(owner, buyer, now);
    r := sale.BuyToken(buyer, sale.timeEnd + 1, Price);
  }

  /** Buying with nothing sent is rejected. */
  method BuyNothing(owner: Address, buyer: Address, now: nat) returns (r: Outcome)
    ensures r == Revert(ZeroAmount)
  {
    var sale := StandardWith(owner, buyer, now);
    r := sale.BuyToken(buyer, (sale.timeStart + sale.timeEnd) / 2, 0);
  }

  /** Sending one token's price more than the whole supply is worth is rejected. */
  method BuyBeyondSupply(owner: Address, buyer: Address, now: nat) returns (r: Outcome)
    ensures r == Revert(SupplyDepleted)
  {
    var sale := StandardWith(owner, buyer, now);
    r := sale.BuyToken(buyer, (sale.timeStart + sale.timeEnd) / 2, Price * Supply + Price);
  }

  /** A first purchase makes the buyer the first investor, with exactly what it sent. */
  method FirstPurchase(owner: Address, buyer: Address, now: nat) returns (r: Outcome, first: Option<Address>, paid: nat)
    ensures r == Ok && first == Some(buyer) && paid == Price
  {
    var sale := StandardWith(owner, buyer, now);
    r := sale.BuyToken(buyer, (sale.timeStart + sale.timeEnd) / 2, Price);
    first := sale.Investors(0);
    paid := sale.OwnerToEthers(buyer);
  }

  /** Ending the sale at the opening time is rejected. */
  method EndTooEarly(owner: Address, now: nat) returns (r: Outcome)
    ensures r == Revert(PeriodNotOver)
  {
    var sale := Standard(owner, now);
    r := sale.EndSale(sale.timeStart);
  }

  /** Ending the sale after the window succeeds once, emitting SaleEnded, and not twice. */
  method EndTwice(owner: Address, now: nat) returns (first: Outcome, second: Outcome, log: seq<Event>)
    ensures first == Ok && second == Revert(AlreadyOver) && log == [SaleEnded]
  {
    var sale := Standard(owner, now);
    first := sale.EndSale(sale.timeEnd + 1);
    second := sale.EndSale(sale.timeEnd + 1);
    log := sale.events;
  }

  /** Distributing before the sale was declared ended is rejected. */
  method DistributeTooEarly(owner: Address, now: nat) returns (r: Outcome)
    ensures r == Revert(NotOver)
  {
    var sale := Standard(owner, now);
    r := sale.DistributeTokens(now);
  }

  /** A purchase the guards of `buyToken` let through. */
  method Buy(sale: TokenSale, buyer: Address, now: nat, amount: nat)
    requires sale.Valid() && sale.clock <= now && buyer in sale.whitelist
    requires sale.timeStart <= now <= sale.timeEnd && 0 < amount && sale.raised + amount <= sale.Capacity()
    modifies sale`investors, sale`ownerToEthers, sale`raised, sale`clock
    ensures sale.Valid() && sale.raised == old(sale.raised) + amount && sale.clock == now
    ensures sale.ownerToEthers == old(sale.ownerToEthers)[buyer := Get(old(sale.ownerToEthers), buyer) + amount]
  {
    var r := sale.BuyToken(buyer, now, amount);
  }

  /** Three whitelisted investors each buy `share` in the middle of the window. */
  method ThreeBuys(owner: Address, a: Address, b: Address, c: Address, now: nat, share: nat)
    returns (sale: TokenSale)
    requires a != b && a != c && b != c && 0 < share && 3 * share <= Price * Supply
    ensures fresh(sale) && sale.Valid() && sale.owner == owner
    ensures sale.timeEnd == now + 2 * Month && sale.tokenPrice == Price
    ensures sale.stage == Selling && sale.clock <= sale.timeEnd
    ensures Get(sale.ownerToEthers, a) == share && Get(sale.ownerToEthers, b) == share
    ensures Get(sale.ownerToEthers, c) == share
  {
    sale := Standard(owner, now);
    var _ := sale.SetWhitelisted(owner, now, a, true);
    var _ := sale.SetWhitelisted(owner, now, b, true);
    var _ := sale.SetWhitelisted(owner, now, c, true);
    var middle := now + Month + Month / 2;
    Buy(sale, a, middle, share);
    Buy(sale, b, middle, share);
    Buy(sale, c, middle, share);
  }

  /**
   Three investors each send a third (rounded down) of what the supply is worth; after
   the sale ends and the tokens are distributed, each holds a third of the supply,
   rounded down, and the owner's allotment is gone.
   */
  method ThreeInvestors(owner: Address, a: Address, b: Address, c: Address, now: nat)
    returns (tokensA: nat, tokensB: nat, tokensC: nat, tokensOwner: nat)
    requires owner != a && owner != b && owner != c && a != b && a != c && b != c
    ensures tokensA == Supply / 3 && tokensB == Supply / 3 && tokensC == Supply / 3
    ensures tokensOwner == 0
  {
    var share := Price * Supply / 3;
    var sale := ThreeBuys(owner, a, b, c, now, share);
    var ended := sale.EndSale(sale.timeEnd + 1);
    var distributed := sale.DistributeTokens(sale.timeEnd + 1);
    ThirdOfValue(Price, Supply);
    tokensA := sale.OwnerToTokens(a);
    tokensB := sale.OwnerToTokens(b);
    tokensC := sale.OwnerToTokens(c);
    tokensOwner := sale.OwnerToTokens(owner);
  }

  /** With no investors at all, distribution still burns the owner's whole allotment. */
  method BurnUnsold(owner: Address, now: nat) returns (r: Outcome, balance: nat)
    ensures r == Ok && balance == 0
  {
    var sale := Standard(owner, now);
    var ended := sale.EndSale(sale.timeEnd + 1);
    r := sale.DistributeTokens(sale.timeEnd + 1);
    balance := sale.OwnerToTokens(owner);
  }
}
