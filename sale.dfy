/**
 The `TokenSale` contract: a fixed supply of tokens, pre-loaded on the owner's balance,
 is sold at a fixed price to whitelisted buyers during a time window; once the window
 has passed the sale is declared ended, and then the tokens are distributed to the
 investors in the order they first bought.

 Block time is the `now` argument of each call. The ghost field `clock` is the latest
 block time a call has succeeded at; block time never runs backwards, so every call
 requires `now >= clock`.
 */
module Sale {
  import opened Ledger
  import opened Distribution

  /** The reasons a call reverts, one per revert message of the contract. */
  datatype Error =
    | StartNotInFuture    // "Start of the sale must be in the future"
    | EndNotAfterStart    // "End of the sale must come after the start"
    | NoTokensForSale     // "There must be more than 0 tokens for sale"
    | FreeToken           // "Price of the token must be more than 0"
    | NotOwner            // "Only owner can access this function"
    | NotWhitelisted      // "You should be whitelisted to call this function"
    | NotStarted          // "Sale has not started"
    | HasEnded            // "Sale has ended"
    | ZeroAmount          // "Sent amount should be above 0"
    | SupplyDepleted      // "The supply was depleted"
    | PeriodNotOver       // "Sale period is not over yet"
    | AlreadyOver         // "The sale is already over"
    | NotOver             // "The sale is not over yet"

  /** A call either completes or reverts with a reason, changing nothing. */
  datatype Outcome = Ok | Revert(reason: Error)

  datatype Option<T> = None | Some(value: T)

  /** The stored phase of the sale; whether a `Selling` sale has started is read off the clock. */
  datatype Stage = Selling | Ended | Distributed

  datatype Event = SaleEnded

  /** The constructor's checks, in order: the first one violated is the revert reason. */
  function ValidateTerms(now: nat, timeStart: nat, timeEnd: nat, tokenSupply: nat, tokenPrice: nat): (r: Outcome)
    ensures r == Ok <==> now < timeStart < timeEnd && tokenSupply > 0 && tokenPrice > 0
    ensures r == Revert(StartNotInFuture) <==> timeStart <= now
    ensures r == Revert(EndNotAfterStart) <==> now < timeStart && timeEnd <= timeStart
    ensures r == Revert(NoTokensForSale) <==> now < timeStart < timeEnd && tokenSupply == 0
    ensures r == Revert(FreeToken) <==> now < timeStart < timeEnd && tokenSupply > 0 && tokenPrice == 0
  {
    if timeStart <= now then Revert(StartNotInFuture)
    else if timeEnd <= timeStart then Revert(EndNotAfterStart)
    else if tokenSupply == 0 then Revert(NoTokensForSale)
    else if tokenPrice == 0 then Revert(FreeToken)
    else Ok
  }

  /**
   The checks of `buyToken`, in order: whitelisted buyer, sale started, sale not ended,
   something sent, and what was sent fits in the value still unsold, `capacity - raised`.
   */
  function BuyGuard(whitelisted: bool, now: nat, timeStart: nat, timeEnd: nat,
                    amount: nat, raised: nat, capacity: nat): (r: Outcome)
    ensures r == Ok <==> whitelisted && timeStart <= now <= timeEnd && amount > 0 && raised + amount <= capacity
    ensures r == Revert(NotWhitelisted) <==> !whitelisted
    ensures r == Revert(NotStarted) <==> whitelisted && now < timeStart
    ensures r == Revert(HasEnded) <==> whitelisted && timeStart <= now && timeEnd < now
    ensures r == Revert(ZeroAmount) <==> whitelisted && timeStart <= now <= timeEnd && amount == 0
    ensures r == Revert(SupplyDepleted) <==>
      whitelisted && timeStart <= now <= timeEnd && amount > 0 && raised + amount > capacity
  {
    if !whitelisted then Revert(NotWhitelisted)
    else if now < timeStart then Revert(NotStarted)
    else if timeEnd < now then Revert(HasEnded)
    else if amount == 0 then Revert(ZeroAmount)
    else if raised + amount > capacity then Revert(SupplyDepleted)
    else Ok
  }

  class TokenSale {
    const owner: Address
    const timeStart: nat
    const timeEnd: nat
    const tokenSupply: nat
    const tokenPrice: nat

    var whitelist: set<Address>
    /** Every buyer, once, in the order of its first purchase. */
    var investors: seq<Address>
    /** Ether contributed, per buyer. */
    var ownerToEthers: map<Address, nat>
    /** Token balances. */
    var ownerToTokens: map<Address, nat>
    /** Ether owed back to each investor after distribution. */
    var refunds: map<Address, nat>
    /** Ether owed to the owner after distribution. */
    var proceeds: nat
    /** The sum of all contributions. */
    var raised: nat
    var stage: Stage

    ghost var clock: nat
    /** The events emitted so far. */
    var events: seq<Event>

    /** The value the whole supply sells for: the cap on contributions. */
    function Capacity(): nat
      reads this
    {
      tokenPrice * tokenSupply
    }

    ghost predicate Valid()
      reads this
    {
      && timeStart < timeEnd && tokenSupply > 0 && tokenPrice > 0
      && Book(investors, ownerToEthers)
      && raised == SumOf(investors, ownerToEthers) && raised <= Capacity()
      && (stage != Selling ==> clock > timeEnd)
      && (stage != Distributed ==> ownerToTokens == map[owner := tokenSupply] && refunds == map[] && proceeds == 0)
      && (stage == Distributed ==> Settled())
    }

    /**
     The balances after distribution: the owner's allotment is burnt, every other address
     holds the whole tokens its contribution paid for and is owed back the rest, and the
     owner's proceeds and the refunds together are what was raised.
     */
    ghost predicate Settled()
      reads this
      requires tokenPrice > 0
    {
      && Get(ownerToTokens, owner) == 0
      && (forall a {:trigger Get(ownerToTokens, a)} :: a != owner ==> Get(ownerToTokens, a) == Get(ownerToEthers, a) / tokenPrice)
      && (forall a {:trigger Get(refunds, a)} :: Get(refunds, a) == Get(ownerToEthers, a) % tokenPrice)
      && proceeds + SumOf(investors, refunds) == raised
    }

    /** The constructor, once `ValidateTerms` has passed: the whole supply is the owner's. */
    constructor (deployer: Address, now: nat, timeStart: nat, timeEnd: nat, tokenSupply: nat, tokenPrice: nat)
      requires ValidateTerms(now, timeStart, timeEnd, tokenSupply, tokenPrice) == Ok
      ensures Valid()
      ensures this.owner == deployer && this.timeStart == timeStart && this.timeEnd == timeEnd
      ensures this.tokenSupply == tokenSupply && this.tokenPrice == tokenPrice
      ensures whitelist == {} && investors == [] && ownerToEthers == map[] && raised == 0
      ensures ownerToTokens == map[deployer := tokenSupply] && refunds == map[] && proceeds == 0
      ensures stage == Selling && clock == now && now < timeStart && events == []
    {
      this.owner := deployer;
      this.timeStart := timeStart;
      this.timeEnd := timeEnd;
      this.tokenSupply := tokenSupply;
      this.tokenPrice := tokenPrice;
      whitelist := {};
      investors := [];
      ownerToEthers := map[];
      ownerToTokens := map[deployer := tokenSupply];
      refunds := map[];
      proceeds := 0;
      raised := 0;
      stage := Selling;
      clock := now;
      events := [];
    }

    /** `whitelisted(a)`: whether the owner has put `a` on the whitelist. */
    function Whitelisted(a: Address): (listed: bool)
      reads this
      ensures listed <==> a in whitelist
    {
      a in whitelist
    }

    /** `setWhitelisted(a, allowed)`, restricted to the owner. */
    method SetWhitelisted(caller: Address, now: nat, a: Address, allowed: bool) returns (r: Outcome)
      requires Valid() && now >= clock
      modifies this`whitelist, this`clock
      ensures Valid()
      ensures r == (if caller == owner then Ok else Revert(NotOwner))
      ensures r == Ok ==> Whitelisted(a) == allowed
      ensures r == Ok ==> whitelist == (if allowed then old(whitelist) + {a} else old(whitelist) - {a})
      ensures r == Ok ==> clock == now
      ensures r != Ok ==> whitelist == old(whitelist) && clock == old(clock)
    {
      if caller != owner {
        return Revert(NotOwner);
      }
      whitelist := if allowed then whitelist + {a} else whitelist - {a};
      clock := now;
      r := Ok;
    }

    /**
     `buyToken`, sending `amount` wei: on success the buyer is appended to the investors
     if it is new, and its contribution grows by `amount`. No tokens move yet.
     */
    method BuyToken(buyer: Address, now: nat, amount: nat) returns (r: Outcome)
      requires Valid() && now >= clock
      modifies this`investors, this`ownerToEthers, this`raised, this`clock
      ensures Valid()
      ensures r == BuyGuard(buyer in old(whitelist), now, timeStart, timeEnd, amount, old(raised), Capacity())
      ensures r == Ok ==> old(stage) == Selling
      ensures r == Ok ==> investors == (if buyer in old(investors) then old(investors) else old(investors) + [buyer])
      ensures r == Ok ==> ownerToEthers == old(ownerToEthers)[buyer := Get(old(ownerToEthers), buyer) + amount]
      ensures r == Ok ==> raised == old(raised) + amount && clock == now
      ensures r != Ok ==> investors == old(investors) && ownerToEthers == old(ownerToEthers)
      ensures r != Ok ==> raised == old(raised) && clock == old(clock)
    {
      r := BuyGuard(buyer in whitelist, now, timeStart, timeEnd, amount, raised, Capacity());
      if r != Ok {
        return;
      }
      assert stage == Selling;
      var book := if buyer in investors then investors else investors + [buyer];
      var paid := ownerToEthers[buyer := Get(ownerToEthers, buyer) + amount];
      Purchase(investors, ownerToEthers, buyer, amount, book, paid);
      investors, ownerToEthers, raised, clock := book, paid, raised + amount, now;
    }

    /** `endSale`: once the window has passed, the sale is declared ended, exactly once. */
    method EndSale(now: nat) returns (r: Outcome)
      requires Valid() && now >= clock
      modifies this`stage, this`events, this`clock
      ensures Valid()
      ensures r == (if now <= timeEnd then Revert(PeriodNotOver)
                    else if old(stage) != Selling then Revert(AlreadyOver)
                    else Ok)
      ensures r == Ok ==> stage == Ended && events == old(events) + [SaleEnded] && clock == now
      ensures r != Ok ==> stage == old(stage) && events == old(events) && clock == old(clock)
    {
      if now <= timeEnd {
        return Revert(PeriodNotOver);
      }
      if stage != Selling {
        return Revert(AlreadyOver);
      }
      stage := Ended;
      events := events + [SaleEnded];
      clock := now;
      r := Ok;
    }

    /**
     `distributeTokens`: walks the investors in order, granting each the whole tokens its
     contribution pays for while supply remains and recording the refund it is owed;
     then burns the owner's allotment.
     */
    method DistributeTokens(now: nat) returns (r: Outcome)
      requires Valid() && now >= clock
      modifies this`ownerToTokens, this`refunds, this`proceeds, this`stage, this`clock
      ensures Valid()
      ensures r == (if old(stage) == Ended then Ok else Revert(NotOver))
      ensures r == Ok ==> stage == Distributed && clock == now
      ensures r == Ok ==>
        ownerToTokens == Settle(investors, ownerToEthers, tokenPrice, tokenSupply, old(ownerToTokens)).tokens[owner := 0]
      ensures r == Ok ==> refunds == Settle(investors, ownerToEthers, tokenPrice, tokenSupply, old(ownerToTokens)).refunds
      ensures r == Ok ==> proceeds == Settle(investors, ownerToEthers, tokenPrice, tokenSupply, old(ownerToTokens)).proceeds
      ensures r != Ok ==> stage == old(stage) && clock == old(clock) && ownerToTokens == old(ownerToTokens)
      ensures r != Ok ==> refunds == old(refunds) && proceeds == old(proceeds)
    {
      if stage != Ended {
        return Revert(NotOver);
      }
      ghost var settled := Settle(investors, ownerToEthers, tokenPrice, tokenSupply, ownerToTokens);
      SettleMeaning(investors, ownerToEthers, tokenPrice, tokenSupply, owner, settled);
      CreditInvestors(settled);
      ownerToTokens := ownerToTokens[owner := 0];
      stage := Distributed;
      clock := now;
      r := Ok;
    }

    /**
     The loop of `distributeTokens`: credits each investor in turn, keeping the supply that
     remains in a local variable. The balances, refunds and proceeds are built on local
     copies and stored when the walk is done (the call is atomic, so nobody sees the
     intermediate states).
     */
    method CreditInvestors(ghost settled: Settlement)
      requires tokenPrice > 0
      requires settled == Settle(investors, ownerToEthers, tokenPrice, tokenSupply, ownerToTokens)
      modifies this`ownerToTokens, this`refunds, this`proceeds
      ensures ownerToTokens == settled.tokens && refunds == settled.refunds && proceeds == settled.proceeds
    {
      var book, paid := investors, ownerToEthers;
      ghost var tokens0 := ownerToTokens;
      var balances, owed, earned, remaining: nat := ownerToTokens, map[], 0, tokenSupply;
      ghost var acc := Settlement(tokens0, map[], map[], 0, tokenSupply);
      var i := 0;
      while i < |book|
        invariant 0 <= i <= |book|
        invariant acc == Progress(book, paid, tokenPrice, tokenSupply, tokens0, i)
        invariant balances == acc.tokens && owed == acc.refunds
        invariant earned == acc.proceeds && remaining == acc.left
      {
        var investor := book[i];
        var contribution := Get(paid, investor);
        var tokens := Grant(contribution, tokenPrice, remaining);
        CreditStep(acc, investor, contribution, tokenPrice, tokens);
        SameCredit(balances, acc.tokens, investor, tokens);
        acc := Credit(acc, investor, contribution, tokenPrice);
        balances := balances[investor := Get(balances, investor) + tokens];
        owed := owed[investor := contribution - tokens * tokenPrice];
        earned := earned + tokens * tokenPrice;
        remaining := remaining - tokens;
        i := i + 1;
      }
      ProgressSettles(book, paid, tokenPrice, tokenSupply, tokens0, i);
      assert book[..i] == book;
      ownerToTokens, refunds, proceeds := balances, owed, earned;
    }

    /** Once the sale has been declared ended, every purchase is rejected. */
    lemma NoPurchaseAfterEnd(buyer: Address, now: nat, amount: nat)
      requires Valid() && stage != Selling && now >= clock
      ensures BuyGuard(buyer in whitelist, now, timeStart, timeEnd, amount, raised, Capacity()) == Revert(HasEnded)
                || BuyGuard(buyer in whitelist, now, timeStart, timeEnd, amount, raised, Capacity()) == Revert(NotWhitelisted)
    {
    }

    /** `investors(i)`: the buyer whose first purchase was the `i`-th; absent past the end. */
    function Investors(i: nat): (r: Option<Address>)
      reads this
      requires Valid()
      ensures r.Some? <==> i < |investors|
      ensures r.Some? ==> OwnerToEthers(r.value) > 0
      ensures r.Some? ==> forall j :: 0 <= j < |investors| && investors[j] == r.value ==> j == i
    {
      if i < |investors| then Some(investors[i]) else None
    }

    /** `ownerToEthers(a)`: what `a` has contributed; positive exactly for the investors. */
    function OwnerToEthers(a: Address): (v: nat)
      reads this
      requires Valid()
      ensures v > 0 <==> a in investors
      ensures v <= raised
    {
      if a in investors then SumAtLeast(investors, ownerToEthers, a); Get(ownerToEthers, a)
      else Get(ownerToEthers, a)
    }

    /**
     `ownerToTokens(a)`: before distribution the owner holds the whole supply and nobody
     else holds anything; after it the owner holds nothing and every other address holds
     the whole tokens its contribution paid for.
     */
    function OwnerToTokens(a: Address): (v: nat)
      reads this
      requires Valid()
      ensures stage != Distributed ==> v == (if a == owner then tokenSupply else 0)
      ensures stage == Distributed && a == owner ==> v == 0
      ensures stage == Distributed && a != owner ==> v == OwnerToEthers(a) / tokenPrice
    {
      Get(ownerToTokens, a)
    }

    /** The ether owed back to `a`: after distribution, what its tokens did not cost. */
    function RefundOf(a: Address): (v: nat)
      reads this
      requires Valid()
      ensures stage != Distributed ==> v == 0
      ensures stage == Distributed ==> v == OwnerToEthers(a) % tokenPrice
    {
      Get(refunds, a)
    }

    /** After distribution, tokens are held by investors only and together they hold no
        more than the supply. */
    lemma SettledSupply()
      requires Valid() && stage == Distributed
      ensures forall a :: a !in investors ==> Get(ownerToTokens, a) == 0
      ensures SumOf(investors, ownerToTokens) <= tokenSupply
    {
      var r := Requested(investors, ownerToEthers, tokenPrice);
      SumWithinRequested(investors, ownerToTokens, ownerToEthers, tokenPrice);
      RequestedWithinPaid(investors, ownerToEthers, tokenPrice);
      MulCancel(r, tokenSupply, tokenPrice);
    }
  }

  /** What deploying the contract yields: a sale, or the constructor's revert reason. */
  datatype Deployment = Deployed(sale: TokenSale) | Rejected(reason: Error)

  /** Deploying: the constructor's checks, then the constructor. */
  method Deploy(deployer: Address, now: nat, timeStart: nat, timeEnd: nat, tokenSupply: nat, tokenPrice: nat)
    returns (d: Deployment)
    ensures d.Rejected? <==> ValidateTerms(now, timeStart, timeEnd, tokenSupply, tokenPrice) != Ok
    ensures d.Rejected? ==> ValidateTerms(now, timeStart, timeEnd, tokenSupply, tokenPrice) == Revert(d.reason)
    ensures d.Deployed? ==> fresh(d.sale) && d.sale.Valid() && d.sale.owner == deployer
    ensures d.Deployed? ==> d.sale.stage == Selling && d.sale.clock == now
    ensures d.Deployed? ==> d.sale.OwnerToTokens(deployer) == tokenSupply
    ensures d.Deployed? ==> d.sale.timeStart == timeStart && d.sale.timeEnd == timeEnd
    ensures d.Deployed? ==> d.sale.tokenSupply == tokenSupply && d.sale.tokenPrice == tokenPrice
    ensures d.Deployed? ==> d.sale.whitelist == {} && d.sale.investors == []
  {
    var check := ValidateTerms(now, timeStart, timeEnd, tokenSupply, tokenPrice);
    if check != Ok {
      return Rejected(check.reason);
    }
    var sale := new TokenSale(deployer, now, timeStart, timeEnd, tokenSupply, tokenPrice);
    d := Deployed(sale);
  }
}
