/**
 The settlement rule of `distributeTokens`, as a function of the purchase book.
 Investors are served in insertion order: each is granted the whole tokens its
 contribution pays for (`floor(contribution / price)`), capped by what is left of the
 supply; what the granted tokens do not cost is owed back to the investor as a refund,
 and the cost goes to the issuer's proceeds.
 */
module Distribution {
  import opened Ledger

  /** What a settlement writes: token balances, per-investor grants and refunds,
      the issuer's proceeds, and the supply left unsold. */
  datatype Settlement = Settlement(
    tokens: map<Address, nat>,
    grants: map<Address, nat>,
    refunds: map<Address, nat>,
    proceeds: nat,
    left: nat)

  /** Tokens granted for `contribution` when `left` tokens remain unsold. */
  function Grant(contribution: nat, price: nat, left: nat): (g: nat)
    requires price > 0
    ensures g <= left && g <= contribution / price
    ensures g * price <= contribution
    ensures g == contribution / price || g == left
  {
    Min(contribution / price, left)
  }

  /** Settling investor `a`, who contributed `c`, after the settlement `p` of those before it. */
  function Credit(p: Settlement, a: Address, c: nat, price: nat): (s: Settlement)
    requires price > 0
    ensures s.left <= p.left
  {
    var g := Grant(c, price, p.left);
    Settlement(p.tokens[a := Get(p.tokens, a) + g], p.grants[a := g],
               p.refunds[a := c - g * price], p.proceeds + g * price, p.left - g)
  }

  /**
   The settlement of the investors `inv`, in this order, with contributions `eth`,
   starting from the balances `tokens0` and `supply` unsold tokens.
   */
  function Settle(inv: seq<Address>, eth: map<Address, nat>, price: nat, supply: nat,
                  tokens0: map<Address, nat>): (s: Settlement)
    requires price > 0
    ensures s.left <= supply
    decreases |inv|
  {
    if inv == [] then Settlement(tokens0, map[], map[], 0, supply)
    else
      var a := inv[|inv| - 1];
      Credit(Settle(inv[..|inv| - 1], eth, price, supply, tokens0), a, Get(eth, a), price)
  }

  /** Equal balance maps stay equal when the same investor is credited the same tokens.
      Only a hint that keeps the proof of the distribution loop cheap. */
  lemma SameCredit(m1: map<Address, nat>, m2: map<Address, nat>, a: Address, g: nat)
    requires m1 == m2
    ensures m1[a := Get(m1, a) + g] == m2[a := Get(m2, a) + g]
  {
  }

  /** Crediting investor `a` grants it `g`, the tokens `c` buys from the supply left, adds
      them to its balance, owes it the change, and books the cost as proceeds. This unfolds
      `Credit` once, only to keep the proof of the distribution loop cheap. */
  lemma CreditStep(p: Settlement, a: Address, c: nat, price: nat, g: nat)
    requires price > 0 && g == Grant(c, price, p.left)
    ensures Credit(p, a, c, price)
         == Settlement(p.tokens[a := Get(p.tokens, a) + g], p.grants[a := g],
                       p.refunds[a := c - g * price], p.proceeds + g * price, p.left - g)
  {
  }

  /** The settlement of the first `k` investors of `inv`: the state `distributeTokens`
      has reached after `k` turns of its loop. It restates `Settle` by index only so that
      the loop invariant stays cheap to check; `ProgressSettles` proves the two agree. */
  function Progress(inv: seq<Address>, eth: map<Address, nat>, price: nat, supply: nat,
                    tokens0: map<Address, nat>, k: nat): (s: Settlement)
    requires price > 0 && k <= |inv|
    ensures s.left <= supply
    decreases k
  {
    if k == 0 then Settlement(tokens0, map[], map[], 0, supply)
    else Credit(Progress(inv, eth, price, supply, tokens0, k - 1), inv[k - 1], Get(eth, inv[k - 1]), price)
  }

  /** After `k` turns the loop has settled exactly the first `k` investors. */
  lemma {:induction false} ProgressSettles(inv: seq<Address>, eth: map<Address, nat>, price: nat, supply: nat,
                                           tokens0: map<Address, nat>, k: nat)
    requires price > 0 && k <= |inv|
    ensures Progress(inv, eth, price, supply, tokens0, k) == Settle(inv[..k], eth, price, supply, tokens0)
    decreases k
  {
    if k > 0 {
      ProgressSettles(inv, eth, price, supply, tokens0, k - 1);
      assert inv[..k][..k - 1] == inv[..k - 1];
    }
  }

  /** The whole tokens the investors ask for, before any cap by the supply. */
  function Requested(inv: seq<Address>, eth: map<Address, nat>, price: nat): nat
    requires price > 0
    decreases |inv|
  {
    if inv == [] then 0 else Requested(inv[..|inv| - 1], eth, price) + Get(eth, inv[|inv| - 1]) / price
  }

  /** Settlement writes a grant and a refund for exactly the listed investors, and leaves
      the balance of everyone else as it was. */
  lemma {:induction false} SettleKeys(inv: seq<Address>, eth: map<Address, nat>, price: nat, supply: nat,
                                      tokens0: map<Address, nat>, a: Address)
    requires price > 0
    ensures var s := Settle(inv, eth, price, supply, tokens0);
      (a in s.grants <==> a in inv) && (a in s.refunds <==> a in inv) &&
      (a !in inv ==> Get(s.tokens, a) == Get(tokens0, a))
    decreases |inv|
  {
    if inv != [] {
      var init := inv[..|inv| - 1];
      assert a in inv <==> a in init || a == inv[|inv| - 1];
      SettleKeys(init, eth, price, supply, tokens0, a);
    }
  }

  /** The issuer's proceeds are the price of the tokens sold. */
  lemma {:induction false} SettleProceeds(inv: seq<Address>, eth: map<Address, nat>, price: nat, supply: nat,
                                          tokens0: map<Address, nat>)
    requires price > 0
    ensures var s := Settle(inv, eth, price, supply, tokens0);
      s.proceeds == (supply - s.left) * price
    decreases |inv|
  {
    if inv != [] {
      var init := inv[..|inv| - 1];
      var p := Settle(init, eth, price, supply, tokens0);
      var g := Grant(Get(eth, inv[|inv| - 1]), price, p.left);
      SettleProceeds(init, eth, price, supply, tokens0);
      MulSub(supply - p.left + g, g, price);
      assert supply - (p.left - g) == supply - p.left + g;
    }
  }

  /** The tokens granted to distinct investors and the unsold rest make up the supply. */
  lemma {:induction false} SettleSold(inv: seq<Address>, eth: map<Address, nat>, price: nat, supply: nat,
                                      tokens0: map<Address, nat>)
    requires price > 0 && Distinct(inv)
    ensures var s := Settle(inv, eth, price, supply, tokens0);
      SumOf(inv, s.grants) + s.left == supply
    decreases |inv|
  {
    if inv != [] {
      var init := inv[..|inv| - 1];
      var a := inv[|inv| - 1];
      var p := Settle(init, eth, price, supply, tokens0);
      DistinctPrefix(inv);
      SettleSold(init, eth, price, supply, tokens0);
      assert init + [a] == inv;
      SumAppend(init, p.grants, a, Grant(Get(eth, a), price, p.left));
    }
  }

  /** Ether is conserved: the proceeds and all refunds add up to what the investors paid. */
  lemma {:induction false} SettleConservesEther(inv: seq<Address>, eth: map<Address, nat>, price: nat,
                                                supply: nat, tokens0: map<Address, nat>)
    requires price > 0 && Distinct(inv)
    ensures var s := Settle(inv, eth, price, supply, tokens0);
      s.proceeds + SumOf(inv, s.refunds) == SumOf(inv, eth)
    decreases |inv|
  {
    if inv != [] {
      var init := inv[..|inv| - 1];
      var a := inv[|inv| - 1];
      var p := Settle(init, eth, price, supply, tokens0);
      var g := Grant(Get(eth, a), price, p.left);
      DistinctPrefix(inv);
      SettleConservesEther(init, eth, price, supply, tokens0);
      assert init + [a] == inv;
      SumAppend(init, p.refunds, a, Get(eth, a) - g * price);
    }
  }

  /**
   The investor at position `k` is granted what its contribution buys, capped by the
   supply the investors before it left over: the allocation is first come, first served.
   Its grant costs its contribution minus its refund, and is added to its balance.
   */
  lemma {:induction false} SettleAt(inv: seq<Address>, eth: map<Address, nat>, price: nat, supply: nat,
                                    tokens0: map<Address, nat>, k: nat)
    requires price > 0 && Distinct(inv) && k < |inv|
    ensures var s := Settle(inv, eth, price, supply, tokens0);
      var a := inv[k];
      a in s.grants && a in s.refunds &&
      s.grants[a] == Grant(Get(eth, a), price, Settle(inv[..k], eth, price, supply, tokens0).left) &&
      s.grants[a] * price + s.refunds[a] == Get(eth, a) &&
      Get(s.tokens, a) == Get(tokens0, a) + s.grants[a]
    decreases |inv|
  {
    var init := inv[..|inv| - 1];
    if k < |inv| - 1 {
      DistinctPrefix(inv);
      SettleAt(init, eth, price, supply, tokens0, k);
      assert init[..k] == inv[..k];
      assert init[k] == inv[k];
    } else {
      assert init == inv[..k];
      DistinctPrefix(inv);
      SettleKeys(init, eth, price, supply, tokens0, inv[k]);
    }
  }

  /** The first investor is served in full, up to the whole supply. */
  lemma FirstComeFirstServed(inv: seq<Address>, eth: map<Address, nat>, price: nat, supply: nat,
                             tokens0: map<Address, nat>)
    requires price > 0 && Distinct(inv) && inv != []
    ensures var s := Settle(inv, eth, price, supply, tokens0);
      inv[0] in s.grants && s.grants[inv[0]] == Min(Get(eth, inv[0]) / price, supply)
  {
    SettleAt(inv, eth, price, supply, tokens0, 0);
    assert inv[..0] == [];
  }

  /** Whole tokens requested never cost more than was contributed. */
  lemma {:induction false} RequestedWithinPaid(inv: seq<Address>, eth: map<Address, nat>, price: nat)
    requires price > 0
    ensures Requested(inv, eth, price) * price <= SumOf(inv, eth)
    decreases |inv|
  {
    if inv != [] {
      var init := inv[..|inv| - 1];
      var c := Get(eth, inv[|inv| - 1]);
      RequestedWithinPaid(init, eth, price);
      MulSub(Requested(init, eth, price) + c / price, c / price, price);
      DivMod(c, price);
    }
  }

  /** While the requests fit in the supply, nobody is capped: each investor is granted
      exactly the tokens its contribution pays for, and the rest of the supply is unsold. */
  lemma {:induction false} SettleUncapped(inv: seq<Address>, eth: map<Address, nat>, price: nat, supply: nat,
                                          tokens0: map<Address, nat>)
    requires price > 0 && Requested(inv, eth, price) <= supply
    ensures var s := Settle(inv, eth, price, supply, tokens0);
      s.left == supply - Requested(inv, eth, price) &&
      forall a :: a in inv ==> a in s.grants && s.grants[a] == Get(eth, a) / price
    decreases |inv|
  {
    if inv != [] {
      var init := inv[..|inv| - 1];
      var last := inv[|inv| - 1];
      var p := Settle(init, eth, price, supply, tokens0);
      var s := Settle(inv, eth, price, supply, tokens0);
      assert Requested(inv, eth, price) == Requested(init, eth, price) + Get(eth, last) / price;
      SettleUncapped(init, eth, price, supply, tokens0);
      assert Grant(Get(eth, last), price, p.left) == Get(eth, last) / price;
      assert s.grants == p.grants[last := Get(eth, last) / price];
      assert s.left == p.left - Get(eth, last) / price;
      forall a | a in inv
        ensures a in s.grants && s.grants[a] == Get(eth, a) / price
      {
        if a != last {
          var k :| 0 <= k < |inv| && inv[k] == a;
          assert k < |inv| - 1 && init[k] == a;
        }
      }
    }
  }

  /**
   The purchase-time cap on value is enough: when the contributions add up to at most
   `price * supply`, every investor is granted `floor(contribution / price)` tokens and
   refunded the remainder `contribution % price`.
   */
  lemma NoRationingWithinCapacity(inv: seq<Address>, eth: map<Address, nat>, price: nat, supply: nat,
                                  tokens0: map<Address, nat>)
    requires price > 0 && Distinct(inv) && SumOf(inv, eth) <= price * supply
    ensures var s := Settle(inv, eth, price, supply, tokens0);
      forall a :: a in inv ==>
        a in s.grants && a in s.refunds &&
        s.grants[a] == Get(eth, a) / price && s.refunds[a] == Get(eth, a) % price
  {
    var r := Requested(inv, eth, price);
    RequestedWithinPaid(inv, eth, price);
    assert r <= supply by {
      MulCancel(r, supply, price);
    }
    SettleUncapped(inv, eth, price, supply, tokens0);
    var s := Settle(inv, eth, price, supply, tokens0);
    forall a | a in inv
      ensures a in s.grants && a in s.refunds &&
              s.grants[a] == Get(eth, a) / price && s.refunds[a] == Get(eth, a) % price
    {
      var k :| 0 <= k < |inv| && inv[k] == a;
      SettleAt(inv, eth, price, supply, tokens0, k);
      DivMod(Get(eth, a), price);
    }
  }

  /**
   What a settlement of a purchase book within capacity means for the contract's ledgers,
   once the owner's pre-loaded allotment is burnt: every address other than the owner
   holds `floor(paid / price)` tokens, everyone is owed `paid % price`, and the proceeds
   and the refunds add up to what was paid.
   */
  lemma SettleMeaning(inv: seq<Address>, eth: map<Address, nat>, price: nat, supply: nat, owner: Address,
                      s: Settlement)
    requires price > 0 && Book(inv, eth) && SumOf(inv, eth) <= price * supply
    requires s == Settle(inv, eth, price, supply, map[owner := supply])
    ensures Get(s.tokens[owner := 0], owner) == 0
    ensures forall a :: a != owner ==> Get(s.tokens[owner := 0], a) == Get(eth, a) / price
    ensures forall a :: Get(s.refunds, a) == Get(eth, a) % price
    ensures s.proceeds + SumOf(inv, s.refunds) == SumOf(inv, eth)
  {
    var tokens0 := map[owner := supply];
    NoRationingWithinCapacity(inv, eth, price, supply, tokens0);
    forall a
      ensures a != owner ==> Get(s.tokens[owner := 0], a) == Get(eth, a) / price
      ensures Get(s.refunds, a) == Get(eth, a) % price
    {
      SettleKeys(inv, eth, price, supply, tokens0, a);
      if a in inv {
        var k :| 0 <= k < |inv| && inv[k] == a;
        SettleAt(inv, eth, price, supply, tokens0, k);
      } else {
        assert Get(eth, a) == 0;
      }
    }
    SettleConservesEther(inv, eth, price, supply, tokens0);
  }

  /** Balances of at most `floor(paid / price)` each add up to at most the tokens requested. */
  lemma {:induction false} SumWithinRequested(inv: seq<Address>, m: map<Address, nat>, eth: map<Address, nat>,
                                              price: nat)
    requires price > 0 && forall a :: Get(m, a) <= Get(eth, a) / price
    ensures SumOf(inv, m) <= Requested(inv, eth, price)
    decreases |inv|
  {
    if inv != [] {
      SumWithinRequested(inv[..|inv| - 1], m, eth, price);
    }
  }

  /**
   Three distinct investors who each pay a third of the sale's value (`price * supply / 3`,
   rounded down) are each granted a third of the supply, rounded down.
   */
  lemma ThreeEqualShares(a: Address, b: Address, c: Address, price: nat, supply: nat,
                         tokens0: map<Address, nat>)
    requires price > 0 && a != b && b != c && a != c
    ensures var x := price * supply / 3;
      var s := Settle([a, b, c], map[a := x, b := x, c := x], price, supply, tokens0);
      a in s.grants && b in s.grants && c in s.grants &&
      s.grants[a] == supply / 3 && s.grants[b] == supply / 3 && s.grants[c] == supply / 3
  {
    var x := price * supply / 3;
    var eth := map[a := x, b := x, c := x];
    var inv := [a, b, c];
    assert inv[..2] == [a, b] && [a, b][..1] == [a] && [a][..0] == [];
    assert SumOf([a], eth) == x by { assert SumOf([], eth) == 0; }
    assert SumOf([a, b], eth) == 2 * x;
    assert SumOf(inv, eth) == 3 * x;
    NoRationingWithinCapacity(inv, eth, price, supply, tokens0);
    ThirdOfValue(price, supply);
    assert a in inv && b in inv && c in inv;
  }

  /** A third of the sale's value, rounded down, buys a third of the supply, rounded down. */
  lemma ThirdOfValue(price: nat, supply: nat)
    requires price > 0
    ensures price * supply / 3 / price == supply / 3
  {
    var q, r := supply / 3, supply % 3;
    var t := price * r;
    assert price * supply == 3 * (price * q) + t;
    assert t < 3 * price by { MulMonotone(r, 2, price); }
    DivUnique(price * supply, 3, price * q + t / 3, t % 3);
    assert t / 3 < price;
    DivUnique(price * supply / 3, price, q, t / 3);
  }

  /** Division is determined by quotient and remainder. */
  lemma DivUnique(n: nat, d: nat, q: nat, r: nat)
    requires 0 <= r < d && n == q * d + r
    ensures n / d == q
  {
    var q' := n / d;
    assert n == q' * d + n % d;
    MulSub(q + 1, 1, d);
    MulSub(q' + 1, 1, d);
    MulCancelStrict(q', q + 1, d);
    MulCancelStrict(q, q' + 1, d);
  }

  lemma MulCancelStrict(x: nat, y: nat, p: nat)
    requires p > 0
    ensures x * p < y * p ==> x < y
  {
    if y <= x {
      MulMonotone(y, x, p);
    }
  }

  lemma MulSub(x: nat, y: nat, p: nat)
    requires y <= x
    ensures (x - y) * p + y * p == x * p
  {
  }

  lemma MulMonotone(x: nat, y: nat, p: nat)
    requires x <= y
    ensures x * p <= y * p
  {
    MulSub(y, x, p);
  }

  lemma MulCancel(x: nat, y: nat, p: nat)
    requires p > 0
    ensures x * p <= y * p ==> x <= y
  {
    if y < x {
      MulMonotone(y + 1, x, p);
      MulSub(y + 1, 1, p);
    }
  }

  lemma DivMod(c: nat, p: nat)
    requires p > 0
    ensures c - (c / p) * p == c % p
  {
  }
}
