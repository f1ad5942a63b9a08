/**
 Addresses and the per-address ledgers of the sale: Solidity `mapping(address => uint)`
 storage is a `map` whose missing keys read as 0, and sums over the ordered list of
 investors are taken front to back, as the settlement loop walks them.
 */
module Ledger {

  /** An account address; only its identity matters. */
  type Address = nat

  /** Reading a Solidity mapping: an entry never written reads as 0. */
  function Get(m: map<Address, nat>, a: Address): (v: nat)
    ensures a !in m ==> v == 0
    ensures a in m ==> v == m[a]
  {
    if a in m then m[a] else 0
  }

  /** No address occurs twice in `s`. */
  predicate Distinct(s: seq<Address>) {
    forall i, j :: 0 <= i < j < |s| ==> s[i] != s[j]
  }

  /** The sum of `m`'s entries for the addresses in `s`, counted once per occurrence. */
  function SumOf(s: seq<Address>, m: map<Address, nat>): nat
    decreases |s|
  {
    if s == [] then 0 else SumOf(s[..|s| - 1], m) + Get(m, s[|s| - 1])
  }

  function Min(x: nat, y: nat): (r: nat)
    ensures r <= x && r <= y && (r == x || r == y)
  {
    if x <= y then x else y
  }

  lemma DistinctPrefix(s: seq<Address>)
    requires Distinct(s) && s != []
    ensures Distinct(s[..|s| - 1]) && s[|s| - 1] !in s[..|s| - 1]
  {
  }

  /** Appending a fresh address keeps a list distinct. */
  lemma DistinctAppend(s: seq<Address>, a: Address)
    requires Distinct(s) && a !in s
    ensures Distinct(s + [a])
  {
  }

  /** Writing the entry of an address that is not listed leaves the sum alone. */
  lemma {:induction false} SumUnaffected(s: seq<Address>, m: map<Address, nat>, a: Address, v: nat)
    requires a !in s
    ensures SumOf(s, m[a := v]) == SumOf(s, m)
    decreases |s|
  {
    if s != [] {
      assert s[|s| - 1] in s;
      SumUnaffected(s[..|s| - 1], m, a, v);
    }
  }

  /** Adding `x` to the entry of an address listed exactly once adds `x` to the sum. */
  lemma {:induction false} SumAdd(s: seq<Address>, m: map<Address, nat>, a: Address, x: nat)
    requires Distinct(s) && a in s
    ensures SumOf(s, m[a := Get(m, a) + x]) == SumOf(s, m) + x
    decreases |s|
  {
    DistinctPrefix(s);
    var init := s[..|s| - 1];
    if s[|s| - 1] == a {
      SumUnaffected(init, m, a, Get(m, a) + x);
    } else {
      assert a in init by {
        var k :| 0 <= k < |s| && s[k] == a;
        assert k < |s| - 1 && init[k] == a;
      }
      SumAdd(init, m, a, x);
    }
  }

  /** Appending a fresh address with entry `v` adds `v` to the sum. */
  lemma SumAppend(s: seq<Address>, m: map<Address, nat>, a: Address, v: nat)
    requires a !in s
    ensures SumOf(s + [a], m[a := v]) == SumOf(s, m) + v
  {
    assert (s + [a])[..|s + [a]| - 1] == s;
    SumUnaffected(s, m, a, v);
  }

  /** One listed entry is at most the sum. */
  lemma {:induction false} SumAtLeast(s: seq<Address>, m: map<Address, nat>, a: Address)
    requires a in s
    ensures Get(m, a) <= SumOf(s, m)
    decreases |s|
  {
    if s[|s| - 1] != a {
      var k :| 0 <= k < |s| && s[k] == a;
      assert s[..|s| - 1][k] == a;
      SumAtLeast(s[..|s| - 1], m, a);
    }
  }

  /** A purchase book: each investor listed once, and exactly the listed investors have
      a (positive) contribution. */
  ghost predicate Book(inv: seq<Address>, eth: map<Address, nat>) {
    && Distinct(inv)
    && (forall i :: 0 <= i < |inv| ==> inv[i] in eth && eth[inv[i]] > 0)
    && (forall a {:trigger Get(eth, a)} :: Get(eth, a) > 0 ==> a in inv)
  }

  /** Recording a purchase of `amount > 0` keeps the book well formed and adds `amount`
      to the total contributed; a new buyer goes to the end of the list. */
  lemma Purchase(inv: seq<Address>, eth: map<Address, nat>, buyer: Address, amount: nat,
                  inv': seq<Address>, eth': map<Address, nat>)
    requires Book(inv, eth) && amount > 0
    requires inv' == if buyer in inv then inv else inv + [buyer]
    requires eth' == eth[buyer := Get(eth, buyer) + amount]
    ensures Book(inv', eth') && SumOf(inv', eth') == SumOf(inv, eth) + amount
  {
    PurchaseBook(inv, eth, buyer, amount, inv', eth');
    if buyer in inv {
      SumAdd(inv, eth, buyer, amount);
    } else {
      SumAppend(inv, eth, buyer, Get(eth, buyer) + amount);
    }
  }

  lemma PurchaseBook(inv: seq<Address>, eth: map<Address, nat>, buyer: Address, amount: nat,
                     inv': seq<Address>, eth': map<Address, nat>)
    requires Book(inv, eth) && amount > 0
    requires inv' == if buyer in inv then inv else inv + [buyer]
    requires eth' == eth[buyer := Get(eth, buyer) + amount]
    ensures Book(inv', eth')
  {
    if buyer !in inv {
      DistinctAppend(inv, buyer);
    }
    forall i | 0 <= i < |inv'|
      ensures inv'[i] in eth' && eth'[inv'[i]] > 0
    {
      if inv'[i] != buyer {
        assert i < |inv| && inv'[i] == inv[i];
      }
    }
    forall a | Get(eth', a) > 0
      ensures a in inv'
    {
      if a != buyer {
        assert Get(eth', a) == Get(eth, a);
      }
    }
  }
}
