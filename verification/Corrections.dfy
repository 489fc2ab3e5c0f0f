/** Corrections of accounts at the end of a block (`applyCorrections` and `setBalance` in
  * go/replay/state.go). The maps are walked in any order. */
module Corrections {
  import opened Options

  type Address(!new, ==)
  type Slot(!new, ==)
  type Word(!new, ==)

  type Location = (Address, Slot)

  datatype Correction = Correction(balance: Option<nat>, storage: map<Slot, Word>)

  class StateDB {
    var balances: map<Address, nat>
    var storage: map<(Address, Slot), Word>

    function GetBalance(a: Address): nat
      reads this
    {
      if a in balances then balances[a] else 0
    }

    method AddBalance(a: Address, diff: nat)
      modifies this`balances
      ensures balances == old(balances)[a := old(GetBalance(a)) + diff]
    {
      balances := balances[a := GetBalance(a) + diff];
    }

    method SubBalance(a: Address, diff: nat)
      requires diff <= GetBalance(a)
      modifies this`balances
      ensures balances == old(balances)[a := old(GetBalance(a)) - diff]
    {
      balances := balances[a := GetBalance(a) - diff];
    }

    /** `setBalance`: adds or subtracts the difference, which is never negative. */
    method SetBalance(a: Address, balance: nat)
      modifies this`balances
      ensures GetBalance(a) == balance
      ensures forall b | b != a :: GetBalance(b) == old(GetBalance(b))
    {
      var cur := GetBalance(a);
      if cur < balance {
        AddBalance(a, balance - cur);
      } else if cur > balance {
        SubBalance(a, cur - balance);
      }
    }

    method SetStorage(a: Address, slots: map<Slot, Word>)
      modifies this`storage
      ensures forall k | k in slots :: (a, k) in storage && storage[(a, k)] == slots[k]
      ensures forall p: Location | p.0 != a || p.1 !in slots :: p in storage <==> p in old(storage)
      ensures forall p: Location | (p.0 != a || p.1 !in slots) && p in storage :: storage[p] == old(storage)[p]
    {
      var todo := slots.Keys;
      while todo != {}
        invariant todo <= slots.Keys
        invariant forall k | k in slots && k !in todo :: (a, k) in storage && storage[(a, k)] == slots[k]
        invariant forall p: Location | p.0 != a || p.1 !in slots :: p in storage <==> p in old(storage)
        invariant forall p: Location | (p.0 != a || p.1 !in slots) && p in storage :: storage[p] == old(storage)[p]
      {
        var k :| k in todo;
        storage := storage[(a, k) := slots[k]];
        todo := todo - {k};
      }
    }

    /** `applyCorrections`: in whatever order, each corrected account ends with the given balance and
      * slots, and nothing else changes. */
    method ApplyCorrections(corrections: map<Address, Correction>)
      modifies this
      ensures forall a :: GetBalance(a) ==
                if a in corrections && corrections[a].balance.Some? then corrections[a].balance.value
                else old(GetBalance(a))
      ensures forall p: Location | p.0 in corrections && p.1 in corrections[p.0].storage ::
                p in storage && storage[p] == corrections[p.0].storage[p.1]
      ensures forall p: Location | p.0 !in corrections || p.1 !in corrections[p.0].storage ::
                (p in storage <==> p in old(storage)) && (p in storage ==> storage[p] == old(storage)[p])
    {
      var todo := corrections.Keys;
      while todo != {}
        invariant todo <= corrections.Keys
        invariant forall a :: GetBalance(a) ==
                    if a in corrections && a !in todo && corrections[a].balance.Some? then corrections[a].balance.value
                    else old(GetBalance(a))
        invariant forall p: Location | Corrected(corrections, p) && p.0 !in todo ::
                    p in storage && storage[p] == corrections[p.0].storage[p.1]
        invariant forall p: Location | !(Corrected(corrections, p) && p.0 !in todo) :: p in storage <==> p in old(storage)
        invariant forall p: Location | !(Corrected(corrections, p) && p.0 !in todo) && p in storage ::
                    storage[p] == old(storage)[p]
      {
        var addr :| addr in todo;
        var acc := corrections[addr];
        if acc.balance.Some? {
          SetBalance(addr, acc.balance.value);
        }
        if acc.storage != map[] {
          SetStorage(addr, acc.storage);
        }
        todo := todo - {addr};
      }
    }
  }

  predicate Corrected(corrections: map<Address, Correction>, p: Location) {
    p.0 in corrections && p.1 in corrections[p.0].storage
  }
}
