/** The $CTDL token ledger: minting under a cap, transfers, and locking tokens for staking. */
module Token {
  import opened Prelude
  import opened MapSums

  datatype Balance = Balance(holder: Key, available: nat, staked: nat, vesting: nat) {
    function Total(): nat { available + staked + vesting }
  }

  /** The ledger as a value: what the class below holds in its fields. */
  datatype Ledger = Ledger(supply: nat, balances: map<Key, Balance>)

  const EMPTY := Ledger(0, map[])

  function NewBalance(holder: Key): Balance { Balance(holder, 0, 0, 0) }

  function BalanceOf(l: Ledger, k: Key): Balance {
    if k in l.balances then l.balances[k] else NewBalance(k)
  }

  function StakedOf(l: Ledger, k: Key): nat { BalanceOf(l, k).staked }

  /** Adds to a holder's available balance, opening an empty balance first if needed. */
  function Credited(l: Ledger, k: Key, amount: nat): Ledger {
    var b := BalanceOf(l, k);
    l.(balances := l.balances[k := b.(available := b.available + amount)])
  }

  function Debited(l: Ledger, k: Key, amount: nat): Ledger
    requires k in l.balances && amount <= l.balances[k].available
  {
    var b := l.balances[k];
    l.(balances := l.balances[k := b.(available := b.available - amount)])
  }

  function Minted(l: Ledger, maxSupply: nat, to: Key, amount: nat): (Ledger, Result<nat>) {
    if l.supply + amount > maxSupply then
      (l, Err(InvalidAmount("Would exceed max supply")))
    else
      (Credited(l.(supply := l.supply + amount), to, amount), Ok(amount))
  }

  function Transferred(l: Ledger, from: Key, to: Key, amount: nat): (Ledger, Result<nat>) {
    if from !in l.balances then
      (l, Err(InvalidAmount("Sender has no balance")))
    else if l.balances[from].available < amount then
      (l, Err(InvalidAmount("Insufficient available balance")))
    else
      (Credited(Debited(l, from, amount), to, amount), Ok(amount))
  }

  function Locked(l: Ledger, k: Key, amount: nat): (Ledger, Result<nat>) {
    if k !in l.balances then
      (l, Err(InvalidAmount("Holder has no balance")))
    else if l.balances[k].available < amount then
      (l, Err(InvalidAmount("Insufficient available balance")))
    else
      var b := l.balances[k];
      var moved := b.(available := b.available - amount, staked := b.staked + amount);
      (l.(balances := l.balances[k := moved]), Ok(amount))
  }

  function Unlocked(l: Ledger, k: Key, amount: nat): (Ledger, Result<nat>) {
    if k !in l.balances then
      (l, Err(InvalidAmount("Holder has no balance")))
    else if l.balances[k].staked < amount then
      (l, Err(InvalidAmount("Insufficient staked balance")))
    else
      var b := l.balances[k];
      var moved := b.(available := b.available + amount, staked := b.staked - amount);
      (l.(balances := l.balances[k := moved]), Ok(amount))
  }

  // ---------- conservation ----------

  ghost function Totals(l: Ledger): map<Key, int> {
    map k | k in l.balances :: l.balances[k].Total()
  }

  ghost function Stakes(l: Ledger): map<Key, int> {
    map k | k in l.balances :: l.balances[k].staked
  }

  ghost predicate HoldersMatch(l: Ledger) {
    forall k :: k in l.balances ==> l.balances[k].holder == k
  }

  /** Every unit minted sits in exactly one balance, and the cap holds. */
  ghost predicate LedgerInv(l: Ledger, maxSupply: nat) {
    Sum(Totals(l)) == l.supply <= maxSupply && HoldersMatch(l)
  }

  lemma SetBalance(l: Ledger, k: Key, b: Balance)
    ensures Sum(Totals(l.(balances := l.balances[k := b])))
         == Sum(Totals(l)) - BalanceOf(l, k).Total() + b.Total()
  {
    assert Totals(l.(balances := l.balances[k := b])) == Totals(l)[k := b.Total()];
    SumUpdate(Totals(l), k, b.Total());
  }

  lemma CreditAdds(l: Ledger, k: Key, amount: nat)
    requires HoldersMatch(l)
    ensures HoldersMatch(Credited(l, k, amount))
    ensures Sum(Totals(Credited(l, k, amount))) == Sum(Totals(l)) + amount
  {
    SetBalance(l, k, Credited(l, k, amount).balances[k]);
  }

  lemma DebitTakes(l: Ledger, k: Key, amount: nat)
    requires HoldersMatch(l)
    requires k in l.balances && amount <= l.balances[k].available
    ensures HoldersMatch(Debited(l, k, amount))
    ensures Sum(Totals(Debited(l, k, amount))) == Sum(Totals(l)) - amount
  {
    SetBalance(l, k, Debited(l, k, amount).balances[k]);
  }

  lemma MintConserves(l: Ledger, maxSupply: nat, to: Key, amount: nat)
    requires LedgerInv(l, maxSupply)
    ensures var (l', r) := Minted(l, maxSupply, to, amount);
      && LedgerInv(l', maxSupply)
      && (r.Ok? <==> Sum(Totals(l)) + amount <= maxSupply)
      && (r.Ok? ==> l'.supply == l.supply + amount)
      && (r.Err? ==> l' == l)
  {
    var raised := l.(supply := l.supply + amount);
    assert Totals(raised) == Totals(l);
    CreditAdds(raised, to, amount);
  }

  /** A mint pays its recipient and nobody else. */
  lemma MintPays(l: Ledger, maxSupply: nat, to: Key, amount: nat, other: Key)
    ensures var (l', r) := Minted(l, maxSupply, to, amount);
      && (r.Ok? ==> r.value == amount)
      && (r.Ok? ==> BalanceOf(l', to) == BalanceOf(l, to).(available := BalanceOf(l, to).available + amount))
      && (other != to ==> BalanceOf(l', other) == BalanceOf(l, other))
  {}

  /** A transfer, also to oneself, neither creates nor loses tokens. */
  lemma TransferConserves(l: Ledger, maxSupply: nat, from: Key, to: Key, amount: nat)
    requires LedgerInv(l, maxSupply)
    ensures LedgerInv(Transferred(l, from, to, amount).0, maxSupply)
  {
    if from in l.balances && amount <= l.balances[from].available {
      DebitTakes(l, from, amount);
      CreditAdds(Debited(l, from, amount), to, amount);
    }
  }

  /** Who gains and who loses by a transfer; paying oneself changes nothing. */
  lemma TransferMoves(l: Ledger, from: Key, to: Key, amount: nat, other: Key)
    ensures var (l', r) := Transferred(l, from, to, amount);
      && (r.Ok? <==> from in l.balances && amount <= BalanceOf(l, from).available)
      && (r.Err? || from == to ==> l' == l)
      && (r.Ok? ==> r.value == amount)
      && (r.Ok? && from != to ==>
            && BalanceOf(l', from).available == BalanceOf(l, from).available - amount
            && BalanceOf(l', to).available == BalanceOf(l, to).available + amount)
      && StakedOf(l', other) == StakedOf(l, other)
      && (other != from && other != to ==> BalanceOf(l', other) == BalanceOf(l, other))
  {
    if from == to {
      assert Transferred(l, from, to, amount).0.balances == l.balances;
    }
  }

  lemma LockConserves(l: Ledger, maxSupply: nat, k: Key, amount: nat)
    requires LedgerInv(l, maxSupply)
    ensures LedgerInv(Locked(l, k, amount).0, maxSupply)
    ensures LedgerInv(Unlocked(l, k, amount).0, maxSupply)
  {
    var locked, unlocked := Locked(l, k, amount).0, Unlocked(l, k, amount).0;
    if k in l.balances {
      SetBalance(l, k, locked.balances[k]);
      SetBalance(l, k, unlocked.balances[k]);
      assert locked == l.(balances := l.balances[k := locked.balances[k]]);
      assert unlocked == l.(balances := l.balances[k := unlocked.balances[k]]);
    }
  }

  /** Locking and unlocking move an amount between a holder's two balances, if it is there. */
  lemma LockMoves(l: Ledger, k: Key, amount: nat, other: Key)
    ensures Locked(l, k, amount).1.Ok? <==> k in l.balances && amount <= BalanceOf(l, k).available
    ensures Unlocked(l, k, amount).1.Ok? <==> k in l.balances && amount <= BalanceOf(l, k).staked
    ensures Locked(l, k, amount).1.Ok? ==>
      var b := BalanceOf(Locked(l, k, amount).0, k);
      && b.Total() == BalanceOf(l, k).Total() && b.vesting == BalanceOf(l, k).vesting
      && b.staked == BalanceOf(l, k).staked + amount
    ensures other != k ==>
      && BalanceOf(Locked(l, k, amount).0, other) == BalanceOf(l, other)
      && BalanceOf(Unlocked(l, k, amount).0, other) == BalanceOf(l, other)
  {}

  /** Locking and unlocking undo each other exactly. */
  lemma UnlockUndoesLock(l: Ledger, k: Key, amount: nat)
    ensures Locked(l, k, amount).1.Ok? ==> Unlocked(Locked(l, k, amount).0, k, amount) == (l, Ok(amount))
    ensures Unlocked(l, k, amount).1.Ok? ==> Locked(Unlocked(l, k, amount).0, k, amount) == (l, Ok(amount))
  {
    if Locked(l, k, amount).1.Ok? {
      assert Unlocked(Locked(l, k, amount).0, k, amount).0.balances == l.balances;
    }
    if Unlocked(l, k, amount).1.Ok? {
      assert Locked(Unlocked(l, k, amount).0, k, amount).0.balances == l.balances;
    }
  }

  /** The supply is what is available, what is staked and what is vesting, over all holders. */
  lemma SupplyIsWhatIsHeld(l: Ledger, maxSupply: nat)
    requires LedgerInv(l, maxSupply)
    ensures l.supply == Sum(map k | k in l.balances :: l.balances[k].available)
                      + Sum(Stakes(l)) + Sum(map k | k in l.balances :: l.balances[k].vesting)
  {
    var available := map k | k in l.balances :: l.balances[k].available;
    var vesting := map k | k in l.balances :: l.balances[k].vesting;
    var unlocked := map k | k in l.balances :: l.balances[k].available + l.balances[k].vesting;
    SumLinear(unlocked, available, vesting, 1);
    SumLinear(Totals(l), unlocked, Stakes(l), 1);
  }

  /** No holder's stake, and no sum of stakes, exceeds the supply. */
  lemma StakesWithinSupply(l: Ledger, maxSupply: nat)
    requires LedgerInv(l, maxSupply)
    ensures Sum(Stakes(l)) <= l.supply
    ensures forall k :: k in l.balances ==> l.balances[k].Total() <= l.supply
  {
    SumMonotone(Stakes(l), Totals(l));
    SumBounds(Totals(l));
    forall k | k in l.balances
      ensures l.balances[k].Total() <= l.supply
    {
      assert Totals(l)[k] == l.balances[k].Total();
    }
  }

  // ---------- the token object ----------

  class CtdlToken {
    const maxSupply: nat
    var totalSupply: nat
    var balances: map<Key, Balance>

    constructor (maxSupply: nat)
      ensures this.maxSupply == maxSupply && View() == EMPTY
    {
      this.maxSupply := maxSupply;
      totalSupply, balances := 0, map[];
    }

    function View(): Ledger
      reads this
    {
      Ledger(totalSupply, balances)
    }

    method Mint(to: Key, amount: nat) returns (r: Result<nat>)
      modifies this
      ensures (View(), r) == Minted(old(View()), maxSupply, to, amount)
    {
      if totalSupply + amount > maxSupply {
        return Err(InvalidAmount("Would exceed max supply"));
      }
      totalSupply := totalSupply + amount;
      if to !in balances {
        balances := balances[to := NewBalance(to)];
      }
      var b := balances[to];
      balances := balances[to := b.(available := b.available + amount)];
      assert balances == Credited(old(View()), to, amount).balances;
      r := Ok(amount);
    }

    method Transfer(from: Key, to: Key, amount: nat) returns (r: Result<nat>)
      modifies this
      ensures (View(), r) == Transferred(old(View()), from, to, amount)
    {
      if from !in balances {
        return Err(InvalidAmount("Sender has no balance"));
      }
      var sender := balances[from];
      if sender.available < amount {
        return Err(InvalidAmount("Insufficient available balance"));
      }
      balances := balances[from := sender.(available := sender.available - amount)];
      ghost var debited := View();
      if to !in balances {
        balances := balances[to := NewBalance(to)];
      }
      var receiver := balances[to];
      balances := balances[to := receiver.(available := receiver.available + amount)];
      assert balances == Credited(debited, to, amount).balances;
      r := Ok(amount);
    }

    method Stake(holder: Key, amount: nat) returns (r: Result<nat>)
      modifies this
      ensures (View(), r) == Locked(old(View()), holder, amount)
    {
      if holder !in balances {
        return Err(InvalidAmount("Holder has no balance"));
      }
      var b := balances[holder];
      if b.available < amount {
        return Err(InvalidAmount("Insufficient available balance"));
      }
      balances := balances[holder := b.(available := b.available - amount, staked := b.staked + amount)];
      r := Ok(amount);
    }

    method Unstake(holder: Key, amount: nat) returns (r: Result<nat>)
      modifies this
      ensures (View(), r) == Unlocked(old(View()), holder, amount)
    {
      if holder !in balances {
        return Err(InvalidAmount("Holder has no balance"));
      }
      var b := balances[holder];
      if b.staked < amount {
        return Err(InvalidAmount("Insufficient staked balance"));
      }
      balances := balances[holder := b.(staked := b.staked - amount, available := b.available + amount)];
      r := Ok(amount);
    }

    /** Adds up the staked balances, in whatever order the map yields them. */
    method TotalStaked() returns (total: nat)
      ensures total == Sum(Stakes(View()))
    {
      total := 0;
      var rest := balances.Keys;
      assert Only(Stakes(View()), rest) == Stakes(View());
      while rest != {}
        invariant rest <= balances.Keys
        invariant total + Sum(Only(Stakes(View()), rest)) == Sum(Stakes(View()))
        decreases rest
      {
        var k :| k in rest;
        ghost var todo := Only(Stakes(View()), rest);
        SumDrop(todo, k);
        assert todo - {k} == Only(Stakes(View()), rest - {k});
        total := total + balances[k].staked;
        rest := rest - {k};
      }
      assert Only(Stakes(View()), rest) == map[];
    }
  }
}
