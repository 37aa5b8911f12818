/** The Redis lease on a wallet: a key with an expiry, set only if absent and deleted unconditionally. */
module WalletLease {
  import opened Wrappers

  type Address = string

  const LEASE_SECONDS: int := 60

  /** The expiry of every key ever set; a key whose expiry has come is absent. Keys are wallet addresses. */
  type Keys = map<Address, int>

  predicate Leased(keys: Keys, address: Address, now: int) {
    address in keys && now < keys[address]
  }

  function SetIfAbsent(keys: Keys, address: Address, now: int): Keys {
    if Leased(keys, address, now) then keys else keys[address := now + LEASE_SECONDS]
  }

  /** What becomes of a Redis command: it may take effect although its reply is lost. */
  datatype Reach = Answers | ReplyLost | Unreachable

  class RedisLockManager {
    var keys: Keys

    constructor ()
      ensures keys == map[]
    {
      keys := map[];
    }

    method Lock(address: Address, now: int, reach: Reach) returns (locked: bool)
      modifies this
      ensures locked == (reach == Answers && !Leased(old(keys), address, now))
      ensures keys == if reach == Unreachable then old(keys) else SetIfAbsent(old(keys), address, now)
      ensures reach != Unreachable ==>
                address in keys
                && keys == old(keys)[address := if address in old(keys) && now < old(keys)[address] then old(keys)[address] else now + 60]
    {
      if reach == Unreachable {
        return false;
      }
      var absent := !(address in keys && now < keys[address]);
      if absent {
        keys := keys[address := now + LEASE_SECONDS];
      }
      return absent && reach == Answers;
    }

    method Unlock(address: Address, reach: Reach)
      modifies this
      ensures keys == if reach == Unreachable then old(keys) else old(keys) - {address}
    {
      if reach != Unreachable {
        keys := keys - {address};
      }
    }
  }

  /** When a lock attempt is made and what becomes of it. */
  datatype Attempt = Attempt(now: int, reach: Reach)

  /** The keys after the first `n` attempts. */
  function KeysAfter(keys: Keys, wallets: seq<Address>, attempts: seq<Attempt>, n: nat): Keys
    requires n <= |wallets| == |attempts|
  {
    if n == 0 then keys
    else
      var before, a := KeysAfter(keys, wallets, attempts, n - 1), attempts[n - 1];
      if a.reach == Unreachable then before else SetIfAbsent(before, wallets[n - 1], a.now)
  }

  predicate Gets(keys: Keys, wallets: seq<Address>, attempts: seq<Attempt>, i: nat)
    requires i < |wallets| == |attempts|
  {
    attempts[i].reach == Answers && !Leased(KeysAfter(keys, wallets, attempts, i), wallets[i], attempts[i].now)
  }

  /** The first attempt that gets its wallet, in the order in which the wallets are asked for. */
  predicate Takes(keys: Keys, wallets: seq<Address>, attempts: seq<Attempt>, taken: Option<nat>)
    requires |wallets| == |attempts|
  {
    && (taken.Some? ==> taken.value < |wallets| && Gets(keys, wallets, attempts, taken.value))
    && forall j | 0 <= j < (if taken.Some? then taken.value else |wallets|) :: !Gets(keys, wallets, attempts, j)
  }

  class WalletManager {
    const wallets: seq<Address>
    const locks: RedisLockManager

    constructor (wallets: seq<Address>, locks: RedisLockManager)
      ensures this.wallets == wallets && this.locks == locks
    {
      this.wallets, this.locks := wallets, locks;
    }

    /** Takes the first wallet, in iteration order, whose lease it gets; a lost reply leaves the wallet leased to nobody. */
    method Acquire(attempts: seq<Attempt>) returns (r: Option<Address>, ghost taken: Option<nat>)
      requires |attempts| == |wallets|
      modifies locks
      ensures Takes(old(locks.keys), wallets, attempts, taken)
      ensures r == if taken.Some? then Some(wallets[taken.value]) else None
      ensures locks.keys == KeysAfter(old(locks.keys), wallets, attempts, if taken.Some? then taken.value + 1 else |wallets|)
    {
      for i := 0 to |wallets|
        invariant locks.keys == KeysAfter(old(locks.keys), wallets, attempts, i)
        invariant forall j | 0 <= j < i :: !Gets(old(locks.keys), wallets, attempts, j)
      {
        var locked := locks.Lock(wallets[i], attempts[i].now, attempts[i].reach);
        if locked {
          return Some(wallets[i]), Some(i);
        }
      }
      return None, None;
    }

    method Release(wallet: Address, reach: Reach)
      modifies locks
      ensures locks.keys == if reach == Unreachable then old(locks.keys) else old(locks.keys) - {wallet}
    {
      locks.Unlock(wallet, reach);
    }
  }
}
