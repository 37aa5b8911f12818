/** The bracket every broadcast runs in: take a wallet, issue an id, post the message, give the wallet back. */
module Broadcaster {
  import opened Wrappers
  import opened QueryId
  import opened WalletRows
  import opened WalletLease

  datatype BroadcastError = NoAvailableWallet | QueryIdFailed(error: WrapperError) | BuildFailed | PostFailed

  /** What the outside does during one broadcast. */
  datatype Outside = Outside(
    prepareOk: bool, readAt: int, writeAt: int, readOk: bool, writeOk: bool,
    buildOk: bool, postOk: bool, release: Reach)

  function CallOf(wallet: Address, lifetime: int, o: Outside): Call {
    Call(wallet, lifetime, o.readAt, o.writeAt, o.readOk, o.writeOk)
  }

  /** The rows left once a wallet is taken. */
  function RowsLeft(rows: Rows, wallet: Address, lifetime: int, o: Outside): Rows {
    if o.prepareOk then RowsAfter(rows, CallOf(wallet, lifetime, o)) else rows
  }

  /** The messages handed to the network, with the numbers they carry. */
  function PostedBy(rows: Rows, wallet: Address, lifetime: int, o: Outside): seq<(Address, nat)> {
    var issued := Advanced(rows, CallOf(wallet, lifetime, o));
    if o.prepareOk && issued.Ok? && o.buildOk then [(wallet, Encode(issued.value))] else []
  }

  /** The leases left: that of the taken wallet is deleted. */
  function KeysLeft(keys: Keys, wallets: seq<Address>, attempts: seq<Attempt>, taken: Option<nat>, release: Reach): Keys
    requires |wallets| == |attempts| && (taken.Some? ==> taken.value < |wallets|)
  {
    if taken.None? then KeysAfter(keys, wallets, attempts, |wallets|)
    else
      var locked := KeysAfter(keys, wallets, attempts, taken.value + 1);
      if release == Unreachable then locked else locked - {wallets[taken.value]}
  }

  class TONBroadcaster {
    const manager: WalletManager
    const ids: HighLoadQueryIdDbWrapper
    var posted: seq<(Address, nat)>

    constructor (manager: WalletManager, ids: HighLoadQueryIdDbWrapper)
      ensures this.manager == manager && this.ids == ids && posted == []
    {
      this.manager, this.ids := manager, ids;
      posted := [];
    }

    /** An id is spent before the message is built, so a failure after that point loses the id, never reuses it. */
    method SendToChain(wallet: Address, timeout: nat, o: Outside) returns (r: Result<Id, BroadcastError>)
      requires wallet in manager.locks.keys     // the caller has leased it and not yet given it back
      modifies this`posted, ids.model
      ensures var issued := Advanced(old(ids.model.rows), CallOf(wallet, RowLifetime(timeout), o));
              && ids.model.rows == RowsAfter(old(ids.model.rows), CallOf(wallet, RowLifetime(timeout), o))
              && (r.Ok? <==> issued.Ok? && o.buildOk && o.postOk)
              && (r.Ok? ==> r.value == issued.value) && r != Err(NoAvailableWallet)
              && posted == old(posted) + if issued.Ok? && o.buildOk then [(wallet, Encode(issued.value))] else []
    {
      var id, c := ids.NextId(wallet, timeout, o.readAt, o.writeAt, o.readOk, o.writeOk);
      if id.Err? {
        return Err(QueryIdFailed(id.error));
      }
      if !o.buildOk {
        return Err(BuildFailed);
      }
      posted := posted + [(wallet, Encode(id.value))];
      return if o.postOk then Ok(id.value) else Err(PostFailed);
    }

    /** Every path that took a wallet deletes its lease, whatever failed in between. */
    method Broadcast(attempts: seq<Attempt>, timeout: nat, o: Outside)
      returns (r: Result<Id, BroadcastError>, ghost taken: Option<nat>)
      requires |attempts| == |manager.wallets|
      modifies this`posted, ids.model, manager.locks
      ensures Takes(old(manager.locks.keys), manager.wallets, attempts, taken)
      ensures r == Err(NoAvailableWallet) <==> taken.None?
      ensures manager.locks.keys == KeysLeft(old(manager.locks.keys), manager.wallets, attempts, taken, o.release)
      ensures taken.None? ==> posted == old(posted) && ids.model.rows == old(ids.model.rows)
      ensures taken.Some? ==>
                var w, lifetime := manager.wallets[taken.value], RowLifetime(timeout);
                && ids.model.rows == RowsLeft(old(ids.model.rows), w, lifetime, o)
                && posted == old(posted) + PostedBy(old(ids.model.rows), w, lifetime, o)
                && (r.Ok? <==> PostedBy(old(ids.model.rows), w, lifetime, o) != [] && o.postOk)
    {
      var wallet;
      wallet, taken := manager.Acquire(attempts);
      if wallet.None? {
        return Err(NoAvailableWallet), None;
      }
      if o.prepareOk {
        r := SendToChain(wallet.value, timeout, o);
      } else {
        r := Err(BuildFailed);
      }
      manager.Release(wallet.value, o.release);
    }
  }
}
