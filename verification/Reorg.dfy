/**
 * The header and vault tables (pkg/db/block.go) and the reorg handler on top of them (pkg/btc/reorg.go).
 *
 * Hashes are opaque. A header's hash is the one the indexer recomputed from its rebuilt header, which need
 * not be the hash the node reported.
 */
module Reorg {
  import opened Basics

  type Hash = Bytes
  type VaultKey = (string, string)   // chain, transaction hash

  datatype Header = Header(hash: Hash, prevHash: Hash)
  datatype VaultTx = VaultTx(chain: string, txHash: string, blockNumber: nat, body: Bytes)

  datatype Store = Store(headers: map<int, Header>, vaults: map<VaultKey, VaultTx>)

  /** Which of the two deletes of a rollback the database refuses. */
  datatype DeleteFault = NoFault | AtVaults | AtHeaders

  datatype DbError = DbError

  /** The row exists, the read succeeds and its hash texts decode. */
  predicate Readable(headers: map<int, Header>, unreadable: set<int>, height: int) {
    height in headers && height !in unreadable
  }

  function DeleteFrom(s: Store, height: int, fault: DeleteFault): Store {
    var vaults := map k | k in s.vaults && s.vaults[k].blockNumber < AsUint64(height) :: s.vaults[k];
    var headers := map h | h in s.headers && h < height :: s.headers[h];
    match fault
    case AtVaults => s
    case AtHeaders => s.(vaults := vaults)
    case NoFault => Store(headers, vaults)
  }

  /** What the handler finds out about a new block. */
  datatype Outcome = Genesis | Connected | ForkAt(height: int) | FellBack | Failed

  function Walk(headers: map<int, Header>, unreadable: set<int>, height: int, target: Hash): (o: Outcome)
    requires height in headers
    ensures o.ForkAt? || o.FellBack? || o.Failed?
    decreases Max(height + 1, 0)
  {
    if height < 0 then FellBack
    else if headers[height].hash == target then ForkAt(height)
    else if !Readable(headers, unreadable, height - 1) then Failed
    else Walk(headers, unreadable, height - 1, target)
  }

  function Detect(headers: map<int, Header>, unreadable: set<int>, height: int, prevHash: Hash): Outcome {
    if height == 0 then Genesis
    else if !Readable(headers, unreadable, height - 1) then Failed
    else if headers[height - 1].hash == prevHash then Connected
    else Walk(headers, unreadable, height - 1, prevHash)
  }

  function AfterReorg(s: Store, outcome: Outcome, fault: DeleteFault): Store {
    match outcome
    case ForkAt(h) => DeleteFrom(s, h + 1, fault)
    case FellBack => DeleteFrom(s, 1, fault)
    case _ => s
  }

  // ---------------------------------------------------------------------------------------------
  // The code

  class Database {
    var headers: map<int, Header>
    var vaults: map<VaultKey, VaultTx>

    function Contents(): Store
      reads this
    {
      Store(headers, vaults)
    }

    constructor ()
      ensures Contents() == Store(map[], map[])
    {
      headers, vaults := map[], map[];
    }

    method GetBlockHeaderByHeight(height: int, unreadable: set<int>) returns (r: Result<Header, DbError>)
      ensures r == if height in headers && height !in unreadable then Ok(headers[height]) else Err(DbError)
    {
      if height in headers && height !in unreadable {
        return Ok(headers[height]);
      }
      return Err(DbError);
    }

    /** Vault rows first, then headers: a failure in between leaves headers without vault rows, not the reverse. */
    method DeleteBlockAndTxsFromHeight(height: int, fault: DeleteFault) returns (ok: bool)
      modifies this
      ensures Contents() == DeleteFrom(old(Contents()), height, fault)
      ensures vaults == if fault == AtVaults then old(vaults)
                        else map k | k in old(vaults) && old(vaults)[k].blockNumber < AsUint64(height) :: old(vaults)[k]
      ensures headers == if fault != NoFault then old(headers) else map h | h in old(headers) && h < height :: old(headers)[h]
      ensures ok <==> fault == NoFault
    {
      if fault == AtVaults {
        return false;
      }
      vaults := map k | k in vaults && vaults[k].blockNumber < AsUint64(height) :: vaults[k];
      if fault == AtHeaders {
        return false;
      }
      headers := map h | h in headers && h < height :: headers[h];
      return true;
    }

    method FindForkPoint(tipHeight: int, tip: Header, target: Hash, unreadable: set<int>)
      returns (r: Result<int, DbError>)
      requires tipHeight in headers && headers[tipHeight] == tip
      ensures r == match Walk(headers, unreadable, tipHeight, target)
                   case ForkAt(h) => Ok(h)
                   case FellBack => Ok(0)
                   case _ => Err(DbError)
    {
      var height, current := tipHeight, tip;
      while height >= 0
        invariant height in headers && headers[height] == current
        invariant Walk(headers, unreadable, tipHeight, target) == Walk(headers, unreadable, height, target)
        decreases height + 1
      {
        if current.hash == target {
          return Ok(height);
        }
        var next := GetBlockHeaderByHeight(height - 1, unreadable);
        if next.Err? {
          return Err(next.error);
        }
        current, height := next.value, height - 1;
      }
      return Ok(0);
    }

    method DetectAndHandleReorg(height: int, prevHash: Hash, unreadable: set<int>, fault: DeleteFault)
      returns (ok: bool)
      modifies this
      ensures var outcome := Detect(old(headers), unreadable, height, prevHash);
        && Contents() == AfterReorg(old(Contents()), outcome, fault)
        && (ok <==> !outcome.Failed? && (outcome.ForkAt? || outcome.FellBack? ==> fault == NoFault))
    {
      if height == 0 {
        return true;
      }
      var tip := GetBlockHeaderByHeight(height - 1, unreadable);
      if tip.Err? {
        return false;
      }
      if tip.value.hash == prevHash {
        return true;
      }
      var fork := FindForkPoint(height - 1, tip.value, prevHash, unreadable);
      if fork.Err? {
        return false;
      }
      ok := DeleteBlockAndTxsFromHeight(fork.value + 1, fault);
    }
  }

  // ---------------------------------------------------------------------------------------------
  // What the outcome means

  /** All heights from `h` to `tip` can be read and `h` is where the new block's predecessor is stored. */
  predicate Anchor(headers: map<int, Header>, unreadable: set<int>, tip: int, target: Hash, h: int) {
    && 0 <= h <= tip
    && (forall k :: h <= k <= tip ==> Readable(headers, unreadable, k))
    && h in headers && headers[h].hash == target
  }

  ghost predicate HasAnchor(headers: map<int, Header>, unreadable: set<int>, tip: int, target: Hash) {
    exists h :: Anchor(headers, unreadable, tip, target, h)
  }

  ghost predicate GreatestAnchor(headers: map<int, Header>, unreadable: set<int>, tip: int, target: Hash, h: int) {
    && Anchor(headers, unreadable, tip, target, h)
    && forall k :: Anchor(headers, unreadable, tip, target, k) ==> k <= h
  }

  /** The walk back runs through heights 0 and -1 without a match. */
  predicate Exhausted(headers: map<int, Header>, unreadable: set<int>, tip: int, target: Hash) {
    && (forall k :: Min(tip, -1) <= k <= tip ==> Readable(headers, unreadable, k))
    && (forall k :: 0 <= k <= tip ==> Readable(headers, unreadable, k) && headers[k].hash != target)
  }

  lemma {:induction false} WalkMeaning(headers: map<int, Header>, unreadable: set<int>, tip: int, target: Hash)
    requires Readable(headers, unreadable, tip)
    ensures var o := Walk(headers, unreadable, tip, target);
      && (o.ForkAt? ==> GreatestAnchor(headers, unreadable, tip, target, o.height))
      && (o.ForkAt? <==> HasAnchor(headers, unreadable, tip, target))
      && (o.FellBack? <==> Exhausted(headers, unreadable, tip, target))
    decreases Max(tip + 1, 0)
  {
    var o := Walk(headers, unreadable, tip, target);
    if tip < 0 {
    } else {
      if headers[tip].hash == target {
        assert Anchor(headers, unreadable, tip, target, tip);
      } else if Readable(headers, unreadable, tip - 1) {
        WalkMeaning(headers, unreadable, tip - 1, target);
        forall h ensures Anchor(headers, unreadable, tip, target, h) <==> Anchor(headers, unreadable, tip - 1, target, h) {
        }
        assert Exhausted(headers, unreadable, tip - 1, target) ==> Exhausted(headers, unreadable, tip, target);
      }
    }
  }

  /**
   * The handler characterised, for every table, height H and read faults. H = 0 is not checked. Otherwise the block
   * connects if row H-1 can be read and has the wanted hash; else, for H > 0, it is tied to the greatest h <= H-1
   * that stores its predecessor and from which every row up to H-1 can be read; the genesis fallback is taken exactly
   * if the walk runs past height 0, for which height -1 must be stored, or H itself is negative; else it fails.
   */
  lemma {:induction false} DetectMeaning(headers: map<int, Header>, unreadable: set<int>, height: int, prevHash: Hash)
    ensures var o := Detect(headers, unreadable, height, prevHash);
      var tip := height - 1;
      && (o == Genesis <==> height == 0)
      && (o == Connected <==> height != 0 && Readable(headers, unreadable, tip) && headers[tip].hash == prevHash)
      && (o.ForkAt? <==> height > 0 && o != Connected && HasAnchor(headers, unreadable, tip, prevHash))
      && (o.ForkAt? ==> o.height < tip && GreatestAnchor(headers, unreadable, tip, prevHash, o.height))
      && (o == FellBack <==> height != 0 && o != Connected && Exhausted(headers, unreadable, tip, prevHash))
      && (o == FellBack && height > 0 ==> -1 in headers)
      && (height > 0 && o == Connected ==> HasAnchor(headers, unreadable, tip, prevHash))
  {
    var tip := height - 1;
    if height != 0 && Readable(headers, unreadable, tip) {
      WalkMeaning(headers, unreadable, tip, prevHash);
      if headers[tip].hash == prevHash && height > 0 {
        assert Anchor(headers, unreadable, tip, prevHash, tip);
      }
    }
    if height > 0 && Exhausted(headers, unreadable, tip, prevHash) {
      assert Readable(headers, unreadable, -1);
    }
  }

  predicate NoNegative(headers: map<int, Header>) {
    forall h :: h in headers ==> 0 <= h < TWO_63
  }

  /**
   * On a table of real heights: success is exactly the existence of an anchor, the store changes only in a
   * rollback, and a rollback keeps exactly the rows up to the fork in both tables.
   */
  lemma {:induction false} ReorgOutcome(s: Store, unreadable: set<int>, height: int, prevHash: Hash)
    requires height > 0 && NoNegative(s.headers)
    ensures var o := Detect(s.headers, unreadable, height, prevHash);
            var s' := AfterReorg(s, o, NoFault);
      && o != FellBack
      && (o != Failed <==> HasAnchor(s.headers, unreadable, height - 1, prevHash))
      && (!o.ForkAt? ==> s' == s)
      && (o.ForkAt? ==>
            && s'.headers == (map h | h in s.headers && h <= o.height :: s.headers[h])
            && s'.vaults == (map k | k in s.vaults && s.vaults[k].blockNumber <= o.height :: s.vaults[k]))
  {
    DetectMeaning(s.headers, unreadable, height, prevHash);
    var o := Detect(s.headers, unreadable, height, prevHash);
    if o.ForkAt? {
      assert Readable(s.headers, unreadable, o.height);
      assert AsUint64(o.height + 1) == o.height + 1;
      var s' := AfterReorg(s, o, NoFault);
      assert s'.headers == map h | h in s.headers && h <= o.height :: s.headers[h];
      assert s'.vaults == map k | k in s.vaults && s.vaults[k].blockNumber <= o.height :: s.vaults[k];
    }
  }

  /**
   * If no stored hash is the predecessor the new block names -- as when recomputed hashes never equal the node's --
   * the handler fails for every height above 0 and never rolls anything back.
   */
  lemma {:induction false} ForeignHashesDisableRollback(s: Store, unreadable: set<int>, height: int, prevHash: Hash, fault: DeleteFault)
    requires height > 0 && NoNegative(s.headers)
    requires forall h :: h in s.headers ==> s.headers[h].hash != prevHash
    ensures Detect(s.headers, unreadable, height, prevHash) == Failed
    ensures AfterReorg(s, Detect(s.headers, unreadable, height, prevHash), fault) == s
  {
    ReorgOutcome(s, unreadable, height, prevHash);
  }
}
