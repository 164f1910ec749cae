/** The blockchain object: its methods collect writes while they walk the chain, and move the
heads. `chainspec.dfy` says what they compute, `chainlaws.dfy` what that guarantees. */
module Blockchains {
  import opened ChainSpec

  lemma ResetStep(numbers: map<nat, Hash>, b: nat, n: nat, to: Hash, x: Hash)
    requires b <= n && n in numbers
    ensures Reset(numbers, x, b, n + 1, to) ==
      if Reset(numbers, x, b, n, to) == numbers[n] then to else Reset(numbers, x, b, n, to)
  {
    assert IsAmong(numbers, x, b, n + 1) <==> IsAmong(numbers, x, b, n) || numbers[n] == x;
  }

  lemma ResetHeadsStep(numbers: map<nat, Hash>, heads: map<Name, Hash>, b: nat, n: nat, to: Hash)
    requires b <= n && n in numbers
    ensures var was := ResetHeads(numbers, heads, b, n, to);
      ResetHeads(numbers, heads, b, n + 1, to) ==
        map name | name in was :: if was[name] == numbers[n] then to else was[name]
  {
    hide Reset;
    forall name | name in heads { ResetStep(numbers, b, n, to, heads[name]); }
  }

  lemma DeletesStep(b: nat, n: nat)
    requires b <= n
    ensures Deletes(b, n + 1) == Deletes(b, n) + [DelNumberToHash(n)]
  {
  }

  lemma NoneReset(numbers: map<nat, Hash>, heads: map<Name, Hash>, x: Hash, n: nat, to: Hash)
    ensures Deletes(n, n) == [] && ResetHeads(numbers, heads, n, n, to) == heads && Reset(numbers, x, n, n, to) == x
  {
  }

  lemma DeletesFirst(h: Header, rest: seq<Header>, x: Hash)
    ensures Deletes1([h] + rest, x) <==> h.hash == x || Deletes1(rest, x)
    ensures BlockDeletes([h] + rest) == [Op.DelBlock(h.hash, h.number)] + BlockDeletes(rest)
  {
    var hs := [h] + rest;
    assert hs[0] == h;
    if i :| 0 <= i < |rest| && rest[i].hash == x {
      assert hs[i + 1].hash == x;
    }
    if i :| 0 <= i < |hs| && hs[i].hash == x {
      assert i > 0 ==> rest[i - 1].hash == x;
    }
  }

  lemma {:induction false} LookupsAdd(walk: seq<Header>, h: Header)
    ensures Lookups(walk + [h]) ==
      Lookups(walk) + [SetNumberToHash(h.number, h.hash), SetHashToNumber(h.hash, h.number)]
  {
    if walk == [] {
      assert [] + [h] == [h];
    } else {
      LookupsAdd(walk[1..], h);
      assert (walk + [h])[1..] == walk[1..] + [h];
    }
  }

  lemma StaleAdd(db: Db, walk: seq<Header>, h: Header)
    ensures forall x :: IsStale(db, x, walk + [h]) <==>
      IsStale(db, x, walk) || (h.number > 0 && h.number in db.numberToHash && db.numberToHash[h.number] == x)
  {
    var more := walk + [h];
    assert more[|walk|] == h;
    assert forall i :: 0 <= i < |walk| ==> more[i] == walk[i];
  }

  lemma Regrouped(a: seq<Header>, h: Header, b: seq<Header>)
    ensures a + ([h] + b) == (a + [h]) + b
  {
  }

  lemma LookupsNone()
    ensures Lookups([]) == []
  {
  }

  lemma StaleNone(db: Db)
    ensures forall x :: !IsStale(db, x, [])
  {
  }

  lemma WalkEnds(db: Db, h: Header)
    requires db.Canonical(h)
    ensures Walk(db, h) == [] && WalkEnd(db, h) == h && !WalkBreaks(db, h)
  {
  }

  lemma WalkStops(db: Db, h: Header)
    requires !db.Canonical(h)
    requires h.number == 0 ||
             match db.Header(h.parentHash, h.number - 1)
             case None => true
             case Some(p) => p.number >= h.number
    ensures Walk(db, h) == [h] && WalkEnd(db, h) == h
    ensures WalkBreaks(db, h) <==> h.number > 0 && db.Header(h.parentHash, h.number - 1).None?
  {
  }

  lemma WalkGoesOn(db: Db, h: Header, p: Header)
    requires !db.Canonical(h) && h.number > 0 && db.Header(h.parentHash, h.number - 1) == Some(p) && p.number < h.number
    ensures Walk(db, h) == [h] + Walk(db, p) && WalkEnd(db, h) == WalkEnd(db, p)
    ensures WalkBreaks(db, h) == WalkBreaks(db, p)
  {
  }

  class Blockchain {
    var db: Db
    var heads: map<Name, Hash>
    var headHeaderHash: Hash
    var headBlockHash: Hash
    const validateBlocks: bool

    constructor (genesis: Header, validateBlocks: bool)
      ensures this.validateBlocks == validateBlocks
      ensures Model() == Chain(Db(map[(genesis.hash, 0) := genesis], map[0 := genesis.hash], map[genesis.hash := 0],
                                  map[(genesis.hash, 0) := genesis.difficulty]), map[], genesis.hash, genesis.hash)
    {
      db := Db(map[(genesis.hash, 0) := genesis], map[0 := genesis.hash], map[genesis.hash := 0],
               map[(genesis.hash, 0) := genesis.difficulty]);
      heads, headHeaderHash, headBlockHash, this.validateBlocks := map[], genesis.hash, genesis.hash, validateBlocks;
    }

    function Model(): Chain
      reads this
    {
      Chain(db, heads, headHeaderHash, headBlockHash)
    }

    /** Takes the canonical number of every block from `blockNumber` on away. */
    method DeleteCanonicalChainReferences(blockNumber: nat, headHash: Hash, ops: seq<Op>) returns (more: seq<Op>)
      modifies this`heads, this`headBlockHash
      ensures var m := Gap(db.numberToHash, blockNumber);
        more == ops + Deletes(blockNumber, m)
        && heads == ResetHeads(db.numberToHash, old(heads), blockNumber, m, headHash)
        && headBlockHash == Reset(db.numberToHash, old(headBlockHash), blockNumber, m, headHash)
    {
      hide Deletes, Reset, ResetHeads, IsAmong;
      ghost var m := Gap(db.numberToHash, blockNumber);
      more := ops;
      var n := blockNumber;
      NoneReset(db.numberToHash, heads, headBlockHash, n, headHash);
      while n in db.numberToHash
        invariant blockNumber <= n <= m && Gap(db.numberToHash, n) == m
        invariant more == ops + Deletes(blockNumber, n)
        invariant heads == ResetHeads(db.numberToHash, old(heads), blockNumber, n, headHash)
        invariant headBlockHash == Reset(db.numberToHash, old(headBlockHash), blockNumber, n, headHash)
        decreases m - n
      {
        var hash := db.numberToHash[n];
        more := more + [DelNumberToHash(n)];
        DeletesStep(blockNumber, n);
        ResetHeadsStep(db.numberToHash, old(heads), blockNumber, n, headHash);
        ResetStep(db.numberToHash, blockNumber, n, headHash, old(headBlockHash));
        heads := map name | name in heads :: if heads[name] == hash then headHash else heads[name];
        if headBlockHash == hash {
          headBlockHash := headHash;
        }
        n := n + 1;
      }
    }

    /** Walks from `header` down to the canonical chain; what it meets is to become canonical. */
    method WalkBack(header: Header, ops: seq<Op>)
        returns (more: seq<Op>, staleHeads: set<Name>, staleHeadBlock: bool, h: Header)
      ensures more == ops + Lookups(Walk(db, header)) && h == WalkEnd(db, header)
      ensures staleHeads == if WalkBreaks(db, header) then {} else StaleNames(Walk(db, header))
      ensures staleHeadBlock == IsStale(db, headBlockHash, Walk(db, header))
    {
      hide Walk, WalkEnd, WalkBreaks, IsStale, Lookups;
      more := ops;
      h, staleHeads, staleHeadBlock := header, {}, false;
      var broken := false;
      ghost var walk: seq<Header> := [];
      LookupsNone();
      StaleNone(db);
      while !broken && !db.Canonical(h)
        invariant walk + (if broken then [] else Walk(db, h)) == Walk(db, header)
        invariant WalkEnd(db, header) == if broken then h else WalkEnd(db, h)
        invariant !broken ==> WalkBreaks(db, header) == WalkBreaks(db, h)
        invariant more == ops + Lookups(walk)
        invariant staleHeads == if broken && WalkBreaks(db, header) then {} else StaleNames(walk)
        invariant staleHeadBlock == IsStale(db, headBlockHash, walk)
        decreases !broken, h.number
      {
        more := more + [SetNumberToHash(h.number, h.hash), SetHashToNumber(h.hash, h.number)];
        LookupsAdd(walk, h);
        StaleAdd(db, walk, h);
        ghost var before := walk;
        walk := walk + [h];
        if h.number == 0 {
          WalkStops(db, h);
          assert StaleNames(walk) == StaleNames(before);
          broken := true;
        } else {
          if h.number in db.numberToHash {
            var staleHash := db.numberToHash[h.number];
            staleHeads := staleHeads + set name | name in heads && heads[name] == staleHash;
            if headBlockHash == staleHash {
              staleHeadBlock := true;
            }
          }
          assert staleHeads == StaleNames(walk);
          var parent := db.Header(h.parentHash, h.number - 1);
          if parent.None? {
            WalkStops(db, h);
            staleHeads, broken := {}, true;
          } else if parent.value.number < h.number {
            WalkGoesOn(db, h, parent.value);
            Regrouped(before, h, Walk(db, parent.value));
            h := parent.value;
          } else {
            WalkStops(db, h);
            broken := true;
          }
        }
      }
      if !broken {
        WalkEnds(db, h);
      }
      assert walk == Walk(db, header);
    }

    function StaleNames(walk: seq<Header>): set<Name>
      reads this
    {
      set name | name in heads && IsStale(db, heads[name], walk)
    }

    method RebuildCanonical(header: Header, ops: seq<Op>) returns (more: seq<Op>)
      modifies this`heads, this`headBlockHash
      ensures more == ops + Lookups(Walk(db, header))
      ensures heads == RebuildHeads(db, old(heads), header)
      ensures headBlockHash == RebuildHeadBlock(db, old(headBlockHash), header)
    {
      hide Walk, WalkEnd, WalkBreaks, IsStale;
      var staleHeads, staleHeadBlock, end;
      more, staleHeads, staleHeadBlock, end := WalkBack(header, ops);
      heads := map name | name in heads :: if name in staleHeads then end.hash else heads[name];
      if staleHeadBlock {
        headBlockHash := end.hash;
      }
    }

    /** `None` stands for an exception; otherwise whether the canonical chain was switched over. */
    method PutBlock(block: Header) returns (reorg: Option<bool>)
      modifies this
      ensures var r := Put(old(Model()), block, validateBlocks);
        reorg == (if r.None? then None else Some(r.value.1)) && Model() == if r.None? then old(Model()) else r.value.0
    {
      if block.number == 0 {
        return None;
      }
      if validateBlocks
        && !(block.parentHash in db.hashToNumber && block.number == db.hashToNumber[block.parentHash] + 1
             && db.Header(block.parentHash, block.number - 1).Some?) {
        return None;
      }
      var dbOps := [];
      var td, currentTd, currentBlockTd := block.difficulty, 0, 0;
      if !block.pos {
        var header, head, parent := db.TdOf(headHeaderHash), db.TdOf(headBlockHash),
          db.Td(block.parentHash, block.number - 1);
        if header.None? || head.None? || parent.None? {
          return None;
        }
        currentTd, currentBlockTd := header.value, head.value;
        td := td + parent.value;
        dbOps := dbOps + [SetTd((block.hash, block.number), td)];
      }
      dbOps := dbOps + [SetHeader(block)];
      assert dbOps == BlockOps(block, if block.pos then None else Some(td));
      if block.pos || td > currentTd {
        SwitchTo(block, dbOps);
        reorg := Some(true);
      } else {
        if td > currentBlockTd {
          headBlockHash := block.hash;
        }
        dbOps := dbOps + [SetHashToNumber(block.hash, block.number)];
        db := Apply(db, dbOps);
        reorg := Some(false);
      }
    }

    method SwitchTo(block: Header, dbOps: seq<Op>)
      modifies this
      ensures Model() == Switch(old(Model()), block, dbOps)
    {
      headHeaderHash, headBlockHash := block.hash, block.hash;
      var ops := DeleteCanonicalChainReferences(block.number + 1, block.hash, dbOps);
      ops := RebuildCanonical(block, ops);
      db := Apply(db, ops);
    }

    /** Collects the deletion of a block, and, if it is canonical, of all canonical ones above;
        heads among them go to `headHash`. */
    method DelChild(block: Header, headHash: Option<Hash>, ops: seq<Op>, ghost m: nat) returns (more: seq<Op>)
      requires headHash.Some? ==> block.number < m && m == Gap(db.numberToHash, block.number)
      modifies this`headHeaderHash, this`headBlockHash
      ensures headHash == None ==>
        more == ops + BlockDeletes([block]) && headHeaderHash == old(headHeaderHash)
        && headBlockHash == old(headBlockHash)
      ensures headHash.Some? ==>
        var gone := Above(db, block, m);
        more == ops + BlockDeletes(gone)
        && headHeaderHash == (if Deletes1(gone, old(headHeaderHash)) then headHash.value else old(headHeaderHash))
        && headBlockHash == (if Deletes1(gone, old(headBlockHash)) then headHash.value else old(headBlockHash))
      decreases m - block.number
    {
      more := ops + [Op.DelBlock(block.hash, block.number)];
      assert BlockDeletes([block]) == [Op.DelBlock(block.hash, block.number)];
      if headHash == None {
        return;
      }
      ghost var rest := Above(db, block, m)[1..];
      assert Above(db, block, m) == [block] + rest;
      DeletesFirst(block, rest, headHeaderHash);
      DeletesFirst(block, rest, headBlockHash);
      DeletesFirst(block, rest, headHash.value);
      if headHeaderHash == block.hash {
        headHeaderHash := headHash.value;
      }
      if headBlockHash == block.hash {
        headBlockHash := headHash.value;
      }
      if block.number + 1 in db.numberToHash {
        var child := db.Header(db.numberToHash[block.number + 1], block.number + 1);
        if child.Some? && child.value.number == block.number + 1 {
          more := DelChild(child.value, headHash, more, m);
        }
      }
    }

    /** Returns false for an exception: the block is not there. */
    method DelBlock(blockHash: Hash) returns (ok: bool)
      modifies this
      ensures ok == Remove(old(Model()), blockHash).Some?
      ensures Model() == if ok then Remove(old(Model()), blockHash).value else old(Model())
    {
      if blockHash !in db.hashToNumber || db.Header(blockHash, db.hashToNumber[blockHash]).None? {
        return false;
      }
      var header := db.Header(blockHash, db.hashToNumber[blockHash]).value;
      var inCanonical := db.Canonical(header);
      ghost var m := Gap(db.numberToHash, header.number);
      assert [] + BlockDeletes([header]) == BlockDeletes([header]);
      assert [] + BlockDeletes(Above(db, header, m)) == BlockDeletes(Above(db, header, m));
      var ops := DelChild(header, if inCanonical then Some(header.parentHash) else None, [], m);
      if inCanonical {
        ops := DeleteCanonicalChainReferences(header.number, header.parentHash, ops);
      }
      db := Apply(db, ops);
      ok := true;
    }

    /** Known hashes end at `k`, and unknown ones begin. */
    predicate Boundary(hashes: seq<Hash>, k: nat)
      requires k <= |hashes|
      reads this
    {
      (k > 0 ==> hashes[k - 1] in db.hashToNumber) && (k < |hashes| ==> hashes[k] !in db.hashToNumber)
    }

    /** By binary search: the hashes from some boundary between known and unknown ones on; from
        the first unknown one if no known one comes after an unknown one. */
    method SelectNeededHashes(hashes: seq<Hash>) returns (needed: seq<Hash>)
      ensures exists k :: 0 <= k <= |hashes| && needed == hashes[k..] && Boundary(hashes, k)
      ensures (forall i, j :: 0 <= i < j < |hashes| && hashes[j] in db.hashToNumber ==>
        hashes[i] in db.hashToNumber) ==>
        |needed| <= |hashes|
        && (forall i :: 0 <= i < |hashes| - |needed| ==> hashes[i] in db.hashToNumber)
        && (forall i :: |hashes| - |needed| <= i < |hashes| ==> hashes[i] !in db.hashToNumber)
    {
      var max, mid, min := |hashes| - 1, 0, 0;
      while max >= min
        invariant 0 <= min <= max + 1 <= |hashes| && (max >= min ==> min <= mid <= max)
        invariant min > 0 ==> hashes[min - 1] in db.hashToNumber
        invariant max + 1 < |hashes| ==> hashes[max + 1] !in db.hashToNumber
        decreases max - min
      {
        if hashes[mid] in db.hashToNumber {
          min := mid + 1;
        } else {
          max := mid - 1;
        }
        mid := (min + max) / 2;
      }
      assert Boundary(hashes, min);
      needed := hashes[min..];
    }
  }
}
