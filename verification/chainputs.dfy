/** When putting a block succeeds and what it decides; and what a run of puts comes to. */
module ChainPuts {
  import opened ChainSpec
  import opened ChainLaws

  /** A stored parent is known under its number, and has a total difficulty if the head has one. */
  lemma ParentFacts(s: Chain, h: Header)
    requires Sound(s) && h.number > 0
    ensures ParentKnown(s, h) <==> Anchored(s.db, h)
    ensures s.db.TdOf(s.headHeader).Some? ==> (s.db.Td(h.parentHash, h.number - 1).Some? <==> Anchored(s.db, h))
    ensures s.headBlock == s.headHeader
  {
    hide Sound;
    SoundHead(s);
    if Anchored(s.db, h) {
      SoundEntry(s, h.parentHash, h.number - 1);
    } else if (h.parentHash, h.number - 1) in s.db.td {
      TdEntry(s, h.parentHash, h.number - 1);
      assert false;
    }
  }

  lemma SoundHead(s: Chain)
    requires Sound(s)
    ensures s.headBlock == s.headHeader
  {
  }

  lemma SoundEntry(s: Chain, x: Hash, k: nat)
    requires Sound(s) && (x, k) in s.db.headers
    ensures StoredAt(s.db, x, k)
    ensures s.db.TdOf(s.headHeader).Some? ==> HasTd(s.db, x, k)
  {
    hide StoredAt, HasTd, IsChain, OnChain;
  }

  lemma TdEntry(s: Chain, x: Hash, k: nat)
    requires Sound(s) && (x, k) in s.db.td
    ensures (x, k) in s.db.headers
  {
    hide StoredAt, HasTd, IsChain, OnChain;
  }

  /** Exactly when a put succeeds, and exactly when it switches the chain over: a block under proof of
      stake always does both, unless its parent is missing and blocks are validated; any other block
      needs its parent stored and a head with a total difficulty, and becomes the head if it is
      heavier. */
  lemma PutExactly(s: Chain, h: Header, validate: bool)
    requires Sound(s) && Names(s.db, h) && h.number > 0
    ensures Put(s, h, validate).Some? <==>
      if h.pos then !validate || Anchored(s.db, h) else Anchored(s.db, h) && s.db.TdOf(s.headHeader).Some?
    ensures Put(s, h, validate).Some? ==>
      (Put(s, h, validate).value.1 <==>
        h.pos || s.db.td[(h.parentHash, h.number - 1)] + h.difficulty > s.db.TdOf(s.headHeader).value)
  {
    hide Switch, Store, ParentKnown, Anchored, Sound, Names;
    ParentFacts(s, h);
  }

  /** A block zero is never put. */
  lemma GenesisRefused(s: Chain, h: Header, validate: bool)
    requires h.number == 0
    ensures Put(s, h, validate) == None
  {
  }

  /** The total difficulty of a new block is that of its parent and its own, and no other changes. */
  lemma PutWeighs(s: Chain, h: Header, validate: bool)
    requires Sound(s) && Names(s.db, h) && Put(s, h, validate).Some? && !h.pos
    ensures h.number > 0 && (h.parentHash, h.number - 1) in s.db.td
    ensures Put(s, h, validate).value.0.db.td ==
      s.db.td[(h.hash, h.number) := s.db.td[(h.parentHash, h.number - 1)] + h.difficulty]
  {
    hide Switch, Store, Sound, Names, Anchored, Inv, Forks, Followed;
    var td := NewTd(s, h).value;
    PutExactly(s, h, validate);
    SoundInv(s);
    if td > s.db.TdOf(s.headHeader).value {
      var fork := SwitchKeeps(s, h, Some(td));
    } else {
      StoreFrame(s, h, td);
    }
  }

  lemma SoundInv(s: Chain)
    requires Sound(s)
    ensures Inv(s)
  {
  }

  // ---- Runs of puts ----

  /** What a run comes to, without any database: the blocks delivered after their parent, in that
      order, and the total difficulty of each. */
  datatype Ledger = Ledger(kept: seq<Header>, weight: map<Hash, nat>)

  predicate HasParent(l: Ledger, h: Header) {
    h.number > 0 && exists p :: p in l.kept && p.hash == h.parentHash && p.number == h.number - 1
  }

  function Deliver(l: Ledger, h: Header): Ledger {
    if HasParent(l, h) && h.parentHash in l.weight then
      Ledger(l.kept + [h], l.weight[h.hash := l.weight[h.parentHash] + h.difficulty])
    else l
  }

  function LedgerOf(g: Header, events: seq<Event>): Ledger {
    if events == [] then Ledger([g], map[g.hash := g.difficulty])
    else
      var l := LedgerOf(g, events[..|events| - 1]);
      match events[|events| - 1]
      case Block(h) => Deliver(l, h)
      case Advance(_) => l
  }

  /** The first of the heaviest. */
  ghost predicate FirstHeaviest(l: Ledger, hash: Hash) {
    && (forall i :: 0 <= i < |l.kept| ==> l.kept[i].hash in l.weight)
    && exists j :: 0 <= j < |l.kept| && l.kept[j].hash == hash && Leads(l, j)
  }

  ghost predicate Leads(l: Ledger, j: nat)
    requires j < |l.kept| && forall i :: 0 <= i < |l.kept| ==> l.kept[i].hash in l.weight
  {
    && (forall i :: 0 <= i < j ==> l.weight[l.kept[i].hash] < l.weight[l.kept[j].hash])
    && (forall i :: j < i < |l.kept| ==> l.weight[l.kept[i].hash] <= l.weight[l.kept[j].hash])
  }

  /** The database holds just the blocks of the ledger, with their total difficulties, and the head
      is the first of the heaviest. */
  ghost predicate Matches(s: Chain, l: Ledger) {
    && (forall h :: IsStored(s.db, h) <==> h in l.kept)
    && (forall h :: h in l.kept ==> h.hash in l.weight && s.db.Td(h.hash, h.number) == Some(l.weight[h.hash]))
    && FirstHeaviest(l, s.headHeader)
  }

  lemma SameParent(s: Chain, l: Ledger, h: Header)
    requires Sound(s) && Matches(s, l) && h.number > 0
    ensures HasParent(l, h) <==> Anchored(s.db, h)
    ensures HasParent(l, h) ==>
      h.parentHash in l.weight && s.db.Td(h.parentHash, h.number - 1) == Some(l.weight[h.parentHash])
  {
    hide Sound, FirstHeaviest;
    if Anchored(s.db, h) {
      SoundEntry(s, h.parentHash, h.number - 1);
      assert IsStored(s.db, s.db.headers[(h.parentHash, h.number - 1)]);
    }
    if p :| p in l.kept && p.hash == h.parentHash && p.number == h.number - 1 {
      assert IsStored(s.db, p);
    }
  }

  /** The head weighs what the ledger says. */
  lemma HeadWeight(s: Chain, l: Ledger)
    requires Sound(s) && Matches(s, l)
    ensures s.headHeader in l.weight && s.db.TdOf(s.headHeader) == Some(l.weight[s.headHeader])
  {
    hide Sound, Leads;
    var j :| 0 <= j < |l.kept| && l.kept[j].hash == s.headHeader;
    assert l.kept[j] in l.kept && IsStored(s.db, l.kept[j]);
    SoundEntry(s, l.kept[j].hash, l.kept[j].number);
  }

  lemma DeliverMatches(s: Chain, s': Chain, l: Ledger, h: Header)
    requires Sound(s) && Matches(s, l) && Names(s.db, h) && HasParent(l, h)
    requires s'.db.headers == s.db.headers[(h.hash, h.number) := h]
    requires (h.parentHash, h.number - 1) in s.db.td
    requires s'.db.td == s.db.td[(h.hash, h.number) := s.db.td[(h.parentHash, h.number - 1)] + h.difficulty]
    ensures var l' := Deliver(l, h);
      && (forall x :: IsStored(s'.db, x) <==> x in l'.kept)
      && (forall x :: x in l'.kept ==> x.hash in l'.weight && s'.db.Td(x.hash, x.number) == Some(l'.weight[x.hash]))
  {
    hide Sound, FirstHeaviest, HasParent;
    SameParent(s, l, h);
    var l' := Deliver(l, h);
    forall x ensures IsStored(s'.db, x) <==> x in l'.kept {
      StoredAfter(s.db, s'.db, h, x);
    }
    forall x | x in l'.kept ensures x.hash in l'.weight && s'.db.Td(x.hash, x.number) == Some(l'.weight[x.hash]) {
      if x != h {
        assert IsStored(s.db, x);
      }
    }
  }

  lemma StoredAfter(db: Db, db': Db, h: Header, x: Header)
    requires Names(db, h) && db'.headers == db.headers[(h.hash, h.number) := h]
    ensures IsStored(db', x) <==> IsStored(db, x) || x == h
  {
  }

  /** Delivering a block that is there already changes no weight. */
  lemma SameWeights(s: Chain, l: Ledger, h: Header)
    requires Sound(s) && Matches(s, l) && Names(s.db, h) && HasParent(l, h) && h.number > 0
    ensures h.parentHash in l.weight
    ensures forall x :: x in l.kept ==> x.hash in l.weight && Deliver(l, h).weight[x.hash] == l.weight[x.hash]
  {
    hide Sound, FirstHeaviest, HasParent;
    SameParent(s, l, h);
    HeadWeight(s, l);
    forall x | x in l.kept ensures Deliver(l, h).weight[x.hash] == l.weight[x.hash] {
      assert IsStored(s.db, x);
      if x.hash == h.hash {
        SoundEntry(s, x.hash, x.number);
      }
    }
  }

  lemma HeadAfter(l: Ledger, l': Ledger, head: Hash, h: Header, td: nat)
    requires FirstHeaviest(l, head) && head in l.weight && h.hash in l'.weight && l'.weight[h.hash] == td
    requires l'.kept == l.kept + [h]
    requires forall x :: x in l.kept ==>
      x.hash in l.weight && x.hash in l'.weight && l'.weight[x.hash] == l.weight[x.hash]
    ensures FirstHeaviest(l', if td > l.weight[head] then h.hash else head)
  {
    var j :| 0 <= j < |l.kept| && l.kept[j].hash == head && Leads(l, j);
    assert forall i :: 0 <= i < |l.kept| ==> l'.kept[i] == l.kept[i] && l.kept[i] in l.kept;
    assert forall i :: 0 <= i < |l'.kept| ==> l'.kept[i].hash in l'.weight;
    if td > l.weight[head] {
      assert l'.kept[|l.kept|] == h && Leads(l', |l.kept|);
    } else {
      assert l'.kept[j].hash == head && Leads(l', j);
    }
  }

  lemma PutMatches(s: Chain, l: Ledger, h: Header, validate: bool)
    requires Sound(s) && Matches(s, l) && Names(s.db, h) && !h.pos
    ensures Put(s, h, validate).Some? <==> HasParent(l, h)
    ensures Matches(if Put(s, h, validate).Some? then Put(s, h, validate).value.0 else s, Deliver(l, h))
  {
    hide Sound, Names, Anchored, Put, HasParent, FirstHeaviest, IsStored;
    if h.number == 0 {
      GenesisRefused(s, h, validate);
      NoParent(l, h);
    } else {
      SameParent(s, l, h);
      HeadWeight(s, l);
      PutExactly(s, h, validate);
      if HasParent(l, h) {
        var s' := Put(s, h, validate).value.0;
        PutKeeps(s, h, validate);
        PutWeighs(s, h, validate);
        DeliverMatches(s, s', l, h);
        SameWeights(s, l, h);
        HeadAfter(l, Deliver(l, h), s.headHeader, h, l.weight[h.parentHash] + h.difficulty);
      }
    }
  }

  lemma NoParent(l: Ledger, h: Header)
    requires h.number == 0
    ensures !HasParent(l, h)
  {
  }

  lemma StartMatches(g: Header)
    requires g.number == 0
    ensures Matches(Genesis(g), Ledger([g], map[g.hash := g.difficulty]))
  {
    var s, l := Genesis(g), Ledger([g], map[g.hash := g.difficulty]);
    assert l.kept[0].hash == s.headHeader && Leads(l, 0);
  }

  /** Without proof of stake, after any run of deliveries in any order: just those blocks are stored
      that were delivered after their parent, each with the sum of the difficulties up to it, and the
      head is the first delivered of the heaviest. */
  lemma {:induction false} RunIsLedger(g: Header, events: seq<Event>, validate: bool)
    requires g.number == 0 && Injective(Headers(g, events)) && forall h :: h in Headers(g, events) ==> !h.pos
    ensures Matches(Run(g, events, validate), LedgerOf(g, events))
  {
    hide Sound, Matches, Put, Names, Stored, From1, Deliver;
    if events == [] {
      StartMatches(g);
    } else {
      var rest, e := events[..|events| - 1], events[|events| - 1];
      FewerHeaders(g, events);
      RunIsLedger(g, rest, validate);
      RunSound(g, rest, validate, Headers(g, events));
      var s := Run(g, rest, validate);
      match e
      case Advance(name) => IterateMatches(s, LedgerOf(g, rest), name, g);
      case Block(h) =>
        assert events[|events| - 1].h in Headers(g, events);
        SoundStored(s);
        NamesFrom(s.db, Headers(g, events), h);
        PutMatches(s, LedgerOf(g, rest), h, validate);
    }
  }

  lemma SoundStored(s: Chain)
    requires Sound(s)
    ensures Stored(s.db)
  {
  }

  lemma IterateMatches(s: Chain, l: Ledger, name: Name, g: Header)
    requires Matches(s, l)
    ensures Matches(Iterate(s, name, g), l)
  {
    hide FirstHeaviest;
  }

  lemma FewerHeaders(g: Header, events: seq<Event>)
    requires events != []
    ensures Headers(g, events[..|events| - 1]) <= Headers(g, events)
  {
    var rest := events[..|events| - 1];
    forall h | h in Headers(g, rest) ensures h in Headers(g, events) {
      if h != g {
        var i :| 0 <= i < |rest| && rest[i].Block? && rest[i].h == h;
        assert events[i].h in Headers(g, events);
      }
    }
  }

  /** A block under proof of stake whose parent is missing, put without validation: iterators above its
      number are moved to it, and all others stay, as the walk down breaks off. */
  lemma UnanchoredHeads(s: Chain, h: Header)
    requires Inv(s) && h.pos && h.number > 0 && !Anchored(s.db, h) && !s.db.Canonical(h)
    ensures Put(s, h, false).Some? && Put(s, h, false).value.0.heads.Keys == s.heads.Keys
    ensures var heads := Put(s, h, false).value.0.heads;
      forall name :: name in s.heads ==>
        heads[name] == if s.db.hashToNumber[s.heads[name]] > h.number then h.hash else s.heads[name]
  {
    hide IsChain, Stored, Apply, IsStale, Walk, WalkEnd, Gap;
    var n, numbers := s.db.hashToNumber[s.headHeader], s.db.numberToHash;
    ChainDomain(s.db, n);
    GapIs(numbers, n, h.number + 1);
    var m := Gap(numbers, h.number + 1);
    forall name | name in s.heads
      ensures IsAmong(numbers, s.heads[name], h.number + 1, m) <==> s.db.hashToNumber[s.heads[name]] > h.number
    {
      if k :| h.number + 1 <= k < m && k in numbers && numbers[k] == s.heads[name] {
        OneNumber(s.db, n, s.heads[name], k);
      }
    }
  }

  // ---- Iterators ----

  /** Where an iterator is: at a canonical block, at first at block zero. */
  function PlaceOf(s: Chain, name: Name, g: Header): Hash {
    if name in s.heads then s.heads[name] else g.hash
  }

  /** An iterator moves to the child of the block that it is at, on the chain to the head; it stays
      where it is exactly if that is the head. No other iterator moves. */
  lemma IteratorClimbs(s: Chain, name: Name, g: Header)
    requires Sound(s) && OnChain(s.db, g.hash)
    ensures var s', at := Iterate(s, name, g), PlaceOf(s, name, g);
      && OnChain(s.db, at) && s'.db == s.db && s'.headHeader == s.headHeader
      && (if at == s.headHeader then s' == s
          else
            var at', k := PlaceOf(s', name, g), s.db.hashToNumber[at] + 1;
            && OnChain(s.db, at') && s.db.hashToNumber[at'] == k
            && (at', k) in s.db.headers && s.db.headers[(at', k)].parentHash == at)
      && forall other :: other != name ==> PlaceOf(s', other, g) == PlaceOf(s, other, g)
  {
    hide IsChain, TdStored, Heaviest, Stored;
    var at, n := PlaceOf(s, name, g), s.db.hashToNumber[s.headHeader];
    var k := s.db.hashToNumber[at];
    ChainDomain(s.db, n);
    if k < n {
      NextOnChain(s.db, n, k + 1);
      LinkUp(s.db, n, k + 1);
    }
  }

  lemma LinkUp(db: Db, n: nat, k: nat)
    requires IsChain(db, n) && Stored(db) && 0 < k <= n
    ensures k in db.numberToHash && k - 1 in db.numberToHash
    ensures var x := db.numberToHash[k];
      (x, k) in db.headers && db.headers[(x, k)].parentHash == db.numberToHash[k - 1]
      && x in db.hashToNumber && db.hashToNumber[x] == k
  {
    hide Stored;
    assert Link(db, k);
    StoredEntry(db, db.numberToHash[k], k);
  }

  // ---- Deleting beside the chain ----

  /** A block is deleted exactly if it is stored. */
  lemma RemoveExactly(s: Chain, hash: Hash)
    requires Inv(s)
    ensures Remove(s, hash).Some? <==> exists k :: (hash, k) in s.db.headers
  {
    hide CanonicalOk, Above, Deletes1, Reset, ResetHeads, Apply;
    if k :| (hash, k) in s.db.headers {
      StoredEntry(s.db, hash, k);
    }
  }

  predicate IsChild(db: Db, h: Header, x: Hash) {
    (x, h.number + 1) in db.headers && db.headers[(x, h.number + 1)].parentHash == h.hash
  }

  /** The chain without one block in its database. */
  function Without(s: Chain, h: Header): Chain {
    s.(db := s.db.(headers := s.db.headers - {(h.hash, h.number)}, td := s.db.td - {(h.hash, h.number)},
      hashToNumber := s.db.hashToNumber - {h.hash}))
  }

  lemma OffChain(s: Chain, h: Header, x: Hash)
    requires Inv(s) && IsStored(s.db, h) && !s.db.Canonical(h) && OnChain(s.db, x)
    ensures x != h.hash
  {
    hide IsChain, CanonicalOk;
    StoredEntry(s.db, h.hash, h.number);
  }

  lemma SideCanonical(s: Chain, h: Header)
    requires Inv(s) && IsStored(s.db, h) && !s.db.Canonical(h)
    ensures CanonicalOk(Without(s, h))
  {
    hide Stored, IsStored;
    var n, db' := s.db.hashToNumber[s.headHeader], Without(s, h).db;
    OffChain(s, h, s.headHeader);
    forall k: nat | k <= n ensures Link(db', k) {
      assert Link(s.db, k);
      assert (s.db.numberToHash[k], k) != (h.hash, h.number);
    }
    forall name | name in s.heads ensures OnChain(db', s.heads[name]) {
      OffChain(s, h, s.heads[name]);
    }
  }

  lemma SideEntry(s: Chain, h: Header, x: Hash, k: nat)
    requires IsStored(s.db, h) && !s.db.Canonical(h) && StoredAt(s.db, h.hash, h.number)
    requires (x, k) in Without(s, h).db.headers && StoredAt(s.db, x, k)
    ensures StoredAt(Without(s, h).db, x, k) <==> !(k == h.number + 1 && IsChild(s.db, h, x))
  {
  }

  lemma SideStored(s: Chain, h: Header)
    requires Stored(s.db) && IsStored(s.db, h) && !s.db.Canonical(h)
    ensures Stored(Without(s, h).db) <==> forall x :: !IsChild(s.db, h, x)
  {
    hide StoredAt;
    StoredEntry(s.db, h.hash, h.number);
    if x :| IsChild(s.db, h, x) {
      StoredEntry(s.db, x, h.number + 1);
      SideEntry(s, h, x, h.number + 1);
    } else {
      forall x, k | (x, k) in Without(s, h).db.headers ensures StoredAt(Without(s, h).db, x, k) {
        StoredEntry(s.db, x, k);
        SideEntry(s, h, x, k);
      }
    }
  }

  lemma SideHeaviest(s: Chain, h: Header)
    requires Sound(s) && IsStored(s.db, h) && !s.db.Canonical(h) && forall x :: !IsChild(s.db, h, x)
    ensures TdStored(Without(s, h).db) && Heaviest(Without(s, h))
  {
    hide Stored, IsChain, OnChain;
    var s' := Without(s, h);
    OffChain(s, h, s.headHeader);
    if s'.db.TdOf(s.headHeader).Some? {
      forall x, k | (x, k) in s'.db.headers
        ensures HasTd(s'.db, x, k) && s'.db.td[(x, k)] <= s'.db.TdOf(s.headHeader).value
      {
        assert HasTd(s.db, x, k);
        assert k == h.number + 1 ==> !IsChild(s.db, h, x);
      }
    }
  }

  /** Deleting a block that is not on the chain takes just that block out of the database. The chain
      stays sound exactly if no stored block is a child of it. */
  lemma RemoveSide(s: Chain, h: Header)
    requires Sound(s) && IsStored(s.db, h) && !s.db.Canonical(h)
    ensures Remove(s, h.hash) == Some(s.(db := s.db.(headers := s.db.headers - {(h.hash, h.number)},
      td := s.db.td - {(h.hash, h.number)}, hashToNumber := s.db.hashToNumber - {h.hash})))
    ensures CanonicalOk(Remove(s, h.hash).value)
    ensures Sound(Remove(s, h.hash).value) <==> forall x :: !IsChild(s.db, h, x)
  {
    hide Above, Deletes1, Reset, ResetHeads, CanonicalOk, Stored, TdStored, Heaviest, IsChild;
    StoredEntry(s.db, h.hash, h.number);
    assert BlockDeletes([h]) == [DelBlock(h.hash, h.number)];
    assert Apply(s.db, []) == s.db && [DelBlock(h.hash, h.number)][..0] == [];
    SideCanonical(s, h);
    SideStored(s, h);
    if forall x :: !IsChild(s.db, h, x) {
      SideHeaviest(s, h);
    }
  }
}
