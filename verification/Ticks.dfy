// The bot's poll loop against a chain that reorganizes: fork-point search over checkpoints, rollback,
// rewind and rescan.
module Ticks {
  import opened Bytes
  import opened Projection
  import opened Settlement
  import Rollback

  const CHECKPOINT_WINDOW := 50
  const CHECKPOINT_RETENTION := 500

  type BlockHash = string

  // The canonical hash of every block from genesis to the tip.
  type Chain = seq<BlockHash>

  predicate CanonicalAt(chain: Chain, block: nat, hash: BlockHash) {
    block < |chain| && chain[block] == hash
  }

  // A block hash commits to all blocks below it.
  type Ancestry = BlockHash -> Chain

  ghost predicate Linked(ancestry: Ancestry, chain: Chain) {
    forall n :: 0 <= n < |chain| ==> ancestry(chain[n]) == chain[..n]
  }

  // The indexer's state: checkpoints, the collections, and the ids already ingested.
  datatype Indexer = Indexer(
    checkpoints: map<nat, BlockHash>, store: Store, rolledBack: set<(nat, BlockHash)>, indexed: set<EventId>)

  // ---- The newest checkpoints ----

  function Max(s: set<nat>): (m: nat)
    requires s != {}
    ensures m in s && forall n <- s :: n <= m
  {
    MaxExists(s);
    var m :| m in s && forall n <- s :: n <= m;
    m
  }

  lemma {:induction false} MaxExists(s: set<nat>)
    requires s != {}
    ensures exists m :: m in s && forall n <- s :: n <= m
  {
    var x :| x in s;
    if s != {x} {
      MaxExists(s - {x});
      var m :| m in s - {x} && forall n <- s - {x} :: n <= m;
      var w := if x <= m then m else x;
      assert s == s - {x} + {x};
      assert w in s && forall n <- s :: n <= w;
    }
  }

  // The `limit` greatest keys, descending.
  function Newest(keys: set<nat>, limit: nat): seq<nat> {
    if limit == 0 || keys == {} then [] else [Max(keys)] + Newest(keys - {Max(keys)}, limit - 1)
  }

  ghost predicate Descending(s: seq<nat>) {
    forall i, j :: 0 <= i < j < |s| ==> s[i] > s[j]
  }

  lemma {:induction false} NewestMeaning(keys: set<nat>, limit: nat)
    ensures var list := Newest(keys, limit);
      Descending(list) && |list| <= limit && (forall n :: n in list ==> n in keys)
      && (forall n, m :: n in list && m in keys && m !in list ==> m < n)
  {
    if limit > 0 && keys != {} {
      var top := Max(keys);
      var rest := Newest(keys - {top}, limit - 1);
      NewestMeaning(keys - {top}, limit - 1);
      assert Newest(keys, limit) == [top] + rest;
      forall i | 0 <= i < |rest|
        ensures rest[i] < top
      {
        assert rest[i] in rest;
        assert rest[i] in keys - {top};
      }
      forall n, m | n in [top] + rest && m in keys && m !in [top] + rest
        ensures m < n
      {
        assert m != top && m in keys - {top} && m !in rest;
      }
    }
  }

  // ---- Finding the fork point ----

  datatype Probe = Probe(ancestor: Option<nat>, evidence: Option<nat>)

  // Walks down from the newest checkpoint to the first canonical one; the evidence is the last mismatch met.
  function ProbeDown(list: seq<nat>, checkpoints: map<nat, BlockHash>, chain: Chain): Probe
    requires forall n :: n in list ==> n in checkpoints
  {
    if list == [] then Probe(None, None)
    else if CanonicalAt(chain, list[0], checkpoints[list[0]]) then Probe(Some(list[0]), None)
    else
      var rest := ProbeDown(list[1..], checkpoints, chain);
      rest.(evidence := if rest.evidence.Some? then rest.evidence else Some(list[0]))
  }

  function WindowOf(ix: Indexer): (list: seq<nat>)
    ensures forall n :: n in list ==> n in ix.checkpoints
  {
    NewestMeaning(ix.checkpoints.Keys, CHECKPOINT_WINDOW);
    Newest(ix.checkpoints.Keys, CHECKPOINT_WINDOW)
  }

  function ReorgEvent(evidence: nat, hash: BlockHash, ancestor: int): Event {
    ChainReorgEvent("chain-reorg", evidence, hash, Some(ancestor))
  }

  // The block above which everything is rolled back, if the newest checkpoint is no longer canonical.
  function ForkPoint(ix: Indexer, chain: Chain): Option<int> {
    var list := WindowOf(ix);
    var probe := ProbeDown(list, ix.checkpoints, chain);
    if probe.evidence.None? then None
    else if probe.ancestor.Some? then Some(probe.ancestor.value as int)
    else Some((list[|list| - 1] as int) - 1)
  }

  function Detect(ix: Indexer, chain: Chain): Indexer {
    var list := WindowOf(ix);
    var probe := ProbeDown(list, ix.checkpoints, chain);
    if ForkPoint(ix, chain).None? then ix
    else
      ProbeEvidence(list, ix.checkpoints, chain);
      var fork := ForkPoint(ix, chain).value;
      var evidence := (probe.evidence.value, ix.checkpoints[probe.evidence.value]);
      // The rollback is ingested under an id made of its evidence, so a repeated id is ignored.
      Indexer(map n | n in ix.checkpoints && n <= fork :: ix.checkpoints[n],
              if evidence in ix.rolledBack then ix.store
              else After(ix.store, ApplyEvent(ix.store, ReorgEvent(evidence.0, evidence.1, fork))),
              ix.rolledBack + {evidence}, ix.indexed)
  }

  lemma {:induction false} ProbeEvidence(list: seq<nat>, checkpoints: map<nat, BlockHash>, chain: Chain)
    requires forall n :: n in list ==> n in checkpoints
    ensures var p := ProbeDown(list, checkpoints, chain);
      && (p.evidence.Some? ==>
            p.evidence.value in list && !CanonicalAt(chain, p.evidence.value, checkpoints[p.evidence.value]))
      && (p.ancestor.Some? ==>
            p.ancestor.value in list && CanonicalAt(chain, p.ancestor.value, checkpoints[p.ancestor.value]))
      && (p.evidence.None? <==> list == [] || CanonicalAt(chain, list[0], checkpoints[list[0]]))
  {
    if list != [] {
      ProbeEvidence(list[1..], checkpoints, chain);
    }
  }

  // ---- Scanning ----

  function Cursor(ix: Indexer): nat {
    if ix.checkpoints == map[] then 0 else Max(ix.checkpoints.Keys) + 1
  }

  predicate Known(ix: Indexer, e: Event)
    requires e.OrderConfirmedEvent?
  {
    Rollback.Present(ix.store, e.order) || e.id in ix.indexed
  }

  function IndexOne(ix: Indexer, e: Event): Indexer
    requires e.OrderConfirmedEvent?
  {
    if Known(ix, e) then ix
    else ix.(store := After(ix.store, ApplyEvent(ix.store, e)), indexed := ix.indexed + {e.id})
  }

  function IndexAll(ix: Indexer, found: seq<Event>): Indexer
    requires forall i :: 0 <= i < |found| ==> found[i].OrderConfirmedEvent?
  {
    if found == [] then ix else IndexOne(IndexAll(ix, found[..|found| - 1]), found[|found| - 1])
  }

  function SaveCheckpoint(ix: Indexer, block: nat, hash: BlockHash): Indexer {
    var saved := ix.checkpoints[block := hash];
    ix.(checkpoints := map n | n in saved && n >= block - CHECKPOINT_RETENTION :: saved[n])
  }

  // One scan: `found` are the verified order cells of the scanned blocks; `completes` tells whether
  // the scan reached its end and saved a checkpoint.
  function Scan(ix: Indexer, chain: Chain, depth: nat, found: seq<Event>, completes: bool): Indexer
    requires forall i :: 0 <= i < |found| ==> found[i].OrderConfirmedEvent?
  {
    var safeTip := |chain| - 1 - depth;
    if safeTip < 0 || Cursor(ix) > safeTip then ix
    else if completes then SaveCheckpoint(IndexAll(ix, found), safeTip, chain[safeTip])
    else IndexAll(ix, found)
  }

  // The search range and the chain lookups of a scan.
  ghost predicate FoundOn(ix: Indexer, chain: Chain, depth: nat, found: seq<Event>) {
    forall i :: 0 <= i < |found| ==>
      found[i].OrderConfirmedEvent? && Cursor(ix) <= found[i].block <= |chain| - 1 - depth
      && CanonicalAt(chain, found[i].block, found[i].blockHash)
  }

  // ---- The service, loop by loop ----

  class Bot {
    var checkpoints: map<nat, BlockHash>
    var rolledBack: set<(nat, BlockHash)>
    var indexed: set<EventId>
    const projection: Collections

    constructor ()
      ensures State() == Indexer(map[], EmptyStore, {}, {}) && fresh(projection)
    {
      checkpoints, rolledBack, indexed := map[], {}, {};
      projection := new Collections();
    }

    function State(): Indexer
      reads this, projection
    {
      Indexer(checkpoints, projection.Contents(), rolledBack, indexed)
    }

    method IngestReorg(block: nat, hash: BlockHash, ancestor: int)
      modifies this`rolledBack, projection
      ensures rolledBack == old(rolledBack) + {(block, hash)}
      ensures projection.Contents() ==
        if (block, hash) in old(rolledBack) then old(projection.Contents())
        else After(old(projection.Contents()),
                   ApplyEvent(old(projection.Contents()), ReorgEvent(block, hash, ancestor)))
    {
      if (block, hash) !in rolledBack {
        var _ := projection.Apply(ReorgEvent(block, hash, ancestor));
        rolledBack := rolledBack + {(block, hash)};
      }
    }

    method DetectReorg(chain: Chain)
      modifies this`checkpoints, this`rolledBack, projection
      ensures State() == Detect(old(State()), chain)
    {
      var list := WindowOf(State());
      if |list| == 0 {
        return;
      }
      ghost var probe := ProbeDown(list, checkpoints, chain);
      var ancestor: Option<nat> := None;
      var evidence: Option<nat> := None;
      var i := 0;
      while i < |list| && ancestor.None?
        invariant 0 <= i <= |list|
        invariant evidence == if i == 0 then None else Some(list[i - 1])
        invariant ancestor.None? ==> var rest := ProbeDown(list[i..], checkpoints, chain);
          probe == Probe(rest.ancestor, if rest.evidence.Some? then rest.evidence else evidence)
        invariant ancestor.Some? ==> probe == Probe(ancestor, evidence)
        decreases |list| - i, ancestor.None?
      {
        assert list[i] in list;
        assert list[i..][1..] == list[i + 1..];
        if CanonicalAt(chain, list[i], checkpoints[list[i]]) {
          ancestor := Some(list[i]);
        } else {
          evidence := Some(list[i]);
          i := i + 1;
        }
      }
      if evidence.None? {
        return;
      }
      ProbeEvidence(list, checkpoints, chain);
      var oldest := list[|list| - 1];
      var ancestorBlock := if ancestor.Some? then ancestor.value as int else (oldest as int) - 1;
      IngestReorg(evidence.value, checkpoints[evidence.value], ancestorBlock);
      checkpoints := map n | n in checkpoints && n <= ancestorBlock :: checkpoints[n];
    }

    method ScanForOrders(chain: Chain, depth: nat, found: seq<Event>, completes: bool)
      requires forall i :: 0 <= i < |found| ==> found[i].OrderConfirmedEvent?
      modifies this`checkpoints, this`indexed, projection
      ensures State() == Scan(old(State()), chain, depth, found, completes)
    {
      var safeTip := |chain| - 1 - depth;
      if safeTip < 0 {
        return;
      }
      var fromBlock := Cursor(State());
      if fromBlock > safeTip {
        return;
      }
      ghost var before := State();
      var i := 0;
      while i < |found|
        invariant 0 <= i <= |found|
        invariant State() == IndexAll(before, found[..i])
        invariant checkpoints == old(checkpoints) && rolledBack == old(rolledBack)
      {
        var e := found[i];
        assert found[..i + 1][..i] == found[..i];
        if !Rollback.Present(projection.Contents(), e.order) && e.id !in indexed {
          var _ := projection.Apply(e);
          indexed := indexed + {e.id};
        }
        i := i + 1;
      }
      assert found[..i] == found;
      if completes {
        var saved := checkpoints[safeTip := chain[safeTip]];
        checkpoints := map n | n in saved && n >= safeTip - CHECKPOINT_RETENTION :: saved[n];
      }
    }
  }

  // ---- The fork point ----

  // A rollback event the bot emits passes the ingestion side's own verification.
  predicate ReorgVerifies(chain: Chain, e: Event)
    requires e.ChainReorgEvent?
  {
    (e.ancestor.Some? ==> e.ancestor.value < e.reverted) && !CanonicalAt(chain, e.reverted, e.revertedHash)
  }

  lemma RollbackIsAccepted(ix: Indexer, chain: Chain)
    requires ForkPoint(ix, chain).Some?
    ensures var list := WindowOf(ix);
      var evidence := ProbeDown(list, ix.checkpoints, chain).evidence;
      evidence.Some? && evidence.value in ix.checkpoints
      && ReorgVerifies(chain, ReorgEvent(evidence.value, ix.checkpoints[evidence.value], ForkPoint(ix, chain).value))
  {
    var list := WindowOf(ix);
    NewestMeaning(ix.checkpoints.Keys, CHECKPOINT_WINDOW);
    ProbeEvidence(list, ix.checkpoints, chain);
    ProbeOrder(list, ix.checkpoints, chain);
  }

  lemma {:induction false} ProbeOrder(list: seq<nat>, checkpoints: map<nat, BlockHash>, chain: Chain)
    requires (forall n :: n in list ==> n in checkpoints) && Descending(list)
    ensures var p := ProbeDown(list, checkpoints, chain);
      && (p.ancestor.Some? && p.evidence.Some? ==> p.ancestor.value < p.evidence.value && p.ancestor.value in list)
      && (p.ancestor.None? && p.evidence.Some? ==> p.evidence.value == list[|list| - 1])
  {
    if list != [] && !CanonicalAt(chain, list[0], checkpoints[list[0]]) {
      ProbeOrder(list[1..], checkpoints, chain);
      ProbeEvidence(list[1..], checkpoints, chain);
    }
  }

  ghost predicate GreatestCanonical(ix: Indexer, chain: Chain, g: nat) {
    g in ix.checkpoints && CanonicalAt(chain, g, ix.checkpoints[g])
    && forall n <- ix.checkpoints :: n > g ==> !CanonicalAt(chain, n, ix.checkpoints[n])
  }

  lemma {:induction false} ProbeStopsAtCanonical(list: seq<nat>, checkpoints: map<nat, BlockHash>, chain: Chain, n: nat)
    requires forall n :: n in list ==> n in checkpoints
    requires n in list && CanonicalAt(chain, n, checkpoints[n])
    ensures var p := ProbeDown(list, checkpoints, chain);
      && p.ancestor.Some? && p.ancestor.value in list
      && (forall i :: 0 <= i < |list| && list[i] == p.ancestor.value ==>
            CanonicalAt(chain, list[i], checkpoints[list[i]]))
      && exists i :: 0 <= i < |list| && list[i] == p.ancestor.value
           && forall j :: 0 <= j < i ==> !CanonicalAt(chain, list[j], checkpoints[list[j]])
  {
    if !CanonicalAt(chain, list[0], checkpoints[list[0]]) {
      var rest := list[1..];
      assert list == [list[0]] + rest;
      ProbeStopsAtCanonical(rest, checkpoints, chain, n);
      var p := ProbeDown(rest, checkpoints, chain);
      var i :| 0 <= i < |rest| && rest[i] == p.ancestor.value
        && forall j :: 0 <= j < i ==> !CanonicalAt(chain, rest[j], checkpoints[rest[j]]);
      assert list[i + 1] == p.ancestor.value;
    }
  }

  lemma ProbeFindsGreatest(list: seq<nat>, checkpoints: map<nat, BlockHash>, chain: Chain)
    requires forall n :: n in list ==> n in checkpoints
    requires Descending(list) && exists n :: n in list && CanonicalAt(chain, n, checkpoints[n])
    ensures var p := ProbeDown(list, checkpoints, chain);
      && p.ancestor.Some? && p.ancestor.value in list
      && CanonicalAt(chain, p.ancestor.value, checkpoints[p.ancestor.value])
      && (forall n :: n in list && n > p.ancestor.value ==> !CanonicalAt(chain, n, checkpoints[n]))
      && (p.evidence.Some? ==> p.evidence.value > p.ancestor.value && p.evidence.value in list)
  {
    var n :| n in list && CanonicalAt(chain, n, checkpoints[n]);
    ProbeStopsAtCanonical(list, checkpoints, chain, n);
    ProbeOrder(list, checkpoints, chain);
    ProbeEvidence(list, checkpoints, chain);
  }

  // The evidence of a reorg is the lowest checkpoint met that is no longer canonical, right above the ancestor.
  lemma {:induction false} EvidenceIsLowest(list: seq<nat>, checkpoints: map<nat, BlockHash>, chain: Chain)
    requires (forall n :: n in list ==> n in checkpoints) && Descending(list)
    ensures var p := ProbeDown(list, checkpoints, chain);
      p.evidence.Some? ==>
        p.evidence.value in list
        && forall n :: n in list && (p.ancestor.Some? ==> n > p.ancestor.value) ==> n >= p.evidence.value
  {
    if list != [] && !CanonicalAt(chain, list[0], checkpoints[list[0]]) {
      EvidenceIsLowest(list[1..], checkpoints, chain);
      ProbeEvidence(list[1..], checkpoints, chain);
      ProbeOrder(list, checkpoints, chain);
      assert forall n :: n in list <==> n == list[0] || n in list[1..];
      assert forall n :: n in list[1..] ==> n < list[0];
    }
  }

  // One of the newest checkpoints is still canonical.
  ghost predicate Survives(ix: Indexer, chain: Chain) {
    exists n :: n in WindowOf(ix) && CanonicalAt(chain, n, ix.checkpoints[n])
  }

  lemma NewestFirst(ix: Indexer)
    requires ix.checkpoints != map[]
    ensures WindowOf(ix) != [] && WindowOf(ix)[0] == Max(ix.checkpoints.Keys)
  {
    assert ix.checkpoints.Keys != {};
  }

  lemma ProbeStopsAtGreatest(ix: Indexer, chain: Chain) returns (g: nat)
    requires Survives(ix, chain)
    ensures GreatestCanonical(ix, chain, g)
    ensures ForkPoint(ix, chain) == if g == Max(ix.checkpoints.Keys) then None else Some(g)
  {
    var list := WindowOf(ix);
    NewestMeaning(ix.checkpoints.Keys, CHECKPOINT_WINDOW);
    ProbeFindsGreatest(list, ix.checkpoints, chain);
    var probe := ProbeDown(list, ix.checkpoints, chain);
    g := probe.ancestor.value;
    forall n <- ix.checkpoints | n > g
      ensures !CanonicalAt(chain, n, ix.checkpoints[n])
    {
      assert n in list;
    }
    NewestFirst(ix);
    ProbeEvidence(list, ix.checkpoints, chain);
  }

  // As long as one of the newest checkpoints survives, the rollback point, the newest checkpoint kept
  // and the block before the next scan are all the greatest canonical checkpoint.
  lemma ForkPointIsGreatestCanonical(ix: Indexer, chain: Chain) returns (g: nat)
    requires Survives(ix, chain)
    ensures GreatestCanonical(ix, chain, g)
    ensures ForkPoint(ix, chain) == if g == Max(ix.checkpoints.Keys) then None else Some(g)
    ensures var d := Detect(ix, chain);
      Cursor(d) == g + 1 && g in d.checkpoints && Max(d.checkpoints.Keys) == g
      && (forall n <- ix.checkpoints :: n <= g ==> n in d.checkpoints)
  {
    g := ProbeStopsAtGreatest(ix, chain);
    var d := Detect(ix, chain);
    assert g in d.checkpoints;
    assert forall n <- d.checkpoints :: n <= g;
  }

  lemma NoneCanonical(list: seq<nat>, checkpoints: map<nat, BlockHash>, chain: Chain)
    requires (forall n :: n in list ==> n in checkpoints) && Descending(list) && list != []
    requires forall n :: n in list ==> !CanonicalAt(chain, n, checkpoints[n])
    ensures ProbeDown(list, checkpoints, chain) == Probe(None, Some(list[|list| - 1]))
  {
    ProbeEvidence(list, checkpoints, chain);
    ProbeOrder(list, checkpoints, chain);
    assert list[0] in list;
  }

  // What the search keeps of the checkpoints.
  lemma DetectKeepsUpTo(ix: Indexer, chain: Chain, n: nat)
    ensures var d, fork := Detect(ix, chain), ForkPoint(ix, chain);
      && (n in d.checkpoints <==> n in ix.checkpoints && (fork.Some? ==> n <= fork.value))
      && (n in d.checkpoints ==> d.checkpoints[n] == ix.checkpoints[n])
  {
  }

  lemma GivesUpFrom(ix: Indexer, chain: Chain, oldest: nat, n: nat)
    requires ix.checkpoints != map[] && WindowOf(ix) != [] && WindowOf(ix)[|WindowOf(ix)| - 1] == oldest
    requires ProbeDown(WindowOf(ix), ix.checkpoints, chain) == Probe(None, Some(oldest))
    ensures ForkPoint(ix, chain) == Some(oldest - 1)
    ensures n in Detect(ix, chain).checkpoints <==> n in ix.checkpoints && n < oldest
  {
    DetectKeepsUpTo(ix, chain, n);
  }

  lemma LastIsOldest(list: seq<nat>, n: nat)
    requires Descending(list) && n in list
    ensures list[|list| - 1] <= n
  {
  }

  // When none of the newest checkpoints is canonical any more, the search gives them all up and rolls back from
  // the oldest of them on.
  lemma DeepReorgGivesUpTheWindow(ix: Indexer, chain: Chain, n: nat) returns (oldest: nat)
    requires ix.checkpoints != map[] && !Survives(ix, chain)
    ensures oldest in WindowOf(ix) && (n in WindowOf(ix) ==> oldest <= n)
    ensures ForkPoint(ix, chain) == Some(oldest - 1)
    ensures n in Detect(ix, chain).checkpoints <==> n in ix.checkpoints && n < oldest
  {
    var list := WindowOf(ix);
    NewestMeaning(ix.checkpoints.Keys, CHECKPOINT_WINDOW);
    NewestFirst(ix);
    oldest := list[|list| - 1];
    NoneCanonical(list, ix.checkpoints, chain);
    GivesUpFrom(ix, chain, oldest, n);
    if n in list {
      LastIsOldest(list, n);
    }
  }

  // Whoever names a block that was on the old chain is believed only when that block, and so everything built
  // on it, has left the new chain; and never with an ancestor at or above it.
  lemma AcceptedRollbackIsReal(ancestry: Ancestry, was: Chain, chain: Chain, e: Event)
    requires Linked(ancestry, was) && Linked(ancestry, chain) && e.ChainReorgEvent?
    requires e.reverted < |was| && was[e.reverted] == e.revertedHash
    ensures ReorgVerifies(chain, e) <==>
      (e.ancestor.Some? ==> e.ancestor.value < e.reverted)
      && forall n :: e.reverted <= n < |was| ==> was[n] !in chain
  {
    if !CanonicalAt(chain, e.reverted, e.revertedHash) {
      forall n | e.reverted <= n < |was|
        ensures was[n] !in chain
      {
        if was[n] in chain {
          var k :| 0 <= k < |chain| && chain[k] == was[n];
          assert |was[..n]| == |ancestry(was[n])| == |chain[..k]|;
          AgreeBelow(ancestry, was, chain, n, e.reverted);
        }
      }
    } else {
      assert was[e.reverted] in chain;
    }
  }

  // ---- One scan ----

  // A scan that completes keeps the checkpoints of the last five hundred blocks below the one it saves, and
  // that one; a scan that does not, or that has nothing new to scan, changes none.
  lemma ScanSavesCheckpoint(ix: Indexer, chain: Chain, depth: nat, found: seq<Event>, completes: bool, n: nat)
    requires forall i :: 0 <= i < |found| ==> found[i].OrderConfirmedEvent?
    ensures var safeTip := |chain| - 1 - depth;
      var r := Scan(ix, chain, depth, found, completes);
      if completes && safeTip >= 0 && forall k <- ix.checkpoints :: k < safeTip then
        && (n in r.checkpoints <==> n == safeTip || (n in ix.checkpoints && n >= safeTip - 500))
        && (n in r.checkpoints ==> r.checkpoints[n] == if n == safeTip then chain[safeTip] else ix.checkpoints[n])
      else r.checkpoints == ix.checkpoints
  {
    IndexKeepsCheckpoints(ix, found);
  }

  lemma IndexOneIndexes(ix: Indexer, e: Event)
    requires e.OrderConfirmedEvent? && e.id !in ix.indexed
    ensures Rollback.Present(IndexOne(ix, e).store, e.order)
    ensures !Rollback.Present(ix.store, e.order) ==> LiveFrom(IndexOne(ix, e), e)
  {
  }

  // The order is listed with the row that was found.
  ghost predicate LiveFrom(ix: Indexer, e: Event)
    requires e.OrderConfirmedEvent?
  {
    e.order in ix.store.orders
    && var o := ix.store.orders[e.order];
    o.status == Live && o.doc == e.doc && o.blockNumber == e.block && o.createdBlockHash == e.blockHash
  }

  lemma {:induction false} IndexedAreFound(ix: Indexer, found: seq<Event>)
    requires forall i :: 0 <= i < |found| ==> found[i].OrderConfirmedEvent?
    ensures forall id <- IndexAll(ix, found).indexed ::
      id in ix.indexed || exists i :: 0 <= i < |found| && found[i].id == id
  {
    if found != [] {
      IndexedAreFound(ix, found[..|found| - 1]);
    }
  }

  lemma {:induction false} IndexFinds(ix: Indexer, found: seq<Event>, i: nat)
    requires forall j :: 0 <= j < |found| ==> found[j].OrderConfirmedEvent?
    requires i < |found| && found[i].id !in ix.indexed && forall j :: 0 <= j < i ==> found[j].id != found[i].id
    ensures Rollback.Present(IndexAll(ix, found).store, found[i].order)
    ensures !Rollback.Present(ix.store, found[i].order) && (forall j :: 0 <= j < i ==> found[j].order != found[i].order)
      ==> LiveFrom(IndexAll(ix, found), found[i])
  {
    var n := |found| - 1;
    if i < n {
      IndexFinds(ix, found[..n], i);
      IndexLeavesPresent(IndexAll(ix, found[..n]), [found[n]], found[i].order);
      assert [found[n]][..0] == [];
    } else {
      IndexedAreFound(ix, found[..n]);
      IndexOneIndexes(IndexAll(ix, found[..n]), found[n]);
      if !Rollback.Present(ix.store, found[n].order) && forall j :: 0 <= j < n ==> found[j].order != found[n].order {
        IndexAddsOnlyFound(ix, found[..n], found[n].order);
      }
    }
  }

  lemma {:induction false} IndexAddsOnlyFound(ix: Indexer, found: seq<Event>, order: OrderId)
    requires forall j :: 0 <= j < |found| ==> found[j].OrderConfirmedEvent? && found[j].order != order
    requires !Rollback.Present(ix.store, order)
    ensures !Rollback.Present(IndexAll(ix, found).store, order)
  {
    if found != [] {
      IndexAddsOnlyFound(ix, found[..|found| - 1], order);
    }
  }

  // Every order a scan finds is in the collections afterwards, if its event id is new, with the row it was
  // found with if it was not there before.
  lemma ScanIndexesFound(ix: Indexer, chain: Chain, depth: nat, found: seq<Event>, completes: bool, i: nat)
    requires FoundOn(ix, chain, depth, found) && i < |found| && found[i].id !in ix.indexed
    requires forall j :: 0 <= j < i ==> found[j].id != found[i].id && found[j].order != found[i].order
    ensures var r := Scan(ix, chain, depth, found, completes);
      && Rollback.Present(r.store, found[i].order)
      && (!Rollback.Present(ix.store, found[i].order) ==> LiveFrom(r, found[i]))
  {
    IndexFinds(ix, found, i);
  }

  // A found order whose event id was already ingested changes nothing, also when the order was orphaned since;
  // one that is not there and is new has its id ingested.
  lemma RepeatedIdIsIgnored(ix: Indexer, e: Event)
    requires e.OrderConfirmedEvent?
    ensures e.id in ix.indexed ==> IndexOne(ix, e) == ix
    ensures IndexOne(ix, e).indexed ==
      if Rollback.Present(ix.store, e.order) then ix.indexed else ix.indexed + {e.id}
  {
  }

  // A rollback whose evidence was already used leaves the collections alone: its event id is taken.
  lemma RepeatedEvidenceIsIgnored(ix: Indexer, chain: Chain)
    requires ForkPoint(ix, chain).Some?
    requires var probe := ProbeDown(WindowOf(ix), ix.checkpoints, chain);
      probe.evidence.Some? && probe.evidence.value in ix.checkpoints
      && (probe.evidence.value, ix.checkpoints[probe.evidence.value]) in ix.rolledBack
    ensures Detect(ix, chain).store == ix.store
    ensures forall n <- Detect(ix, chain).checkpoints :: n <= ForkPoint(ix, chain).value
  {
  }

  // Every rollback leaves its evidence on record, and none is forgotten.
  lemma EvidenceIsRecorded(ix: Indexer, chain: Chain)
    ensures var d, evidence := Detect(ix, chain), ProbeDown(WindowOf(ix), ix.checkpoints, chain).evidence;
      if ForkPoint(ix, chain).None? then d == ix
      else
        evidence.Some? && evidence.value in ix.checkpoints
        && d.rolledBack == ix.rolledBack + {(evidence.value, ix.checkpoints[evidence.value])} && d.indexed == ix.indexed
  {
    ProbeEvidence(WindowOf(ix), ix.checkpoints, chain);
  }

  // ---- Over runs of ticks ----

  // What one tick meets: the canonical chain, fixed while it runs, and what its scan finds.
  datatype Tick = Tick(chain: Chain, found: seq<Event>, completes: bool)

  datatype World = World(ix: Indexer, chain: Chain, reverted: set<BlockHash>)

  const Genesis := World(Indexer(map[], EmptyStore, {}, {}), [], {})

  function Hashes(chain: Chain): set<BlockHash> {
    set h | h in chain
  }

  function Step(w: World, depth: nat, t: Tick): World
    requires forall i :: 0 <= i < |t.found| ==> t.found[i].OrderConfirmedEvent?
  {
    World(Scan(Detect(w.ix, t.chain), t.chain, depth, t.found, t.completes), t.chain,
          w.reverted + (Hashes(w.chain) - Hashes(t.chain)))
  }

  // The environment: linked chains, reverted hashes never return, and a reorg leaves one of the
  // newest checkpoints canonical.
  ghost predicate Environment(ancestry: Ancestry, w: World, depth: nat, t: Tick) {
    && Linked(ancestry, t.chain) && Hashes(t.chain) !! w.reverted
    && (w.ix.checkpoints != map[] ==> Survives(w.ix, t.chain))
    && FoundOn(Detect(w.ix, t.chain), t.chain, depth, t.found)
  }

  // The scan reaches its checkpoint, or met no order it had to index before it stopped.
  predicate CleanScan(ix: Indexer, t: Tick)
    requires forall i :: 0 <= i < |t.found| ==> t.found[i].OrderConfirmedEvent?
  {
    t.completes || forall i :: 0 <= i < |t.found| ==> Known(ix, t.found[i])
  }

  predicate OnlyOrders(ticks: seq<Tick>) {
    forall k :: 0 <= k < |ticks| ==>
      forall i :: 0 <= i < |ticks[k].found| ==> ticks[k].found[i].OrderConfirmedEvent?
  }

  function Run(depth: nat, ticks: seq<Tick>): World
    requires OnlyOrders(ticks)
  {
    if ticks == [] then Genesis else Step(Run(depth, ticks[..|ticks| - 1]), depth, ticks[|ticks| - 1])
  }

  ghost predicate ValidTicks(ancestry: Ancestry, depth: nat, ticks: seq<Tick>) {
    && OnlyOrders(ticks)
    && (ticks == [] ||
        (ValidTicks(ancestry, depth, ticks[..|ticks| - 1])
         && Environment(ancestry, Run(depth, ticks[..|ticks| - 1]), depth, ticks[|ticks| - 1])))
  }

  // Every order that is not orphaned was created in a block of the chain.
  ghost predicate OrdersOn(store: Store, chain: Chain) {
    forall o <- store.orders :: Rollback.Present(store, o) ==>
      CanonicalAt(chain, store.orders[o].blockNumber, store.orders[o].createdBlockHash)
  }

  ghost predicate CheckpointsOn(ix: Indexer, chain: Chain) {
    forall n <- ix.checkpoints :: CanonicalAt(chain, n, ix.checkpoints[n])
  }

  // What every tick keeps, whatever its scan does.
  ghost predicate Anchored(ancestry: Ancestry, w: World) {
    && Linked(ancestry, w.chain) && Hashes(w.chain) !! w.reverted
    && CheckpointsOn(w.ix, w.chain)
    && (forall p <- w.ix.rolledBack :: p.1 in w.reverted)
  }

  // Created above the newest checkpoint, where no reorg is looked for.
  predicate AboveNewest(ix: Indexer, order: OrderId) {
    Rollback.Present(ix.store, order)
    && (ix.checkpoints == map[] || ix.store.orders[order].blockNumber > Max(ix.checkpoints.Keys))
  }

  // The reorg, if there is one, reverts a checkpoint, or it spares the orders above the newest one.
  ghost predicate Noticed(ix: Indexer, chain: Chain) {
    ForkPoint(ix, chain).Some?
    || forall o <- ix.store.orders :: AboveNewest(ix, o) ==>
         CanonicalAt(chain, ix.store.orders[o].blockNumber, ix.store.orders[o].createdBlockHash)
  }

  // Two linked chains that agree at a block agree below it.
  lemma AgreeBelow(ancestry: Ancestry, c: Chain, d: Chain, n: nat, m: nat)
    requires Linked(ancestry, c) && Linked(ancestry, d)
    requires m <= n < |c| && n < |d| && c[n] == d[n]
    ensures c[m] == d[m]
  {
    assert c[..n] == d[..n];
    if m < n {
      assert c[..n][m] == d[..n][m];
    }
  }

  lemma DetectKeepsCheckpoints(ancestry: Ancestry, w: World, chain: Chain)
    requires Anchored(ancestry, w) && Linked(ancestry, chain) && w.ix.checkpoints != map[]
    requires Survives(w.ix, chain)
    ensures var d := Detect(w.ix, chain);
      d.checkpoints != map[] && CheckpointsOn(d, chain)
  {
    var d := Detect(w.ix, chain);
    var g := ForkPointIsGreatestCanonical(w.ix, chain);
    forall n <- d.checkpoints
      ensures CanonicalAt(chain, n, d.checkpoints[n])
    {
      assert CanonicalAt(w.chain, n, w.ix.checkpoints[n]) && CanonicalAt(w.chain, g, w.ix.checkpoints[g]);
      AgreeBelow(ancestry, w.chain, chain, g, n);
    }
  }

  // The evidence of a new reorg was never used before, so its rollback is not taken for a duplicate.
  lemma RollbackIsNew(ancestry: Ancestry, w: World, chain: Chain)
    requires Anchored(ancestry, w) && ForkPoint(w.ix, chain).Some?
    ensures var list := WindowOf(w.ix);
      var probe := ProbeDown(list, w.ix.checkpoints, chain);
      probe.evidence.Some? && probe.evidence.value in w.ix.checkpoints
      && (probe.evidence.value, w.ix.checkpoints[probe.evidence.value]) !in w.ix.rolledBack
      && w.ix.checkpoints[probe.evidence.value] in w.chain
  {
    var list := WindowOf(w.ix);
    ProbeEvidence(list, w.ix.checkpoints, chain);
    var e := ProbeDown(list, w.ix.checkpoints, chain).evidence.value;
    assert CanonicalAt(w.chain, e, w.ix.checkpoints[e]);
    assert w.ix.checkpoints[e] in Hashes(w.chain);
  }

  // A hash of one linked chain that sits on another sits at the same height.
  lemma SameHeight(ancestry: Ancestry, c: Chain, d: Chain, n: nat, m: nat)
    requires Linked(ancestry, c) && Linked(ancestry, d) && n < |c| && m < |d| && c[n] == d[m]
    ensures n == m
  {
    assert |c[..n]| == |ancestry(c[n])| == |d[..m]|;
  }

  lemma EvidenceIsReverted(ancestry: Ancestry, w: World, chain: Chain)
    requires Anchored(ancestry, w) && Linked(ancestry, chain) && ForkPoint(w.ix, chain).Some?
    ensures var evidence := ProbeDown(WindowOf(w.ix), w.ix.checkpoints, chain).evidence;
      evidence.Some? && evidence.value in w.ix.checkpoints
      && w.ix.checkpoints[evidence.value] in Hashes(w.chain) - Hashes(chain)
  {
    RollbackIsNew(ancestry, w, chain);
    var list := WindowOf(w.ix);
    ProbeEvidence(list, w.ix.checkpoints, chain);
    var e := ProbeDown(list, w.ix.checkpoints, chain).evidence.value;
    var h := w.ix.checkpoints[e];
    assert CanonicalAt(w.chain, e, h);
    if h in chain {
      var m :| 0 <= m < |chain| && chain[m] == h;
      SameHeight(ancestry, w.chain, chain, e, m);
    }
  }

  // A rollback orphans every order above the fork point and touches no other order's creation.
  lemma DetectRollsBack(ancestry: Ancestry, w: World, chain: Chain)
    requires Anchored(ancestry, w)
    ensures var d := Detect(w.ix, chain);
      && d.store.orders.Keys == w.ix.store.orders.Keys
      && forall o <- w.ix.store.orders ::
           && d.store.orders[o].blockNumber == w.ix.store.orders[o].blockNumber
           && d.store.orders[o].createdBlockHash == w.ix.store.orders[o].createdBlockHash
           && (Rollback.Present(d.store, o) <==>
               Rollback.Present(w.ix.store, o)
               && (ForkPoint(w.ix, chain).Some? ==> w.ix.store.orders[o].blockNumber <= ForkPoint(w.ix, chain).value))
  {
    if ForkPoint(w.ix, chain).Some? {
      RollbackIsNew(ancestry, w, chain);
    }
  }

  // After the fork-point search all orders left are canonical exactly when the reorg was noticed.
  lemma DetectIsCanonicalIffNoticed(ancestry: Ancestry, w: World, chain: Chain)
    requires Anchored(ancestry, w) && OrdersOn(w.ix.store, w.chain) && Linked(ancestry, chain)
    requires w.ix.checkpoints != map[] ==> Survives(w.ix, chain)
    ensures OrdersOn(Detect(w.ix, chain).store, chain) <==> Noticed(w.ix, chain)
  {
    DetectRollsBack(ancestry, w, chain);
    if w.ix.checkpoints == map[] {
      assert WindowOf(w.ix) == [];
    } else {
      var g := ForkPointIsGreatestCanonical(w.ix, chain);
      assert CanonicalAt(w.chain, g, w.ix.checkpoints[g]);
      forall o <- w.ix.store.orders | Rollback.Present(w.ix.store, o) && w.ix.store.orders[o].blockNumber <= g
        ensures CanonicalAt(chain, w.ix.store.orders[o].blockNumber, w.ix.store.orders[o].createdBlockHash)
      {
        AgreeBelow(ancestry, w.chain, chain, g, w.ix.store.orders[o].blockNumber);
      }
    }
  }

  lemma {:induction false} IndexKeepsCheckpoints(ix: Indexer, found: seq<Event>)
    requires forall i :: 0 <= i < |found| ==> found[i].OrderConfirmedEvent?
    ensures IndexAll(ix, found).checkpoints == ix.checkpoints && IndexAll(ix, found).rolledBack == ix.rolledBack
  {
    if found != [] {
      IndexKeepsCheckpoints(ix, found[..|found| - 1]);
    }
  }

  lemma {:induction false} IndexKeepsCanonical(ix: Indexer, chain: Chain, found: seq<Event>)
    requires OrdersOn(ix.store, chain)
    requires forall i :: 0 <= i < |found| ==>
      (found[i].OrderConfirmedEvent? && CanonicalAt(chain, found[i].block, found[i].blockHash))
    ensures OrdersOn(IndexAll(ix, found).store, chain)
  {
    if found != [] {
      IndexKeepsCanonical(ix, chain, found[..|found| - 1]);
    }
  }

  // An order that is in the projection stays as it is while a scan goes on.
  lemma {:induction false} IndexLeavesPresent(ix: Indexer, found: seq<Event>, order: OrderId)
    requires forall i :: 0 <= i < |found| ==> found[i].OrderConfirmedEvent?
    ensures var r := IndexAll(ix, found);
      && r.checkpoints == ix.checkpoints && r.rolledBack == ix.rolledBack
      && (Rollback.Present(ix.store, order) ==>
            Rollback.Present(r.store, order) && r.store.orders[order] == ix.store.orders[order])
  {
    if found != [] {
      IndexLeavesPresent(ix, found[..|found| - 1], order);
    }
  }

  // A scan neither adds an order off the chain nor removes one.
  lemma ScanKeepsCanonical(ix: Indexer, depth: nat, t: Tick)
    requires FoundOn(ix, t.chain, depth, t.found)
    ensures OrdersOn(Scan(ix, t.chain, depth, t.found, t.completes).store, t.chain) <==> OrdersOn(ix.store, t.chain)
  {
    var r := IndexAll(ix, t.found);
    if OrdersOn(ix.store, t.chain) {
      IndexKeepsCanonical(ix, t.chain, t.found);
    } else {
      var o :| o in ix.store.orders && Rollback.Present(ix.store, o)
        && !CanonicalAt(t.chain, ix.store.orders[o].blockNumber, ix.store.orders[o].createdBlockHash);
      IndexLeavesPresent(ix, t.found, o);
      assert Rollback.Present(r.store, o);
    }
  }

  lemma ScanKeepsCheckpoints(ix: Indexer, depth: nat, t: Tick)
    requires CheckpointsOn(ix, t.chain) && FoundOn(ix, t.chain, depth, t.found)
    ensures var r := Scan(ix, t.chain, depth, t.found, t.completes);
      CheckpointsOn(r, t.chain) && r.rolledBack == ix.rolledBack
  {
    IndexKeepsCheckpoints(ix, t.found);
  }

  // Only evidence that has just left the chain joins the rolled back ids.
  lemma DetectRecordsReverted(ancestry: Ancestry, w: World, chain: Chain)
    requires Anchored(ancestry, w) && Linked(ancestry, chain)
    ensures forall p <- Detect(w.ix, chain).rolledBack :: p.1 in w.reverted + (Hashes(w.chain) - Hashes(chain))
  {
    if ForkPoint(w.ix, chain).Some? {
      EvidenceIsReverted(ancestry, w, chain);
    }
  }

  lemma StepKeepsAnchored(ancestry: Ancestry, w: World, depth: nat, t: Tick)
    requires Anchored(ancestry, w)
    requires (forall i :: 0 <= i < |t.found| ==> t.found[i].OrderConfirmedEvent?) && Environment(ancestry, w, depth, t)
    ensures Anchored(ancestry, Step(w, depth, t))
  {
    var d := Detect(w.ix, t.chain);
    if w.ix.checkpoints != map[] {
      DetectKeepsCheckpoints(ancestry, w, t.chain);
    } else {
      assert WindowOf(w.ix) == [];
    }
    DetectRecordsReverted(ancestry, w, t.chain);
    ScanKeepsCheckpoints(d, depth, t);
  }

  // From canonical orders, a tick ends with canonical orders if and only if its reorg was noticed.
  lemma StepIsCanonicalIffNoticed(ancestry: Ancestry, w: World, depth: nat, t: Tick)
    requires Anchored(ancestry, w) && OrdersOn(w.ix.store, w.chain)
    requires (forall i :: 0 <= i < |t.found| ==> t.found[i].OrderConfirmedEvent?) && Environment(ancestry, w, depth, t)
    ensures OrdersOn(Step(w, depth, t).ix.store, t.chain) <==> Noticed(w.ix, t.chain)
  {
    DetectIsCanonicalIffNoticed(ancestry, w, t.chain);
    ScanKeepsCanonical(Detect(w.ix, t.chain), depth, t);
  }

  lemma {:induction false} TicksAreAnchored(ancestry: Ancestry, depth: nat, ticks: seq<Tick>)
    requires ValidTicks(ancestry, depth, ticks)
    ensures Anchored(ancestry, Run(depth, ticks))
  {
    if ticks != [] {
      TicksAreAnchored(ancestry, depth, ticks[..|ticks| - 1]);
      StepKeepsAnchored(ancestry, Run(depth, ticks[..|ticks| - 1]), depth, ticks[|ticks| - 1]);
    }
  }

  // ---- Which checkpoints are held, and which reorgs are found ----

  // Every checkpoint a completed scan saved and no rollback took back, and the greatest block ever saved.
  datatype History = History(saved: map<nat, BlockHash>, peak: nat)

  function Recall(h: History, w: World, depth: nat, t: Tick): History {
    var fork := ForkPoint(w.ix, t.chain);
    var kept := if fork.None? then h.saved else map n | n in h.saved && n <= fork.value :: h.saved[n];
    var safeTip := |t.chain| - 1 - depth;
    if t.completes && safeTip >= 0 && forall k <- Detect(w.ix, t.chain).checkpoints :: k < safeTip then
      History(kept[safeTip := t.chain[safeTip]], if safeTip > h.peak then safeTip else h.peak)
    else History(kept, h.peak)
  }

  function HistoryOf(depth: nat, ticks: seq<Tick>): History
    requires OnlyOrders(ticks)
  {
    if ticks == [] then History(map[], 0)
    else
      var n := |ticks| - 1;
      Recall(HistoryOf(depth, ticks[..n]), Run(depth, ticks[..n]), depth, ticks[n])
  }

  ghost predicate Holds(ix: Indexer, h: History) {
    && (forall n <- ix.checkpoints :: n in h.saved && h.saved[n] == ix.checkpoints[n])
    && (forall n <- h.saved :: n <= h.peak && (n >= h.peak - 500 ==> n in ix.checkpoints))
  }

  lemma StepHolds(w: World, h: History, depth: nat, t: Tick)
    requires Holds(w.ix, h) && forall i :: 0 <= i < |t.found| ==> t.found[i].OrderConfirmedEvent?
    ensures Holds(Step(w, depth, t).ix, Recall(h, w, depth, t))
  {
    var d, next := Detect(w.ix, t.chain), Recall(h, w, depth, t);
    var r := Step(w, depth, t).ix;
    forall n: nat
      ensures n in r.checkpoints ==> n in next.saved && next.saved[n] == r.checkpoints[n]
      ensures n in next.saved ==> n <= next.peak && (n >= next.peak - 500 ==> n in r.checkpoints)
    {
      DetectKeepsUpTo(w.ix, t.chain, n);
      ScanSavesCheckpoint(d, t.chain, depth, t.found, t.completes, n);
    }
  }

  // Over every run of ticks, whatever its reorgs: every checkpoint that a completed scan saved, that was not
  // rolled back and that is at most five hundred blocks below the greatest ever saved is still held, with its
  // hash; and nothing else is held but what a scan saved.
  lemma {:induction false} CheckpointsAreHeld(depth: nat, ticks: seq<Tick>)
    requires OnlyOrders(ticks)
    ensures Holds(Run(depth, ticks).ix, HistoryOf(depth, ticks))
  {
    if ticks != [] {
      var n := |ticks| - 1;
      CheckpointsAreHeld(depth, ticks[..n]);
      StepHolds(Run(depth, ticks[..n]), HistoryOf(depth, ticks[..n]), depth, ticks[n]);
    }
  }

  lemma {:induction false} NewestLength(keys: set<nat>, limit: nat)
    ensures |Newest(keys, limit)| == if |keys| <= limit then |keys| else limit
  {
    if limit > 0 && keys != {} {
      NewestLength(keys - {Max(keys)}, limit - 1);
    }
  }

  lemma {:induction false} DescendingFits(list: seq<nat>, s: set<nat>)
    requires Descending(list) && forall n :: n in list ==> n in s
    ensures |list| <= |s|
  {
    if list != [] {
      forall n | n in list[1..]
        ensures n in s - {list[0]}
      {
        var i :| 0 <= i < |list[1..]| && list[1..][i] == n;
        assert list[0] > list[i + 1];
      }
      DescendingFits(list[1..], s - {list[0]});
    }
  }

  // A checkpoint with fewer than fifty above it is among those a tick looks at.
  lemma InWindow(ix: Indexer, n: nat, above: set<nat>)
    requires n in ix.checkpoints && |above| < 50 && forall m <- ix.checkpoints :: m > n ==> m in above
    ensures n in WindowOf(ix)
  {
    var keys := ix.checkpoints.Keys;
    NewestMeaning(keys, CHECKPOINT_WINDOW);
    NewestLength(keys, CHECKPOINT_WINDOW);
    var list := WindowOf(ix);
    if n !in list {
      DescendingFits(list, above);
      DescendingFits(list, keys - {n});
    }
  }

  lemma ScanOf502(ix: Indexer, chain: Chain, kept: BlockHash)
    requires |chain| == 502 && ix.checkpoints.Keys == {0, 400} && ix.checkpoints[400] == kept
    ensures Scan(ix, chain, 0, [], true).checkpoints == map[400 := kept, 501 := chain[501]]
  {
    forall n: nat
      ensures var r := Scan(ix, chain, 0, [], true).checkpoints;
        (n in r <==> n in {400, 501}) && (n in r ==> r[n] == if n == 400 then kept else chain[501])
    {
      ScanSavesCheckpoint(ix, chain, 0, [], true, n);
    }
  }

  // "Below the greatest ever saved" cannot be read as "below the newest held": a rollback makes an older
  // checkpoint the newest again, and what was trimmed does not come back.
  lemma TrimmedStaysTrimmed(first: BlockHash, kept: BlockHash, was: Chain, chain: Chain)
    requires |was| == 502 && 400 < |chain| && chain[400] == kept && !CanonicalAt(chain, 501, was[501])
    ensures var ix := Indexer(map[0 := first, 400 := kept], EmptyStore, {}, {});
      Detect(Scan(ix, was, 0, [], true), chain).checkpoints == map[400 := kept]
  {
    var ix := Indexer(map[0 := first, 400 := kept], EmptyStore, {}, {});
    var s := Scan(ix, was, 0, [], true);
    assert ix.checkpoints.Keys == {0, 400};
    ScanOf502(ix, was, kept);
    assert 501 in s.checkpoints.Keys && Max(s.checkpoints.Keys) == 501;
    InWindow(s, 400, {501});
    var g := ForkPointIsGreatestCanonical(s, chain);
    assert g == 400;
  }

  // How deep a reorg may go: a checkpoint that was saved and never rolled back, at most five hundred blocks below
  // the greatest ever saved and with fewer than fifty saved above it, lies on both chains.
  ghost predicate ShallowEnough(h: History, was: Chain, chain: Chain) {
    exists n :: n in h.saved && n >= h.peak - 500 && |set m | m in h.saved && m > n| < 50
                && n < |was| && n < |chain| && was[n] == chain[n]
  }

  // Such a reorg leaves one of the newest checkpoints canonical.
  lemma ShallowReorgSurvives(ancestry: Ancestry, depth: nat, ticks: seq<Tick>, chain: Chain)
    requires OnlyOrders(ticks) && Anchored(ancestry, Run(depth, ticks))
    requires ShallowEnough(HistoryOf(depth, ticks), Run(depth, ticks).chain, chain)
    ensures Survives(Run(depth, ticks).ix, chain)
  {
    var w, h := Run(depth, ticks), HistoryOf(depth, ticks);
    CheckpointsAreHeld(depth, ticks);
    var n :| n in h.saved && n >= h.peak - 500 && |set m | m in h.saved && m > n| < 50
             && n < |w.chain| && n < |chain| && w.chain[n] == chain[n];
    InWindow(w.ix, n, set m | m in h.saved && m > n);
    assert CanonicalAt(w.chain, n, w.ix.checkpoints[n]);
  }

  // What a tick meets when reorgs are no deeper than that.
  ghost predicate BoundedTicks(ancestry: Ancestry, depth: nat, ticks: seq<Tick>) {
    && OnlyOrders(ticks)
    && (ticks == [] ||
        var n := |ticks| - 1;
        var w, t := Run(depth, ticks[..n]), ticks[n];
        && BoundedTicks(ancestry, depth, ticks[..n])
        && Linked(ancestry, t.chain) && Hashes(t.chain) !! w.reverted
        && (HistoryOf(depth, ticks[..n]).saved != map[] ==>
              ShallowEnough(HistoryOf(depth, ticks[..n]), w.chain, t.chain))
        && FoundOn(Detect(w.ix, t.chain), t.chain, depth, t.found))
  }

  // So every result about runs of ticks holds of all runs whose reorgs are bounded in this way.
  lemma {:induction false} BoundedTicksAreValid(ancestry: Ancestry, depth: nat, ticks: seq<Tick>)
    requires BoundedTicks(ancestry, depth, ticks)
    ensures ValidTicks(ancestry, depth, ticks)
  {
    if ticks != [] {
      var n := |ticks| - 1;
      BoundedTicksAreValid(ancestry, depth, ticks[..n]);
      TicksAreAnchored(ancestry, depth, ticks[..n]);
      CheckpointsAreHeld(depth, ticks[..n]);
      var w := Run(depth, ticks[..n]);
      if w.ix.checkpoints != map[] {
        assert Max(w.ix.checkpoints.Keys) in HistoryOf(depth, ticks[..n]).saved;
        ShallowReorgSurvives(ancestry, depth, ticks[..n], ticks[n].chain);
      }
    }
  }

  // At the end of each tick so far every order that is not orphaned was created on the canonical chain.
  ghost predicate AlwaysCanonical(depth: nat, ticks: seq<Tick>)
    requires OnlyOrders(ticks)
    decreases |ticks|
  {
    OrdersOn(Run(depth, ticks).ix.store, Run(depth, ticks).chain)
    && (ticks == [] || AlwaysCanonical(depth, ticks[..|ticks| - 1]))
  }

  ghost predicate AlwaysNoticed(depth: nat, ticks: seq<Tick>)
    requires OnlyOrders(ticks)
    decreases |ticks|
  {
    ticks == [] ||
    var n := |ticks| - 1;
    AlwaysNoticed(depth, ticks[..n]) && Noticed(Run(depth, ticks[..n]).ix, ticks[n].chain)
  }

  // Over every run of ticks, scans interrupted or not: each tick ends with all orders that are not orphaned
  // on the canonical chain, if and only if no tick meets a reorg that spares the newest checkpoint and
  // reverts the block of an order above it.
  lemma {:induction false} OrdersAreCanonical(ancestry: Ancestry, depth: nat, ticks: seq<Tick>)
    requires ValidTicks(ancestry, depth, ticks)
    ensures AlwaysCanonical(depth, ticks) <==> AlwaysNoticed(depth, ticks)
  {
    if ticks != [] {
      var n := |ticks| - 1;
      OrdersAreCanonical(ancestry, depth, ticks[..n]);
      TicksAreAnchored(ancestry, depth, ticks[..n]);
      if AlwaysCanonical(depth, ticks[..n]) {
        StepIsCanonicalIffNoticed(ancestry, Run(depth, ticks[..n]), depth, ticks[n]);
      }
    }
  }

  // ---- Clean scans ----

  // No order is above the newest checkpoint.
  ghost predicate Covered(ix: Indexer) {
    forall o <- ix.store.orders :: !AboveNewest(ix, o)
  }

  lemma CoveredIsNoticed(ix: Indexer, chain: Chain)
    requires Covered(ix)
    ensures Noticed(ix, chain)
  {
  }

  lemma DetectKeepsCovered(ancestry: Ancestry, w: World, chain: Chain)
    requires Anchored(ancestry, w) && Covered(w.ix)
    requires w.ix.checkpoints != map[] ==> Survives(w.ix, chain)
    ensures Covered(Detect(w.ix, chain))
  {
    DetectRollsBack(ancestry, w, chain);
    if w.ix.checkpoints == map[] {
      assert WindowOf(w.ix) == [];
    } else {
      var g := ForkPointIsGreatestCanonical(w.ix, chain);
      forall o <- w.ix.store.orders
        ensures !AboveNewest(Detect(w.ix, chain), o)
      {
        assert !AboveNewest(w.ix, o);
      }
    }
  }

  ghost predicate OrdersUpTo(store: Store, block: int) {
    forall o <- store.orders :: Rollback.Present(store, o) ==> store.orders[o].blockNumber <= block
  }

  lemma {:induction false} IndexStaysUpTo(ix: Indexer, block: int, found: seq<Event>)
    requires OrdersUpTo(ix.store, block)
    requires forall i :: 0 <= i < |found| ==> found[i].OrderConfirmedEvent? && found[i].block <= block
    ensures OrdersUpTo(IndexAll(ix, found).store, block)
  {
    if found != [] {
      IndexStaysUpTo(ix, block, found[..|found| - 1]);
    }
  }

  lemma CompleteScanCovers(ix: Indexer, chain: Chain, depth: nat, found: seq<Event>)
    requires Covered(ix) && FoundOn(ix, chain, depth, found)
    ensures Covered(Scan(ix, chain, depth, found, true))
  {
    var safeTip := |chain| - 1 - depth;
    var r := Scan(ix, chain, depth, found, true);
    if safeTip >= 0 && Cursor(ix) <= safeTip {
      forall o <- ix.store.orders | Rollback.Present(ix.store, o)
        ensures ix.store.orders[o].blockNumber <= safeTip
      {
        assert !AboveNewest(ix, o);
      }
      IndexStaysUpTo(ix, safeTip, found);
      assert safeTip in r.checkpoints;
    }
  }

  lemma {:induction false} IndexSkipsKnown(ix: Indexer, found: seq<Event>)
    requires forall i :: 0 <= i < |found| ==> found[i].OrderConfirmedEvent? && Known(ix, found[i])
    ensures IndexAll(ix, found) == ix
  {
    if found != [] {
      IndexSkipsKnown(ix, found[..|found| - 1]);
    }
  }

  // The first order a scan has to index ends up at the block it was found in.
  lemma {:induction false} IndexAddsNew(ix: Indexer, found: seq<Event>) returns (e: Event)
    requires forall i :: 0 <= i < |found| ==> found[i].OrderConfirmedEvent?
    requires exists i :: 0 <= i < |found| && !Known(ix, found[i])
    ensures e in found && e.OrderConfirmedEvent?
    ensures var r := IndexAll(ix, found);
      && Rollback.Present(r.store, e.order) && r.store.orders[e.order].blockNumber == e.block
      && r.checkpoints == ix.checkpoints
  {
    var n := |found| - 1;
    if exists i :: 0 <= i < n && !Known(ix, found[i]) {
      var i :| 0 <= i < n && !Known(ix, found[i]);
      assert found[..n][i] == found[i];
      e := IndexAddsNew(ix, found[..n]);
      IndexLeavesPresent(IndexAll(ix, found[..n]), [found[n]], e.order);
      assert [found[n]][..0] == [];
    } else {
      IndexSkipsKnown(ix, found[..n]);
      e := found[n];
    }
  }

  // A scan leaves no order above the newest checkpoint exactly when it is clean.
  lemma ScanCoversIffClean(ix: Indexer, depth: nat, t: Tick)
    requires Covered(ix) && FoundOn(ix, t.chain, depth, t.found)
    ensures Covered(Scan(ix, t.chain, depth, t.found, t.completes)) <==> CleanScan(ix, t)
  {
    var r := Scan(ix, t.chain, depth, t.found, t.completes);
    if t.completes {
      CompleteScanCovers(ix, t.chain, depth, t.found);
    } else if CleanScan(ix, t) {
      IndexSkipsKnown(ix, t.found);
    } else {
      var e := IndexAddsNew(ix, t.found);
      var i :| 0 <= i < |t.found| && t.found[i] == e;
      assert AboveNewest(r, e.order);
    }
  }

  // What the clean scans are needed for: a reorg above the newest checkpoint goes unnoticed, and an
  // order an interrupted scan left up there keeps its place whatever the later scan finds.
  lemma ReorgAboveCheckpointIsMissed(w: World, depth: nat, t: Tick, order: OrderId)
    requires forall i :: 0 <= i < |t.found| ==> t.found[i].OrderConfirmedEvent?
    requires Rollback.Present(w.ix.store, order)
    requires w.ix.checkpoints != map[] ==>
      var top := Max(w.ix.checkpoints.Keys); CanonicalAt(t.chain, top, w.ix.checkpoints[top])
    ensures var after := Step(w, depth, t).ix.store;
      Rollback.Present(after, order) && after.orders[order] == w.ix.store.orders[order]
  {
    var list := WindowOf(w.ix);
    ProbeEvidence(list, w.ix.checkpoints, t.chain);
    assert Detect(w.ix, t.chain) == w.ix;
    IndexLeavesPresent(w.ix, t.found, order);
  }

  lemma StepCoversIffClean(ancestry: Ancestry, w: World, depth: nat, t: Tick)
    requires Anchored(ancestry, w) && Covered(w.ix)
    requires (forall i :: 0 <= i < |t.found| ==> t.found[i].OrderConfirmedEvent?) && Environment(ancestry, w, depth, t)
    ensures Covered(Step(w, depth, t).ix) <==> CleanScan(Detect(w.ix, t.chain), t)
  {
    DetectKeepsCovered(ancestry, w, t.chain);
    ScanCoversIffClean(Detect(w.ix, t.chain), depth, t);
  }

  ghost predicate CleanTicks(depth: nat, ticks: seq<Tick>)
    requires OnlyOrders(ticks)
  {
    ticks == [] ||
    var n := |ticks| - 1;
    CleanTicks(depth, ticks[..n]) && CleanScan(Detect(Run(depth, ticks[..n]).ix, ticks[n].chain), ticks[n])
  }

  // With clean scans every reorg that matters is noticed.
  lemma {:induction false} CleanTicksNotice(ancestry: Ancestry, depth: nat, ticks: seq<Tick>)
    requires ValidTicks(ancestry, depth, ticks) && CleanTicks(depth, ticks)
    ensures Covered(Run(depth, ticks).ix) && AlwaysNoticed(depth, ticks)
  {
    if ticks != [] {
      var n := |ticks| - 1;
      var w := Run(depth, ticks[..n]);
      CleanTicksNotice(ancestry, depth, ticks[..n]);
      TicksAreAnchored(ancestry, depth, ticks[..n]);
      CoveredIsNoticed(w.ix, ticks[n].chain);
      StepCoversIffClean(ancestry, w, depth, ticks[n]);
    }
  }

  // So with clean scans every tick ends with canonical orders, all below the next scan's first block.
  lemma CleanTicksAreCanonical(ancestry: Ancestry, depth: nat, ticks: seq<Tick>)
    requires ValidTicks(ancestry, depth, ticks) && CleanTicks(depth, ticks)
    ensures AlwaysCanonical(depth, ticks)
    ensures var ix := Run(depth, ticks).ix;
      forall o :: Rollback.Present(ix.store, o) ==> ix.store.orders[o].blockNumber < Cursor(ix)
  {
    CleanTicksNotice(ancestry, depth, ticks);
    OrdersAreCanonical(ancestry, depth, ticks);
    var ix := Run(depth, ticks).ix;
    forall o | Rollback.Present(ix.store, o)
      ensures ix.store.orders[o].blockNumber < Cursor(ix)
    {
      assert !AboveNewest(ix, o);
    }
  }

  // A fork from genesis, every hash spelling out its height, and the ancestry of such hashes.
  function Repeat(c: char, n: nat): BlockHash {
    seq(n, _ => c)
  }

  function Fork(c: char, length: nat): Chain {
    seq(length, n requires 0 <= n => Repeat(c, n))
  }

  function Prefixes(h: BlockHash): Chain {
    seq(|h|, n requires 0 <= n < |h| => h[..n])
  }

  lemma ForkIsLinked(c: char, length: nat)
    ensures Linked(Prefixes, Fork(c, length))
  {
    forall n: nat | n < length
      ensures Prefixes(Fork(c, length)[n]) == Fork(c, length)[..n]
    {
      assert forall m: nat :: m < n ==> Repeat(c, n)[..m] == Repeat(c, m);
    }
  }

  // Reorgs do go unnoticed, at every confirmation depth: a scan that indexes an order of block 1 and stops
  // before its checkpoint, then a reorg of block 1, leaves an open order that is on no chain.
  lemma InterruptedScanLeavesStaleOrder(depth: nat, order: OrderId, doc: OrderDoc)
    returns (ancestry: Ancestry, ticks: seq<Tick>)
    ensures ValidTicks(ancestry, depth, ticks) && Rollback.Present(Run(depth, ticks).ix.store, order)
    ensures var w := Run(depth, ticks);
      var o := w.ix.store.orders[order];
      !CanonicalAt(w.chain, o.blockNumber, o.createdBlockHash)
  {
    ancestry := Prefixes;
    var e := OrderConfirmedEvent("order-confirmed", order, 1, Repeat('a', 1), doc);
    var first, second := Tick(Fork('a', depth + 2), [e], false), Tick(Fork('b', depth + 2), [], true);
    ticks := [first, second];
    ForkIsLinked('a', depth + 2);
    ForkIsLinked('b', depth + 2);
    assert ticks[..1] == [first] && [first][..0] == [];
    assert WindowOf(Genesis.ix) == [] && Detect(Genesis.ix, first.chain) == Genesis.ix;
    assert [e][..0] == [];
    var w := Step(Genesis, depth, first);
    assert w.ix == IndexOne(IndexAll(Genesis.ix, []), e);
    assert Run(depth, ticks[..1]) == w;
    assert Environment(ancestry, Genesis, depth, first) && ValidTicks(ancestry, depth, [first]);
    assert Detect(w.ix, second.chain) == w.ix;
    assert Environment(ancestry, w, depth, second);
    ReorgAboveCheckpointIsMissed(w, depth, second, order);
    assert second.chain[1] == Repeat('b', 1) && Repeat('a', 1)[0] != Repeat('b', 1)[0];
  }
}
