/** In what order runs read shards: parents first, whatever splits and merges. */
module KinesisOrder {
  import opened Common
  import opened KinesisStream
  import opened KinesisSource

  /** What is known of the shards, and for each finished or delisted one how many
      rows there were when it became so. */
  datatype Order = Order(
    parents: map<ShardId, seq<ShardId>>,
    listed: set<ShardId>,
    positions: Positions,
    rows: seq<Row>,
    fin: map<ShardId, nat>
  )

  ghost predicate NoneFrom(rows: seq<Row>, k: nat, id: ShardId) {
    k <= |rows| && forall i :: k <= i < |rows| ==> rows[i].shard != id
  }

  ghost predicate FinishedBy(fin: map<ShardId, nat>, p: ShardId, k: nat) {
    p in fin && fin[p] <= k
  }

  ghost predicate AfterParents(parents: map<ShardId, seq<ShardId>>, fin: map<ShardId, nat>, id: ShardId, k: nat) {
    id in parents && forall p :: p in parents[id] ==> FinishedBy(fin, p, k)
  }

  /** A finished or delisted shard's rows come before it was so, its children's
      after, and its parents were finished no later. */
  ghost predicate Ordered(o: Order) {
    && (forall id :: id in o.fin <==> id in o.parents && (id !in o.listed || Get(o.positions, id) == Some(Done)))
    && (forall id :: id in o.fin ==> NoneFrom(o.rows, o.fin[id], id) && AfterParents(o.parents, o.fin, id, o.fin[id]))
    && (forall i :: 0 <= i < |o.rows| ==> AfterParents(o.parents, o.fin, o.rows[i].shard, i))
  }

  lemma PassOrders(o: Order, s: Stream, t: Stream)
    requires Ordered(o) && Grows(s, t) && o.parents == s.parents && o.listed == s.listed && o.positions.Keys <= s.parents.Keys
    ensures Ordered(o.(parents := t.parents, listed := t.listed))
  {
    forall id, k | AfterParents(s.parents, o.fin, id, k) ensures AfterParents(t.parents, o.fin, id, k) {
    }
  }

  lemma DelistOrders(o: Order, id: ShardId)
    requires Ordered(o) && id in o.parents && forall p :: p in o.parents[id] ==> p !in o.listed && p in o.parents
    ensures Ordered(o.(listed := o.listed - {id}, fin := if id in o.fin then o.fin else o.fin[id := |o.rows|]))
  {
    var more := if id in o.fin then o.fin else o.fin[id := |o.rows|];
    forall other, k | AfterParents(o.parents, o.fin, other, k) ensures AfterParents(o.parents, more, other, k) {
      forall p | p in o.parents[other] ensures FinishedBy(more, p, k) {
        assert FinishedBy(o.fin, p, k);
      }
    }
    forall p | p in o.parents[id] ensures FinishedBy(more, p, |o.rows|) {
      assert p in o.fin && NoneFrom(o.rows, o.fin[p], p);
    }
  }

  // -------------------------------------------------------------------------
  // A run that succeeds
  // -------------------------------------------------------------------------

  function Finish(b: Batch, already: nat, fin: map<ShardId, nat>): map<ShardId, nat> {
    map id | id in fin.Keys + b.finished.Keys :: if id in fin then fin[id] else already + b.finished[id]
  }

  /** What was done before a run is done after it, and a run finishes only what
      it opened. */
  ghost predicate KeepsDone(positions: Positions, b: Batch, saves: Positions) {
    && (forall id :: Get(positions, id) == Some(Done) ==> id !in b.openings)
    && (forall id :: Get(saves, id) == Some(Done) <==> Get(b.positions, id) == Some(Done))
    && (forall id :: Get(saves, id) == Some(Done) <==> Get(positions, id) == Some(Done) || (id in b.openings && id in b.finished))
  }

  /** The shards as the run listed them are those there were, and new ones. */
  ghost predicate Extends(o: Order, at: Stream) {
    && at.listed <= at.parents.Keys && o.positions.Keys <= o.parents.Keys
    && (forall id, p :: id in at.parents && p in at.parents[id] ==> p in at.parents)
    && (forall id :: id in o.parents ==> id in at.parents && o.parents[id] == at.parents[id] && (id in o.listed <==> id in at.listed))
    && (forall id :: id in at.parents && id !in o.parents ==> id in at.listed)
  }

  ghost predicate RanOn(o: Order, at: Stream, b: Batch, w: seq<Row>, saves: Positions) {
    Ordered(o) && Extends(o, at) && Lineage(at, b, w) && KeepsDone(o.positions, b, saves)
  }

  function Afterwards(o: Order, at: Stream, b: Batch, w: seq<Row>, saves: Positions): Order {
    Order(at.parents, at.listed, saves, o.rows + w, Finish(b, |o.rows|, o.fin))
  }

  lemma FinishFacts(b: Batch, already: nat, fin: map<ShardId, nat>)
    ensures var more := Finish(b, already, fin);
      && more.Keys == fin.Keys + b.finished.Keys
      && (forall id :: id in fin ==> more[id] == fin[id])
      && (forall id :: id in b.finished && id !in fin ==> more[id] == already + b.finished[id])
  {
  }

  lemma KeepsParents(o: Order, at: Stream, b: Batch, id: ShardId, k: nat)
    requires Extends(o, at) && AfterParents(o.parents, o.fin, id, k)
    ensures AfterParents(at.parents, Finish(b, |o.rows|, o.fin), id, k)
  {
    FinishFacts(b, |o.rows|, o.fin);
    forall p | p in at.parents[id] ensures FinishedBy(Finish(b, |o.rows|, o.fin), p, k) {
      assert FinishedBy(o.fin, p, k);
    }
  }

  /** When a parent of a shard the run opened was finished: before the run, or by
      it before `k` of its rows. */
  lemma ParentFinished(o: Order, at: Stream, b: Batch, w: seq<Row>, saves: Positions, id: ShardId, p: ShardId, k: nat)
    requires RanOn(o, at, b, w, saves) && id in at.parents && p in at.parents[id]
    requires p in at.listed ==> p in b.finished && b.finished[p] <= k
    ensures FinishedBy(Finish(b, |o.rows|, o.fin), p, |o.rows| + k)
  {
    FinishFacts(b, |o.rows|, o.fin);
    if p in o.fin {
      assert NoneFrom(o.rows, o.fin[p], p);
    } else {
      assert p in at.parents && p in at.listed;
    }
  }

  /** Rows the run wrote, and shards it finished, come after their parents. */
  lemma WroteAfterParents(o: Order, at: Stream, b: Batch, w: seq<Row>, saves: Positions, i: nat)
    requires RanOn(o, at, b, w, saves) && i < |w|
    ensures AfterParents(at.parents, Finish(b, |o.rows|, o.fin), w[i].shard, |o.rows| + i)
  {
    var id := w[i].shard;
    assert id in b.openings;
    forall p | p in at.parents[id] ensures FinishedBy(Finish(b, |o.rows|, o.fin), p, |o.rows| + i) {
      assert p in at.listed ==> Parent(at, p, id);
      ParentFinished(o, at, b, w, saves, id, p, i);
    }
  }

  lemma NewlyFinished(o: Order, at: Stream, b: Batch, w: seq<Row>, saves: Positions, id: ShardId)
    requires RanOn(o, at, b, w, saves) && id in b.finished && id !in o.fin
    ensures id in b.openings
  {
    assert Get(saves, id) == Some(Done);
  }

  lemma FinishedAfterParents(o: Order, at: Stream, b: Batch, w: seq<Row>, saves: Positions, id: ShardId)
    requires RanOn(o, at, b, w, saves) && id in b.finished && id !in o.fin
    ensures AfterParents(at.parents, Finish(b, |o.rows|, o.fin), id, |o.rows| + b.finished[id])
  {
    NewlyFinished(o, at, b, w, saves, id);
    forall p | p in at.parents[id] ensures FinishedBy(Finish(b, |o.rows|, o.fin), p, |o.rows| + b.finished[id]) {
      assert p in at.listed ==> Parent(at, p, id);
      ParentFinished(o, at, b, w, saves, id, p, b.finished[id]);
    }
  }

  lemma RunFinishes(o: Order, at: Stream, b: Batch, w: seq<Row>, saves: Positions, id: ShardId)
    requires RanOn(o, at, b, w, saves)
    ensures id in Finish(b, |o.rows|, o.fin) <==> id in at.parents && (id !in at.listed || Get(saves, id) == Some(Done))
  {
    FinishFacts(b, |o.rows|, o.fin);
    assert id in o.fin <==> id in o.parents && (id !in o.listed || Get(o.positions, id) == Some(Done));
  }

  /** A shard that was finished before the run is not opened by it. */
  lemma NotOpened(o: Order, at: Stream, b: Batch, w: seq<Row>, saves: Positions, id: ShardId)
    requires RanOn(o, at, b, w, saves) && id in o.fin
    ensures id !in b.openings
  {
  }

  lemma NoneLater(o: Order, at: Stream, b: Batch, w: seq<Row>, saves: Positions, id: ShardId)
    requires RanOn(o, at, b, w, saves) && id in Finish(b, |o.rows|, o.fin)
    ensures NoneFrom(o.rows + w, Finish(b, |o.rows|, o.fin)[id], id)
  {
    FinishFacts(b, |o.rows|, o.fin);
    if id in o.fin {
      NotOpened(o, at, b, w, saves, id);
      assert NoneFrom(o.rows, o.fin[id], id);
      assert forall i :: 0 <= i < |w| ==> w[i].shard in b.openings;
    }
  }

  lemma FinishedOne(o: Order, at: Stream, b: Batch, w: seq<Row>, saves: Positions, id: ShardId)
    requires RanOn(o, at, b, w, saves) && id in Finish(b, |o.rows|, o.fin)
    ensures AfterParents(at.parents, Finish(b, |o.rows|, o.fin), id, Finish(b, |o.rows|, o.fin)[id])
  {
    FinishFacts(b, |o.rows|, o.fin);
    if id in o.fin {
      KeepsParents(o, at, b, id, o.fin[id]);
    } else {
      FinishedAfterParents(o, at, b, w, saves, id);
    }
  }

  lemma RowAfter(o: Order, at: Stream, b: Batch, w: seq<Row>, saves: Positions, i: nat)
    requires RanOn(o, at, b, w, saves) && i < |o.rows + w|
    ensures AfterParents(at.parents, Finish(b, |o.rows|, o.fin), (o.rows + w)[i].shard, i)
  {
    if i < |o.rows| {
      KeepsParents(o, at, b, o.rows[i].shard, i);
    } else {
      WroteAfterParents(o, at, b, w, saves, i - |o.rows|);
    }
  }

  /** The rows of a run that succeeds go on from those before in that order. */
  lemma RunOrders(o: Order, at: Stream, b: Batch, w: seq<Row>, saves: Positions)
    requires RanOn(o, at, b, w, saves)
    ensures Ordered(Afterwards(o, at, b, w, saves))
  {
    var fin := Finish(b, |o.rows|, o.fin);
    forall id ensures id in fin <==> id in at.parents && (id !in at.listed || Get(saves, id) == Some(Done)) {
      RunFinishes(o, at, b, w, saves, id);
    }
    forall id | id in fin ensures NoneFrom(o.rows + w, fin[id], id) && AfterParents(at.parents, fin, id, fin[id]) {
      NoneLater(o, at, b, w, saves, id);
      FinishedOne(o, at, b, w, saves, id);
    }
    forall i | 0 <= i < |o.rows + w| ensures AfterParents(at.parents, fin, (o.rows + w)[i].shard, i) {
      RowAfter(o, at, b, w, saves, i);
    }
  }

  lemma DoneOne(g: Given, s: Stream, id: ShardId, opening: Option<Opening>, now: Option<ShardPosition>, written: seq<Record>)
    requires id in s.horizon && Reads(g, s, id, opening, now, written)
    ensures Get(g.saved, id) == Some(Done) ==> opening.None? && now == Some(Done)
    ensures opening.None? ==> now == Get(g.saved, id)
  {
  }

  lemma SuccessKeepsDone(g: Given, s: Stream, b: Batch, w: seq<Row>, saves: Positions)
    requires ReadsAll(g, s, b, w) && Lineage(g.at, b, w) && g.at.listed <= s.horizon.Keys
    requires forall id :: Get(saves, id) == Saves(g, b, id)
    ensures KeepsDone(g.saved, b, saves)
  {
    forall id
      ensures Get(g.saved, id) == Some(Done) ==> id !in b.openings && Get(b.positions, id) == Some(Done)
      ensures id !in b.openings ==> Get(b.positions, id) == Get(g.saved, id)
      ensures Get(saves, id) == Some(Done) <==> Get(b.positions, id) == Some(Done)
    {
      assert Of(w, id) == Of(w, id);
      if id in s.horizon { DoneOne(g, s, id, Get(b.openings, id), Get(b.positions, id), Of(w, id)); }
    }
  }

  lemma SavesKnown(g: Given, s: Stream, b: Batch, w: seq<Row>, saves: Positions)
    requires ReadsAll(g, s, b, w) && b.openings.Keys <= g.at.parents.Keys && g.saved.Keys <= g.at.parents.Keys
    requires forall id :: Get(saves, id) == Saves(g, b, id)
    ensures saves.Keys <= g.at.parents.Keys
  {
    forall id | id in saves ensures id in g.at.parents {
      assert Get(saves, id) == Saves(g, b, id);
      assert Of(w, id) == Of(w, id);
      if id in s.horizon { DoneOne(g, s, id, Get(b.openings, id), Get(b.positions, id), Of(w, id)); }
    }
  }

  /** Along a line of descent, each shard was finished before the last one's
      row was written. */
  lemma {:induction false} LineAt(o: Order, path: seq<ShardId>, r: nat, k: nat)
    requires Ordered(o) && r < |o.rows|
    requires k < |path| - 1 && Descends(o.parents, path) && path[|path| - 1] == o.rows[r].shard
    ensures path[k] in o.fin && o.fin[path[k]] <= r
    decreases |path| - k
  {
    assert path[k + 1] in o.parents && path[k + 1 - 1] in o.parents[path[k + 1]];
    if k + 1 < |path| - 1 {
      LineAt(o, path, r, k + 1);
      assert AfterParents(o.parents, o.fin, path[k + 1], o.fin[path[k + 1]]);
    } else {
      assert AfterParents(o.parents, o.fin, o.rows[r].shard, r);
    }
    assert FinishedBy(o.fin, path[k], r);
  }
}
