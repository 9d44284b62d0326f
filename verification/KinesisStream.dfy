/** A Kinesis data stream, as far as a reader can tell: shards that records are
    put into, that are split and merged, and whose oldest records expire. */
module KinesisStream {
  type ShardId = string
  type Key = string

  /** `sequence` numbers the puts of the whole stream, so each shard's numbers
      grow and leave gaps. `arrival` is the broker's clock. */
  datatype Record = Record(sequence: nat, key: Key, arrival: int)

  /** A record and the shard it was put into: what one row of a run names. */
  datatype Row = Row(shard: ShardId, record: Record)

  datatype Stream = Stream(
    parents: map<ShardId, seq<ShardId>>,  // every shard there ever was
    listed: set<ShardId>,                 // the ones ListShards still names
    closed: set<ShardId>,                 // split or merged away: no more records
    puts: seq<Row>,                       // every put, in order
    horizon: map<ShardId, nat>,           // how many of a shard's oldest records expired
    route: map<Key, ShardId>,             // the shard each partition key goes to now
    clock: int
  )

  /** The records of one shard, in order. */
  function Of(rows: seq<Row>, id: ShardId): seq<Record> {
    if rows == [] then []
    else
      var last := rows[|rows| - 1];
      Of(rows[..|rows| - 1], id) + if last.shard == id then [last.record] else []
  }

  function Log(s: Stream, id: ShardId): seq<Record> {
    Of(s.puts, id)
  }

  // -------------------------------------------------------------------------
  // A well-formed stream
  // -------------------------------------------------------------------------

  /** Each shard of `path` is a parent of the next. */
  ghost predicate Descends(parents: map<ShardId, seq<ShardId>>, path: seq<ShardId>) {
    forall i :: 0 < i < |path| ==> path[i] in parents && path[i - 1] in parents[path[i]]
  }

  ghost predicate Joins(path: seq<ShardId>, a: ShardId, b: ShardId) {
    |path| > 0 && path[0] == a && path[|path| - 1] == b
  }

  /** `b` came of `a` by splits and merges, or is `a`. */
  ghost predicate Ancestor(parents: map<ShardId, seq<ShardId>>, a: ShardId, b: ShardId) {
    exists path :: Joins(path, a, b) && Descends(parents, path)
  }

  ghost predicate ValidShards(s: Stream) {
    && s.horizon.Keys == s.parents.Keys && s.listed <= s.parents.Keys && s.closed <= s.parents.Keys
    && (forall id, p :: id in s.parents && p in s.parents[id] ==> p in s.closed)
    && (forall id {:trigger s.horizon[id]} :: id in s.parents ==> s.horizon[id] <= |Log(s, id)|)
    && (forall id :: id in s.parents && id !in s.listed ==> id in s.closed && s.horizon[id] >= |Log(s, id)|)
    && (forall id, p :: id in s.parents && id !in s.listed && p in s.parents[id] ==> p !in s.listed)
  }

  ghost predicate ValidPuts(s: Stream) {
    && (forall i :: 0 <= i < |s.puts| ==>
          s.puts[i].record.sequence == i && s.puts[i].shard in s.parents && s.puts[i].record.arrival <= s.clock)
    && (forall i, j :: 0 <= i < j < |s.puts| ==> s.puts[i].record.arrival <= s.puts[j].record.arrival)
  }

  /** A key's records follow one line of descent, down to the shard it is put
      into now. */
  ghost predicate KeyRouted(s: Stream, k: Key) {
    && (k in s.route ==> s.route[k] in s.parents && s.route[k] !in s.closed)
    && (forall i :: 0 <= i < |s.puts| && s.puts[i].record.key == k ==>
          k in s.route && Ancestor(s.parents, s.puts[i].shard, s.route[k]))
    && (forall i, j :: 0 <= i < j < |s.puts| && s.puts[i].record.key == k && s.puts[j].record.key == k ==>
          Ancestor(s.parents, s.puts[i].shard, s.puts[j].shard))
  }

  ghost predicate Routed(s: Stream) {
    forall k :: KeyRouted(s, k)
  }

  ghost predicate Valid(s: Stream) {
    ValidShards(s) && ValidPuts(s) && Routed(s)
  }

  /** A stream as it can be. */
  type Live = s: Stream | Valid(s) witness Stream(map[], {}, {}, [], map[], map[], 0)

  // -------------------------------------------------------------------------
  // What others do to the stream while a run reads it
  // -------------------------------------------------------------------------

  datatype Move =
    | Put(key: Key, wait: nat)
    | Reshard(children: map<ShardId, seq<ShardId>>, route: map<Key, ShardId>)

  /** The shards a split or a merge closes: a split's children name one parent
      between them, a merge's child names two. */
  function Parents(children: map<ShardId, seq<ShardId>>): set<ShardId> {
    set c, p | c in children && p in children[c] :: p
  }

  predicate CanReshard(s: Stream, children: map<ShardId, seq<ShardId>>, route: map<Key, ShardId>) {
    && children.Keys !! s.parents.Keys
    && Parents(children) <= s.parents.Keys - s.closed
    && route.Keys == s.route.Keys
    && forall k :: k in route ==>
         if s.route[k] in Parents(children)
         then route[k] in children && s.route[k] in children[route[k]]
         else route[k] == s.route[k]
  }

  /** A move that cannot be made leaves the stream as it is. */
  function Apply(s: Stream, m: Move): Stream {
    match m
    case Put(key, wait) =>
      if key !in s.route then s else
      var record := Record(|s.puts|, key, s.clock + wait);
      s.(puts := s.puts + [Row(s.route[key], record)], clock := record.arrival)
    case Reshard(children, route) =>
      if !CanReshard(s, children, route) then s else
      s.(parents := s.parents + children,
         listed := s.listed + children.Keys,
         closed := s.closed + Parents(children),
         horizon := s.horizon + map id | id in children :: 0,
         route := route)
  }

  function Play(s: Stream, moves: seq<Move>): Stream
    decreases |moves|
  {
    if moves == [] then s else Play(Apply(s, moves[0]), moves[1..])
  }

  /** What any number of moves leaves of what a reader already saw. */
  ghost predicate Grows(s: Stream, t: Stream) {
    && s.puts <= t.puts && s.clock <= t.clock && s.closed <= t.closed
    && (forall i :: |s.puts| <= i < |t.puts| ==> t.puts[i].shard !in s.closed && t.puts[i].record.arrival >= s.clock)
    && (forall id :: id in s.parents ==> id in t.parents && s.parents[id] == t.parents[id])
    && (forall id :: id in s.parents ==> (id in s.listed <==> id in t.listed))
    && (forall id :: id in s.parents && id in s.horizon ==> id in t.horizon && s.horizon[id] == t.horizon[id])
    && (forall id :: id in t.parents && id !in s.parents ==> id in t.listed)
  }

  lemma GrowsTransitive(s: Stream, t: Stream, u: Stream)
    requires Grows(s, t) && Grows(t, u) && s.horizon.Keys == s.parents.Keys
    ensures Grows(s, u)
  {
    forall i | |s.puts| <= i < |u.puts| ensures u.puts[i].shard !in s.closed && u.puts[i].record.arrival >= s.clock {
      if i < |t.puts| { assert u.puts[i] == t.puts[i]; }
    }
  }

  // -------------------------------------------------------------------------
  // Facts about one shard's records
  // -------------------------------------------------------------------------

  lemma {:induction false} OfConcat(a: seq<Row>, b: seq<Row>, id: ShardId)
    ensures Of(a + b, id) == Of(a, id) + Of(b, id)
    decreases |b|
  {
    if b == [] {
      assert a + b == a;
    } else {
      var init := b[..|b| - 1];
      assert (a + b)[..|a + b| - 1] == a + init;
      OfConcat(a, init, id);
    }
  }

  lemma {:induction false} OfMember(rows: seq<Row>, id: ShardId, i: nat)
    requires i < |Of(rows, id)|
    ensures exists at :: 0 <= at < |rows| && rows[at] == Row(id, Of(rows, id)[i])
  {
    var init := rows[..|rows| - 1];
    if i < |Of(init, id)| {
      OfMember(init, id, i);
      var at :| 0 <= at < |init| && init[at] == Row(id, Of(init, id)[i]);
      assert rows[at] == init[at];
    } else {
      assert rows[|rows| - 1] == Row(id, Of(rows, id)[i]);
    }
  }

  lemma {:induction false} OfNone(rows: seq<Row>, id: ShardId)
    requires forall i :: 0 <= i < |rows| ==> rows[i].shard != id
    ensures Of(rows, id) == []
  {
    if rows != [] { OfNone(rows[..|rows| - 1], id); }
  }

  /** A shard's log only gets longer, and a closed one's stays as it is. */
  lemma LogGrows(s: Stream, t: Stream, id: ShardId)
    requires Grows(s, t)
    ensures Log(s, id) <= Log(t, id)
    ensures id in s.closed ==> Log(s, id) == Log(t, id)
    ensures forall i :: |Log(s, id)| <= i < |Log(t, id)| ==> Log(t, id)[i].arrival >= s.clock
  {
    var newer := t.puts[|s.puts|..];
    assert t.puts == s.puts + newer;
    OfConcat(s.puts, newer, id);
    if id in s.closed { OfNone(newer, id); }
    forall i | |Log(s, id)| <= i < |Log(t, id)| ensures Log(t, id)[i].arrival >= s.clock {
      OfMember(newer, id, i - |Log(s, id)|);
      assert Log(t, id)[i] == Of(newer, id)[i - |Log(s, id)|];
    }
  }

  /** Within a shard, sequence numbers grow, and no arrival is before the last. */
  lemma {:induction false} LogOrdered(puts: seq<Row>, id: ShardId)
    requires forall i :: 0 <= i < |puts| ==> puts[i].record.sequence == i
    requires forall i, j :: 0 <= i < j < |puts| ==> puts[i].record.arrival <= puts[j].record.arrival
    ensures forall i, j :: 0 <= i < j < |Of(puts, id)| ==>
              Of(puts, id)[i].sequence < Of(puts, id)[j].sequence && Of(puts, id)[i].arrival <= Of(puts, id)[j].arrival
    ensures forall i :: 0 <= i < |Of(puts, id)| ==> Of(puts, id)[i].sequence < |puts|
  {
    if puts != [] {
      var init := puts[..|puts| - 1];
      LogOrdered(init, id);
      forall i | 0 <= i < |Of(init, id)| ensures Of(init, id)[i].arrival <= puts[|puts| - 1].record.arrival {
        OfMember(init, id, i);
        var at :| 0 <= at < |init| && init[at] == Row(id, Of(init, id)[i]);
        assert puts[at] == init[at];
      }
    }
  }

  // -------------------------------------------------------------------------
  // Moves keep the stream well formed
  // -------------------------------------------------------------------------

  lemma AncestorReflexive(parents: map<ShardId, seq<ShardId>>, a: ShardId)
    ensures Ancestor(parents, a, a)
  {
    assert Joins([a], a, a) && Descends(parents, [a]);
  }

  lemma AncestorExtends(parents: map<ShardId, seq<ShardId>>, children: map<ShardId, seq<ShardId>>, a: ShardId, b: ShardId)
    requires Ancestor(parents, a, b) && parents.Keys !! children.Keys
    ensures Ancestor(parents + children, a, b)
    ensures forall c :: c in children && b in children[c] ==> Ancestor(parents + children, a, c)
  {
    var path :| Joins(path, a, b) && Descends(parents, path);
    assert Descends(parents + children, path);
    forall c | c in children && b in children[c] ensures Ancestor(parents + children, a, c) {
      assert Joins(path + [c], a, c) && Descends(parents + children, path + [c]);
    }
  }

  lemma PutKeepsShards(s: Stream, key: Key, wait: nat)
    requires ValidShards(s) && ValidPuts(s) && key in s.route && KeyRouted(s, key)
    ensures var t := Apply(s, Put(key, wait)); ValidShards(t) && ValidPuts(t) && Grows(s, t)
  {
    var t := Apply(s, Put(key, wait));
    assert t.puts[..|s.puts|] == s.puts;
    forall id | id in s.parents
      ensures |Log(s, id)| <= |Log(t, id)| && (id in s.closed ==> Log(t, id) == Log(s, id)) {
    }
  }

  lemma PutKeepsRoutes(s: Stream, key: Key, wait: nat)
    requires Routed(s) && key in s.route
    ensures Routed(Apply(s, Put(key, wait)))
  {
    var t := Apply(s, Put(key, wait));
    forall k ensures KeyRouted(t, k) {
      assert KeyRouted(s, k);
      if k == key { AncestorReflexive(s.parents, s.route[key]); }
    }
  }

  lemma ReshardGrows(s: Stream, children: map<ShardId, seq<ShardId>>, route: map<Key, ShardId>)
    requires ValidPuts(s) && CanReshard(s, children, route)
    ensures var t := Apply(s, Reshard(children, route)); ValidPuts(t) && Grows(s, t)
  {
  }

  lemma ReshardKeepsShards(s: Stream, children: map<ShardId, seq<ShardId>>, route: map<Key, ShardId>)
    requires ValidShards(s) && CanReshard(s, children, route)
    ensures ValidShards(Apply(s, Reshard(children, route)))
  {
    var t := Apply(s, Reshard(children, route));
    forall id, p | id in t.parents && p in t.parents[id]
      ensures p in t.closed && (id !in t.listed ==> p !in t.listed)
    {
      if id in children {
        assert p in Parents(children);
      } else {
        assert p in s.parents[id] && p in s.closed;
      }
    }
    forall id | id in t.parents
      ensures t.horizon[id] <= |Log(t, id)| && (id !in t.listed ==> id in t.closed && t.horizon[id] >= |Log(t, id)|)
    {
      if id !in children { assert t.horizon[id] == s.horizon[id]; }
    }
  }

  lemma ReshardReroutes(s: Stream, children: map<ShardId, seq<ShardId>>, route: map<Key, ShardId>)
    requires Routed(s) && CanReshard(s, children, route) && s.closed <= s.parents.Keys
    ensures Routed(Apply(s, Reshard(children, route)))
  {
    var t := Apply(s, Reshard(children, route));
    forall k ensures KeyRouted(t, k) {
      assert KeyRouted(s, k);
      forall i | 0 <= i < |t.puts| && t.puts[i].record.key == k ensures Ancestor(t.parents, t.puts[i].shard, t.route[k]) {
        AncestorExtends(s.parents, children, s.puts[i].shard, s.route[k]);
      }
      forall i, j | 0 <= i < j < |t.puts| && t.puts[i].record.key == k && t.puts[j].record.key == k
        ensures Ancestor(t.parents, t.puts[i].shard, t.puts[j].shard)
      {
        AncestorExtends(s.parents, children, s.puts[i].shard, s.puts[j].shard);
      }
    }
  }

  /** Whatever is put, split or merged, the stream stays well formed, and what
      a reader has seen of it stays as it was. */
  lemma {:induction false} PlayKeeps(s: Stream, moves: seq<Move>)
    requires Valid(s)
    ensures Valid(Play(s, moves)) && Grows(s, Play(s, moves))
    decreases |moves|
  {
    if moves != [] {
      var t := Apply(s, moves[0]);
      MoveKeeps(s, moves[0]);
      PlayKeeps(t, moves[1..]);
      GrowsTransitive(s, t, Play(t, moves[1..]));
    }
  }

  lemma MoveKeeps(s: Stream, m: Move)
    requires Valid(s)
    ensures Valid(Apply(s, m)) && Grows(s, Apply(s, m))
  {
    match m {
      case Put(key, wait) =>
        if key in s.route {
          assert KeyRouted(s, key);
          PutKeepsShards(s, key, wait);
          PutKeepsRoutes(s, key, wait);
        }
      case Reshard(children, route) =>
        if CanReshard(s, children, route) {
          ReshardGrows(s, children, route);
          ReshardKeepsShards(s, children, route);
          ReshardReroutes(s, children, route);
        }
    }
  }
}
