/** `snk.stream.kafka`: rows go out in batches, each split by partition; rows of
    one key always to one partition, as from a Java producer. */
module KafkaSink {
  import opened Common
  import opened KafkaHash

  /** What a row has in the key column, if there is one. */
  datatype KeyCell = Absent | Null | Key(bytes: Bytes)

  datatype Row = Row(value: string, key: KeyCell)

  // -------------------------------------------------------------------------
  // One batch
  // -------------------------------------------------------------------------

  /** `pick` is the partitioner. */
  datatype Settings = Settings(keyColumn: bool, batchSize: nat, partitions: seq<int>, pick: Bytes -> int)

  ghost predicate Usable(settings: Settings) {
    && settings.batchSize > 0 && settings.partitions != []
    && forall key :: settings.pick(key) in settings.partitions
  }

  function JavaSettings(keyColumn: bool, batchSize: nat, partitions: seq<int>): (settings: Settings)
    requires batchSize > 0 && partitions != []
    ensures Usable(settings)
  {
    Settings(keyColumn, batchSize, partitions, key => PartitionFor(key, partitions))
  }

  /** Where a row goes; nothing when the key column is not one of the rows'. */
  function Place(settings: Settings, row: Row, keyless: int): (r: Option<int>)
    requires Usable(settings)
    ensures r.None? <==> settings.keyColumn && row.key.Absent?
    ensures r.Some? ==> r.value in settings.partitions || r.value == keyless
  {
    if !settings.keyColumn then Some(keyless)
    else match row.key
         case Absent => None
         case Null => Some(keyless)
         case Key(bytes) => Some(settings.pick(bytes))
  }

  ghost predicate Placed(settings: Settings, rows: seq<Row>) {
    forall row :: row in rows ==> !(settings.keyColumn && row.key.Absent?)
  }

  function Rows(shares: map<int, seq<Row>>, p: int): seq<Row> {
    if p in shares then shares[p] else []
  }

  /** The rows that go to `p`, in order, when the keyless among them go to
      `keyless`. */
  function Share(settings: Settings, rows: seq<Row>, keyless: int, p: int): seq<Row>
    requires Usable(settings)
  {
    if rows == [] then []
    else
      var n := |rows| - 1;
      Share(settings, rows[..n], keyless, p) + if Place(settings, rows[n], keyless) == Some(p) then [rows[n]] else []
  }

  ghost predicate Shared(settings: Settings, rows: seq<Row>, keyless: int, shares: map<int, seq<Row>>)
    requires Usable(settings)
  {
    && (forall p :: Rows(shares, p) == Share(settings, rows, keyless, p))
    && (forall p :: p in shares ==> (p in settings.partitions || p == keyless) && shares[p] != [])
  }

  /** What each partition gets of these rows; nothing if a row lacks its key. */
  method Assign(settings: Settings, rows: seq<Row>, keyless: int) returns (r: Option<map<int, seq<Row>>>)
    requires Usable(settings)
    ensures r.None? <==> !Placed(settings, rows)
    ensures r.Some? ==> Shared(settings, rows, keyless, r.value)
  {
    var shares: map<int, seq<Row>> := map[];
    for i := 0 to |rows|
      invariant Shared(settings, rows[..i], keyless, shares) && Placed(settings, rows[..i])
    {
      assert rows[..i + 1] == rows[..i] + [rows[i]];
      var place := Place(settings, rows[i], keyless);
      if place.None? {
        assert rows[i] in rows;
        return None;
      }
      SharedMore(settings, rows[..i], rows[i], keyless, shares);
      shares := shares[place.value := Rows(shares, place.value) + [rows[i]]];
    }
    assert rows[..|rows|] == rows;
    r := Some(shares);
  }

  lemma SharedMore(settings: Settings, rows: seq<Row>, row: Row, keyless: int, shares: map<int, seq<Row>>)
    requires Usable(settings) && Shared(settings, rows, keyless, shares) && Place(settings, row, keyless).Some?
    ensures var p := Place(settings, row, keyless).value;
      Shared(settings, rows + [row], keyless, shares[p := Rows(shares, p) + [row]])
  {
    var p, more := Place(settings, row, keyless).value, rows + [row];
    var after := shares[p := Rows(shares, p) + [row]];
    assert more[..|more| - 1] == rows;
    forall q ensures Rows(after, q) == Share(settings, more, keyless, q) {
      assert Rows(shares, q) == Share(settings, rows, keyless, q);
    }
    forall q | q in after ensures (q in settings.partitions || q == keyless) && after[q] != [] {
      assert q == p || q in shares;
    }
  }

  // -------------------------------------------------------------------------
  // A whole write
  // -------------------------------------------------------------------------

  /** What each partition holds. */
  class Cluster {
    var log: map<int, seq<Row>>
    ghost var faults: nat   // requests that failed

    constructor (partitions: seq<int>)
      ensures log == map p | p in partitions :: []
      ensures faults == 0
    {
      log := map p | p in partitions :: [];
      faults := 0;
    }

    /** A failed request may have landed all the same. */
    method Produce(p: int, rows: seq<Row>) returns (ok: bool)
      requires p in log && rows != []
      modifies this
      ensures log == old(log) || log == old(log)[p := old(log)[p] + rows]
      ensures ok ==> log == old(log)[p := old(log)[p] + rows]
      ensures faults == old(faults) + if ok then 0 else 1
    {
      ok := *;
      if !ok { faults := faults + 1; }
      var landed: bool := *;
      if ok || landed { log := log[p := log[p] + rows]; }
    }
  }

  /** Nothing of a share landed, or all of it. */
  predicate Landed(was: seq<Row>, now: seq<Row>, share: seq<Row>) {
    now == was || now == was + share
  }

  /** Send one batch's shares, a request each. */
  method SendShares(cluster: Cluster, shares: map<int, seq<Row>>) returns (ok: bool)
    requires forall p :: p in shares ==> p in cluster.log && shares[p] != []
    modifies cluster
    ensures old(cluster.log).Keys <= cluster.log.Keys && cluster.faults == old(cluster.faults) + if ok then 0 else 1
    ensures forall p :: p in old(cluster.log) ==> Landed(old(cluster.log)[p], cluster.log[p], Rows(shares, p))
    ensures ok ==> forall p :: p in old(cluster.log) ==> cluster.log[p] == old(cluster.log)[p] + Rows(shares, p)
  {
    var left := shares.Keys;
    while exists p :: p in left
      invariant left <= shares.Keys && old(cluster.log).Keys <= cluster.log.Keys && cluster.faults == old(cluster.faults)
      invariant forall p :: p in old(cluster.log) ==>
                  cluster.log[p] == old(cluster.log)[p] + if p in left then [] else Rows(shares, p)
      decreases left
    {
      var p :| p in left;
      ok := cluster.Produce(p, shares[p]);
      if !ok { return; }
      left := left - {p};
    }
    ok := true;
  }

  /** Where the i-th row of a write goes: the keyless of one batch share a
      partition, which takes turns across batches. */
  function Target(settings: Settings, row: Row, i: nat): Option<int>
    requires Usable(settings)
  {
    Place(settings, row, settings.partitions[i / settings.batchSize % |settings.partitions|])
  }

  /** The rows of a whole write that go to `p`, in order. */
  function Sent(settings: Settings, rows: seq<Row>, p: int): seq<Row>
    requires Usable(settings)
  {
    if rows == [] then []
    else
      var n := |rows| - 1;
      Sent(settings, rows[..n], p) + if Target(settings, rows[n], n) == Some(p) then [rows[n]] else []
  }

  /** A batch adds its shares to what was sent. */
  lemma {:induction false} SentBatch(settings: Settings, done: seq<Row>, batch: seq<Row>, sent: nat, p: int)
    requires Usable(settings) && |done| == sent * settings.batchSize && |batch| <= settings.batchSize
    ensures Sent(settings, done + batch, p)
         == Sent(settings, done, p) + Share(settings, batch, settings.partitions[sent % |settings.partitions|], p)
    decreases |batch|
  {
    if batch == [] {
      assert done + batch == done;
    } else {
      var n := |batch| - 1;
      assert (done + batch)[..|done + batch| - 1] == done + batch[..n];
      SentBatch(settings, done, batch[..n], sent, p);
      Quotient(sent * settings.batchSize + n, settings.batchSize, sent, n);
    }
  }

  /** Every partition holds what `done` sends it after what it held. */
  ghost predicate Delivered(settings: Settings, was: map<int, seq<Row>>, now: map<int, seq<Row>>, done: seq<Row>)
    requires Usable(settings)
  {
    forall p :: p in was ==> p in now && now[p] == was[p] + Sent(settings, done, p)
  }

  /** The same, but of the batch that failed each partition may have its share
      or nothing. */
  ghost predicate Partly(settings: Settings, was: map<int, seq<Row>>, now: map<int, seq<Row>>, done: seq<Row>, batch: seq<Row>)
    requires Usable(settings)
  {
    forall p :: p in was ==>
      p in now && (now[p] == was[p] + Sent(settings, done, p) || now[p] == was[p] + Sent(settings, done + batch, p))
  }

  /** Send one batch. */
  method SendBatch(settings: Settings, cluster: Cluster, ghost was: map<int, seq<Row>>, ghost done: seq<Row>, batch: seq<Row>, sent: nat) returns (ok: bool)
    requires Usable(settings) && |done| == sent * settings.batchSize && |batch| <= settings.batchSize
    requires (forall p :: p in settings.partitions ==> p in was) && Delivered(settings, was, cluster.log, done)
    modifies cluster
    ensures ok ==> Delivered(settings, was, cluster.log, done + batch) && Placed(settings, batch)
    ensures !ok ==> Partly(settings, was, cluster.log, done, batch)
    ensures cluster.faults >= old(cluster.faults) && (ok <==> Placed(settings, batch) && cluster.faults == old(cluster.faults))
  {
    var keyless := settings.partitions[sent % |settings.partitions|];
    var shares := Assign(settings, batch, keyless);
    if shares.None? { return false; }
    ghost var before := cluster.log;
    ok := SendShares(cluster, shares.value);
    forall p | p in was ensures Landed(before[p], cluster.log[p], Share(settings, batch, keyless, p)) {
      assert Rows(shares.value, p) == Share(settings, batch, keyless, p);
    }
    forall p ensures Sent(settings, done + batch, p) == Sent(settings, done, p) + Share(settings, batch, keyless, p) {
      SentBatch(settings, done, batch, sent, p);
    }
  }

  datatype Failure = Input | Batch(delivered: nat)

  /** The first `done` rows went out, and had the key column. */
  ghost predicate Through(settings: Settings, was: map<int, seq<Row>>, now: map<int, seq<Row>>, rows: seq<Row>, done: nat)
    requires Usable(settings) && done <= |rows|
  {
    Delivered(settings, was, now, rows[..done]) && Placed(settings, rows[..done])
  }

  /** Send the rows from `done` to `at`. */
  method Flush(settings: Settings, cluster: Cluster, ghost was: map<int, seq<Row>>, ghost rows: seq<Row>, ghost done: nat, ghost at: nat, batch: seq<Row>, sent: nat) returns (ok: bool)
    requires Usable(settings) && forall p :: p in settings.partitions ==> p in was
    requires done == sent * settings.batchSize && done <= at <= |rows| && batch == rows[done..at] && |batch| <= settings.batchSize
    requires Through(settings, was, cluster.log, rows, done)
    modifies cluster
    ensures if ok then Through(settings, was, cluster.log, rows, at) else Partly(settings, was, cluster.log, rows[..done], rows[done..at])
    ensures cluster.faults >= old(cluster.faults) && (ok <==> Placed(settings, batch) && cluster.faults == old(cluster.faults))
  {
    Slices(rows, done, at);
    ok := SendBatch(settings, cluster, was, rows[..done], batch, sent);
    PlacedJoins(settings, rows[..done], batch);
  }

  lemma PlacedJoins(settings: Settings, a: seq<Row>, b: seq<Row>)
    ensures Placed(settings, a) && Placed(settings, b) ==> Placed(settings, a + b)
  {
  }

  /** The batch after `sent` whole ones. */
  function BatchAt(settings: Settings, rows: seq<Row>, sent: nat): seq<Row>
    requires sent * settings.batchSize <= |rows|
  {
    var done := sent * settings.batchSize;
    rows[done..Min(|rows|, done + settings.batchSize)]
  }

  /** Write all rows, in batches; if `broken`, the rows are followed by one that
      cannot be read. `sent` batches went out whole. */
  method WriteBatches(settings: Settings, cluster: Cluster, rows: seq<Row>, broken: bool) returns (r: Result<nat, Failure>, sent: nat)
    requires Usable(settings) && forall p :: p in settings.partitions ==> p in cluster.log
    modifies cluster
    ensures r.Ok? ==> !broken && r.value == |rows| && Through(settings, old(cluster.log), cluster.log, rows, |rows|)
    ensures r.Err? ==> sent * settings.batchSize <= |rows| && (r.error.Batch? ==> r.error.delivered == sent * settings.batchSize)
    ensures r.Err? && r.error.Input? ==> broken && |rows| < sent * settings.batchSize + settings.batchSize
    ensures r.Err? && r.error.Batch? ==> cluster.faults > old(cluster.faults) || !Placed(settings, BatchAt(settings, rows, sent))
    ensures r.Err? && r.error.Input? ==> Through(settings, old(cluster.log), cluster.log, rows, sent * settings.batchSize)
    ensures r.Err? && r.error.Batch? ==>
              var done := sent * settings.batchSize;
              Partly(settings, old(cluster.log), cluster.log, rows[..done], BatchAt(settings, rows, sent))
  {
    sent := 0;
    var done, at, batch, exhausted := 0, 0, [], false;
    while !exhausted
      invariant 0 <= done <= at <= |rows| && batch == rows[done..at] && |batch| < settings.batchSize
      invariant !exhausted ==> done == sent * settings.batchSize
      invariant exhausted ==> done == at == |rows|
      invariant Through(settings, old(cluster.log), cluster.log, rows, done) && cluster.faults == old(cluster.faults)
      invariant exhausted ==> !broken
      decreases !exhausted, |rows| - at
    {
      if at == |rows| && broken { return Err(Input), sent; }
      Slices(rows, done, at);
      if at < |rows| { batch, at := batch + [rows[at]], at + 1; } else { exhausted := true; }
      if batch == [] || !(|batch| == settings.batchSize || exhausted) { continue; }
      var ok := Flush(settings, cluster, old(cluster.log), rows, done, at, batch, sent);
      if !ok {
        assert batch == BatchAt(settings, rows, sent);
        return Err(Batch(done)), sent;
      }
      sent, done, batch := sent + 1, at, [];
    }
    r := Ok(done);
  }

  // -------------------------------------------------------------------------
  // What a whole write amounts to
  // -------------------------------------------------------------------------

  /** What several partitions are sent, together. */
  function Together(settings: Settings, rows: seq<Row>, partitions: seq<int>): multiset<Row>
    requires Usable(settings)
  {
    if partitions == [] then multiset{}
    else multiset(Sent(settings, rows, partitions[0])) + Together(settings, rows, partitions[1..])
  }

  lemma {:induction false} TogetherMore(settings: Settings, rows: seq<Row>, partitions: seq<int>)
    requires Usable(settings) && Distinct(partitions) && rows != []
    ensures var n := |rows| - 1;
      Together(settings, rows, partitions) == Together(settings, rows[..n], partitions)
        + if Goes(settings, rows, partitions) then multiset{rows[n]} else multiset{}
  {
    if partitions != [] {
      var n := |rows| - 1;
      TogetherMore(settings, rows, partitions[1..]);
      SentMore(settings, rows, partitions[0]);
      if Target(settings, rows[n], n).Some? { OneOrRest(partitions, Target(settings, rows[n], n)); }
      Adds(multiset(Sent(settings, rows[..n], partitions[0])), Together(settings, rows[..n], partitions[1..]), rows[n],
           Target(settings, rows[n], n) == Some(partitions[0]), Goes(settings, rows, partitions[1..]));
    }
  }

  lemma OneOrRest(partitions: seq<int>, target: Option<int>)
    requires partitions != [] && Distinct(partitions) && target.Some?
    ensures target.value in partitions <==> target == Some(partitions[0]) || target.value in partitions[1..]
    ensures !(target == Some(partitions[0]) && target.value in partitions[1..])
  {
    assert partitions == [partitions[0]] + partitions[1..];
  }

  lemma Adds(a: multiset<Row>, b: multiset<Row>, row: Row, first: bool, rest: bool)
    requires !(first && rest)
    ensures (a + if first then multiset{row} else multiset{}) + (b + if rest then multiset{row} else multiset{})
         == a + b + if first || rest then multiset{row} else multiset{}
  {
  }

  /** The last row goes to one of the partitions. */
  predicate Goes(settings: Settings, rows: seq<Row>, partitions: seq<int>)
    requires rows != [] && Usable(settings)
  {
    var target := Target(settings, rows[|rows| - 1], |rows| - 1);
    target.Some? && target.value in partitions
  }

  lemma {:induction false} SentMore(settings: Settings, rows: seq<Row>, p: int)
    requires Usable(settings) && rows != []
    ensures var n := |rows| - 1;
      multiset(Sent(settings, rows, p)) == multiset(Sent(settings, rows[..n], p))
        + if Target(settings, rows[n], n) == Some(p) then multiset{rows[n]} else multiset{}
  {
  }

  lemma {:induction false} NothingTogether(settings: Settings, partitions: seq<int>)
    requires Usable(settings)
    ensures Together(settings, [], partitions) == multiset{}
  {
    if partitions != [] { NothingTogether(settings, partitions[1..]); }
  }

  lemma LastOf(rows: seq<Row>)
    requires rows != []
    ensures multiset(rows) == multiset(rows[..|rows| - 1]) + multiset{rows[|rows| - 1]}
  {
    assert rows == rows[..|rows| - 1] + [rows[|rows| - 1]];
  }

  /** Every row lands on some partition, once: the partitions together hold a
      permutation of the input. */
  lemma {:induction false} EveryRowLands(settings: Settings, rows: seq<Row>)
    requires Usable(settings) && Distinct(settings.partitions) && Placed(settings, rows)
    ensures Together(settings, rows, settings.partitions) == multiset(rows)
  {
    if rows == [] {
      NothingTogether(settings, settings.partitions);
    } else {
      var n := |rows| - 1;
      EveryRowLands(settings, rows[..n]);
      TogetherMore(settings, rows, settings.partitions);
      assert rows[n] in rows && Goes(settings, rows, settings.partitions);
      LastOf(rows);
    }
  }

  function WithKey(rows: seq<Row>, key: Bytes): seq<Row> {
    if rows == [] then []
    else
      var n := |rows| - 1;
      WithKey(rows[..n], key) + if rows[n].key == Key(key) then [rows[n]] else []
  }

  lemma {:induction false} WithKeyConcat(a: seq<Row>, b: seq<Row>, key: Bytes)
    requires |b| <= 1
    ensures WithKey(a + b, key) == WithKey(a, key) + WithKey(b, key)
  {
    if b == [] {
      assert a + b == a;
    } else {
      assert (a + b)[..|a|] == a && b[..0] == [];
    }
  }

  /** A key's rows all go to the partition picked for it, in the order they
      came, whatever the batches. */
  lemma {:induction false} KeyStaysInOrder(settings: Settings, rows: seq<Row>, key: Bytes, p: int)
    requires Usable(settings) && settings.keyColumn
    ensures WithKey(Sent(settings, rows, p), key) == if p == settings.pick(key) then WithKey(rows, key) else []
  {
    if rows != [] {
      var n := |rows| - 1;
      KeyStaysInOrder(settings, rows[..n], key, p);
      WithKeyConcat(Sent(settings, rows[..n], p), if Target(settings, rows[n], n) == Some(p) then [rows[n]] else [], key);
      WithKeyConcat([], [rows[n]], key);
      assert [] + [rows[n]] == [rows[n]];
    }
  }

  /** As a Java producer would have it, whatever the batches. */
  lemma {:induction false} JavaKeyStays(batchSize: nat, partitions: seq<int>, rows: seq<Row>, key: Bytes, p: int)
    requires batchSize > 0 && partitions != []
    ensures WithKey(Sent(JavaSettings(true, batchSize, partitions), rows, p), key)
         == if p == PartitionFor(key, partitions) then WithKey(rows, key) else []
  {
    KeyStaysInOrder(JavaSettings(true, batchSize, partitions), rows, key, p);
  }
}
