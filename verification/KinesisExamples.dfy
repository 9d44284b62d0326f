/** Short lives of a Kinesis node, each of one shard: what a `latest` first run can
    lose, and what an empty answer makes a run, or a later one, write twice. */
module KinesisExamples {
  import opened Common
  import opened KinesisStream
  import opened KinesisSource
  import opened KinesisHistory
  import opened KinesisPromises

  function Nth(n: nat): Record {
    Record(n, "k", 0)
  }

  /** A stream of one shard that holds these records. */
  ghost predicate OneShard(s: Stream, records: seq<Record>) {
    && s.parents == map["s" := []] && s.listed == {"s"} && s.horizon == map["s" := 0] && s.closed == {}
    && s.route == map["k" := "s"] && s.clock == 0 && |s.puts| == |records| && Log(s, "s") == records
  }

  lemma EmptyStream() returns (s: Live)
    ensures OneShard(s, [])
  {
    var t := Stream(map["s" := []], {"s"}, {}, [], map["s" := 0], map["k" := "s"], 0);
    assert ValidShards(t) && ValidPuts(t);
    forall k ensures KeyRouted(t, k) {
    }
    s := t;
  }

  /** Another record is put. */
  lemma OneMore(s: Live, records: seq<Record>) returns (t: Live)
    requires OneShard(s, records)
    ensures OneShard(t, records + [Nth(|records|)]) && Grows(s, t)
  {
    MoveKeeps(s, Put("k", 0));
    t := Apply(s, Put("k", 0));
    assert t.puts[..|s.puts|] == s.puts;
  }

  lemma TwoPut() returns (s: Live, u: Live)
    ensures OneShard(s, []) && OneShard(u, [Nth(0), Nth(1)]) && Grows(s, u)
  {
    s := EmptyStream();
    var t := OneMore(s, []);
    u := OneMore(t, [Nth(0)]);
    GrowsTransitive(s, t, u);
    assert [Nth(0)] + [Nth(1)] == [Nth(0), Nth(1)];
  }

  lemma {:induction false} OneRow(rows: seq<Row>)
    requires |rows| == 1 && rows[0].shard == "s"
    ensures Of(rows, "s") == [rows[0].record] && forall id :: id != "s" ==> Of(rows, id) == []
  {
    assert rows[..0] == [];
  }

  function Did(o: Opening, sequence: nat): Batch {
    Batch(map["s" := After(sequence)], map["s" := o], map[])
  }

  /** A run that wrote one record of the one shard. */
  lemma OneRead(g: Given, s: Live, records: seq<Record>, o: Opening, record: Record)
    requires OneShard(s, records) && Grows(g.at, s) && g.at.listed == {"s"} && g.at.parents == map["s" := []] && g.saved.Keys <= {"s"}
    requires Reads(g, s, "s", Some(o), Some(After(record.sequence)), [record])
    ensures Ready(g, s, Did(o, record.sequence), [Row("s", record)])
  {
    OneLineage(g.at, o, record);
    OneReadsAll(g, s, o, record);
  }

  lemma OneLineage(at: Stream, o: Opening, record: Record)
    requires at.listed == {"s"} && at.parents == map["s" := []]
    ensures Lineage(at, Did(o, record.sequence), [Row("s", record)])
  {
  }

  lemma OneReadsAll(g: Given, s: Stream, o: Opening, record: Record)
    requires s.horizon == map["s" := 0] && g.saved.Keys <= {"s"}
    requires Reads(g, s, "s", Some(o), Some(After(record.sequence)), [record])
    ensures ReadsAll(g, s, Did(o, record.sequence), [Row("s", record)])
  {
    OneRow([Row("s", record)]);
    forall id | id != "s" ensures Get(Did(o, record.sequence).positions, id) == Get(g.saved, id) == None {
      assert id !in g.saved.Keys;
    }
  }

  function Saving(settings: Settings, sequence: nat): Position {
    Position(settings.stream, map["s" := After(sequence)])
  }

  lemma OneSucceeds(settings: Settings, h: History, k: History, g: Given, records: seq<Record>, o: Opening, record: Record)
    requires OneShard(k.stream, records) && g.at.listed == {"s"} && g.at.parents == map["s" := []] && g.saved.Keys <= {"s"}
    requires StartsFrom(g, h.stream, settings, h.saved) && Grows(h.stream, k.stream) && Grows(g.at, k.stream)
    requires Reads(g, k.stream, "s", Some(o), Some(After(record.sequence)), [record])
    requires k.saved == Some(Saving(settings, record.sequence)) && k.rows == h.rows + [Row("s", record)]
    requires k.skipped == h.skipped + if o.how == FromNow then map["s" := o.from] else map[]
    ensures Succeeds(settings, h, k, g, Did(o, record.sequence), [Row("s", record)], Summary(Saving(settings, record.sequence), 1))
  {
    OneRead(g, k.stream, records, o, record);
    OneSkips(g, k.stream, o, record.sequence);
    OneReports(settings, g, o, record);
  }

  lemma OneReports(settings: Settings, g: Given, o: Opening, record: Record)
    requires g.settings == settings
    ensures Reports(g, Did(o, record.sequence), [Row("s", record)], Summary(Saving(settings, record.sequence), 1))
  {
  }

  lemma OneSkips(g: Given, s: Stream, o: Opening, sequence: nat)
    ensures Skips(g, s, Did(o, sequence)) == if o.how == FromNow then map["s" := o.from] else map[]
  {
  }

  /** A life goes on. */
  lemma LifeOf(settings: Settings, life: seq<History>, k: History) returns (longer: seq<History>)
    requires Life(settings, life) && Step(settings, life[|life| - 1], k)
    ensures Life(settings, longer) && longer == life + [k]
  {
    longer := life + [k];
  }

  /** A `latest` first run starts; a record is put; the run opens the shard, and
      another is put, which it reads. The first arrived since the run started, was
      not written, and is behind the position. */
  lemma LatestLoses() returns (settings: Settings, life: seq<History>)
    ensures Life(settings, life) && settings.latest && |life| == 2
    ensures Log(life[1].stream, "s") == [Nth(0), Nth(1)] && Nth(0).arrival >= life[0].stream.clock
    ensures life[1].rows == [Row("s", Nth(1))] && !Ahead(Nth(0), Get(Saved(life[1]), "s"))
  {
    settings := Settings("stream", true, 10, false);
    var s, u := TwoPut();
    var h := History(s, None, [], map[]);
    assert Life(settings, [h]);
    var k := History(u, Some(Saving(settings, 1)), [Row("s", Nth(1))], map["s" := 1]);
    OpensLate(settings, h, k);
    life := LifeOf(settings, [h], k);
  }

  lemma OpensLate(settings: Settings, h: History, k: History)
    requires settings.latest && h.saved == None && h.rows == [] && h.skipped == map[] && OneShard(h.stream, [])
    requires OneShard(k.stream, [Nth(0), Nth(1)]) && Grows(h.stream, k.stream)
    requires k.saved == Some(Saving(settings, 1)) && k.rows == [Row("s", Nth(1))] && k.skipped == map["s" := 1]
    ensures Step(settings, h, k)
  {
    var g := Given(settings, map[], true, 0, h.stream);
    var o := Opening(FromNow, 1, 2, 1, false, false);
    GrowsReflexive(h.stream);
    assert Reads(g, k.stream, "s", Some(o), Some(After(1)), [Nth(1)]);
    OneSucceeds(settings, h, k, g, [Nth(0), Nth(1)], o, Nth(1));
  }

  /** A node told to go on reads the one record there is. The next run asks for it
      again, gets an empty answer, takes it for gone, and writes it once more. */
  lemma EmptyAnswerRewrites() returns (settings: Settings, life: seq<History>)
    ensures Life(settings, life) && settings.continueOnExpiry && !settings.latest && |life| == 3
    ensures Log(life[2].stream, "s") == [Nth(0)] && life[2].rows == [Row("s", Nth(0)), Row("s", Nth(0))]
    ensures FallsBack(life[1], life[2], "s")
  {
    settings := Settings("stream", false, 10, true);
    var t := OnePut();
    life := OneTwice(settings, t);
  }

  lemma OneTwice(settings: Settings, t: Live) returns (life: seq<History>)
    requires settings.continueOnExpiry && !settings.latest && OneShard(t, [Nth(0)])
    ensures Life(settings, life) && |life| == 3 && FallsBack(life[1], life[2], "s")
    ensures life[2].stream == t && life[2].rows == [Row("s", Nth(0)), Row("s", Nth(0))]
  {
    var row := Row("s", Nth(0));
    var k, l := Read(settings, t, 0, [row]), Read(settings, t, 0, [row] + [row]);
    life := ReadsFirst(settings, k, [Nth(0)]);
    ReadsAgain(settings, k, l, [Nth(0)], 0);
    life := LifeOf(settings, life, l);
  }

  lemma OnePut() returns (t: Live)
    ensures OneShard(t, [Nth(0)])
  {
    var s := EmptyStream();
    t := OneMore(s, []);
    assert [] + [Nth(0)] == [Nth(0)];
  }

  /** A first run of the node reads the first record. */
  lemma ReadsFirst(settings: Settings, k: History, records: seq<Record>) returns (life: seq<History>)
    requires !settings.latest && OneShard(k.stream, records) && records != [] && records[0] == Nth(0)
    requires k == Read(settings, k.stream, 0, [Row("s", Nth(0))])
    ensures Life(settings, life) && |life| == 2 && life[1] == k
  {
    var h := History(k.stream, None, [], map[]);
    FirstStep(settings, h, k, records);
    assert Life(settings, [h]);
    life := LifeOf(settings, [h], k);
  }

  /** The node has written these rows, the last of them of the record numbered `n`. */
  function Read(settings: Settings, stream: Live, n: nat, rows: seq<Row>): History {
    History(stream, Some(Saving(settings, n)), rows, map[])
  }

  lemma FirstStep(settings: Settings, h: History, k: History, records: seq<Record>)
    requires !settings.latest && h.saved == None && h.rows == [] && h.skipped == k.skipped == map[]
    requires k.stream == h.stream && OneShard(h.stream, records) && records != [] && records[0] == Nth(0)
    requires k.saved == Some(Saving(settings, 0)) && k.rows == [Row("s", Nth(0))]
    ensures Step(settings, h, k)
  {
    var g := Given(settings, map[], true, 0, h.stream);
    var o := Opening(FromStart, 0, 1, |records|, false, false);
    GrowsReflexive(h.stream);
    assert records[0..1] == [Nth(0)];
    assert Reads(g, k.stream, "s", Some(o), Some(After(0)), [Nth(0)]);
    OneSucceeds(settings, h, k, g, records, o, Nth(0));
  }

  /** Whatever it read last, a blank answer makes the next run read the first record
      again. */
  lemma ReadsAgain(settings: Settings, h: History, k: History, records: seq<Record>, last: nat)
    requires settings.continueOnExpiry && OneShard(h.stream, records) && records != [] && records[0] == Nth(0)
    requires h == Read(settings, h.stream, last, h.rows) && k == Read(settings, h.stream, 0, h.rows + [Row("s", Nth(0))])
    ensures Step(settings, h, k) && FallsBack(h, k, "s")
  {
    var g := Given(settings, map["s" := After(last)], false, 0, h.stream);
    var o := Opening(FromStart, 0, 1, |records|, true, true);
    GrowsReflexive(h.stream);
    assert records[0..1] == [Nth(0)];
    assert Reads(g, k.stream, "s", Some(o), Some(After(0)), [Nth(0)]);
    OneSucceeds(settings, h, k, g, records, o, Nth(0));
    AddedOne(h, k, Nth(0));
  }

  /** A run that finds the first record reads the second, and does not fall back. */
  lemma GoesOn(settings: Settings, h: History, k: History)
    requires OneShard(h.stream, [Nth(0), Nth(1)])
    requires h == Read(settings, h.stream, 0, h.rows) && k == Read(settings, h.stream, 1, h.rows + [Row("s", Nth(1))])
    ensures Step(settings, h, k) && !FallsBack(h, k, "s") && Added(h, k, "s") == [Nth(1)]
  {
    var records := [Nth(0), Nth(1)];
    var g := Given(settings, map["s" := After(0)], false, 0, h.stream);
    var o := Opening(Continuing, 1, 2, 2, false, false);
    GrowsReflexive(h.stream);
    assert records[1..2] == [Nth(1)] && Held(h.stream, "s", 0, 0);
    assert Reads(g, k.stream, "s", Some(o), Some(After(1)), [Nth(1)]);
    OneSucceeds(settings, h, k, g, records, o, Nth(1));
    AddedOne(h, k, Nth(1));
  }

  lemma AddedOne(h: History, k: History, record: Record)
    requires k.rows == h.rows + [Row("s", record)]
    ensures Added(h, k, "s") == [record]
  {
    OneRow([Row("s", record)]);
    OfConcat(h.rows, [Row("s", record)], "s");
    AddedIs(h, k, "s", [record]);
  }

  /** Two records are read, a run each; the third run falls back, and its cap stops
      it behind the first; the fourth finds that one, does not fall back, and
      writes the second once more. */
  lemma LaterRunRewrites() returns (settings: Settings, life: seq<History>)
    ensures Life(settings, life) && |life| == 5 && settings.maxRecords == 1
    ensures FallsBack(life[2], life[3], "s")
    ensures !FallsBack(life[3], life[4], "s") && Rewrites(life[3], life[4], "s")
  {
    settings := Settings("stream", false, 1, true);
    var s, u := TwoPut();
    var a, b := Row("s", Nth(0)), Row("s", Nth(1));
    var h, i := Read(settings, u, 0, [a]), Read(settings, u, 1, [a] + [b]);
    var j, k := Read(settings, u, 0, [a] + [b] + [a]), Read(settings, u, 1, [a] + [b] + [a] + [b]);
    life := ReadsFirst(settings, h, [Nth(0), Nth(1)]);
    GoesOn(settings, h, i);
    life := LifeOf(settings, life, i);
    ReadsAgain(settings, i, j, [Nth(0), Nth(1)], 1);
    life := LifeOf(settings, life, j);
    GoesOn(settings, j, k);
    life := LifeOf(settings, life, k);
    var at := PlaceAmong(j.rows, 1);
    assert Of(j.rows, "s")[at] == Nth(1) && Nth(1) in Added(j, k, "s");
  }
}
