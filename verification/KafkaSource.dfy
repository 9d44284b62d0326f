/** `src.stream.kafka`: each run reads every partition from its saved offset to
    the high watermark it found, up to `max_records`. */
module KafkaSource {
  import opened Common

  // -------------------------------------------------------------------------
  // The topic
  // -------------------------------------------------------------------------

  /** `readable` are the offsets that hold a record a reader is given: not those
      of transaction markers, nor those compacted away. Retention only moves
      `earliest`: what is below it is readable, but no longer held. `recorded` are
      those that ever held such a record. */
  datatype Part = Part(earliest: nat, latest: nat, recorded: set<nat>, readable: set<nat>)

  predicate ValidParts(parts: map<int, Part>) {
    forall p :: p in parts ==>
      parts[p].earliest <= parts[p].latest &&
      parts[p].readable <= parts[p].recorded && forall o :: o in parts[p].recorded ==> o < parts[p].latest
  }

  type Topic = parts: map<int, Part> | ValidParts(parts) witness map[]

  /** Time passes: records are added at the end, expire from the start, and are
      compacted away anywhere. */
  predicate Ages(s: Topic, t: Topic) {
    forall p :: p in s ==>
      && p in t && s[p].earliest <= t[p].earliest && s[p].latest <= t[p].latest
      && s[p].recorded <= t[p].recorded
      && (forall o :: o in t[p].recorded && o < s[p].latest ==> o in s[p].recorded)
      && forall o :: o in t[p].readable && o < s[p].latest ==> o in s[p].readable
  }

  predicate Becomes(s: Topic, parts: map<int, Part>) {
    ValidParts(parts) && Ages(s, parts)
  }

  /** Each of these may happen: a record comes, a marker or what no reader is given
      comes, records expire, records are compacted away, a partition is added. */
  lemma TimePasses(s: Topic, p: int, earliest: nat, gone: set<nat>, q: int)
    requires p in s && s[p].earliest <= earliest <= s[p].latest && q !in s
    ensures var part := s[p];
      && Becomes(s, s[p := part.(latest := part.latest + 1, recorded := part.recorded + {part.latest}, readable := part.readable + {part.latest})])
      && Becomes(s, s[p := part.(latest := part.latest + 1)])
      && Becomes(s, s[p := part.(earliest := earliest)])
      && Becomes(s, s[p := part.(readable := part.readable - gone)])
      && Becomes(s, s[q := Part(0, 0, {}, {})])
  {
  }

  datatype Row = Row(partition: int, offset: nat)

  /** The offsets of one partition's rows, in order. */
  function Of(rows: seq<Row>, p: int): seq<nat> {
    if rows == [] then []
    else
      var last := rows[|rows| - 1];
      Of(rows[..|rows| - 1], p) + if last.partition == p then [last.offset] else []
  }

  lemma {:induction false} OfConcat(a: seq<Row>, b: seq<Row>, p: int)
    ensures Of(a + b, p) == Of(a, p) + Of(b, p)
    decreases |b|
  {
    if b == [] {
      assert a + b == a;
    } else {
      assert (a + b)[..|a + b| - 1] == a + b[..|b| - 1];
      OfConcat(a, b[..|b| - 1], p);
    }
  }

  /** A fetch gives some of the readable records at or after the offset, the
      first ones, at least one if there is any. It may give them in any order,
      and with records of the same batch from before the offset. */
  predicate Fetched(part: Part, offset: nat, records: seq<nat>) {
    && (forall r :: r in records && r >= offset ==> r in part.readable)
    && (forall r, o :: r in records && o in part.readable && offset <= o < r ==> o in records)
    && ((exists o :: o in part.readable && o >= offset) ==> exists r :: r in records && r >= offset)
    && (forall i, j :: 0 <= i < j < |records| ==> records[i] != records[j])
  }

  /** Such an answer there always is: nothing, or the first record there is to read. */
  lemma {:induction false} AnswerThere(part: Part, offset: nat, bound: nat) returns (records: seq<nat>)
    requires forall o :: o in part.readable ==> o < bound
    ensures Fetched(part, offset, records)
    ensures records == [] ==> forall o :: o in part.readable ==> o < offset
    ensures records != [] ==> records == [records[0]] && records[0] in part.readable && records[0] >= offset
    ensures records != [] ==> forall o :: o in part.readable && o >= offset ==> o >= records[0]
    decreases bound - offset
  {
    if offset in part.readable {
      records := [offset];
    } else if offset >= bound {
      records := [];
    } else {
      records := AnswerThere(part, offset + 1, bound);
    }
    assert records != [] ==> records[0] in records;
  }

  method Guess() returns (parts: map<int, Part>) {
    parts := *;
  }

  /** The brokers, and the writer of a run's rows. */
  class Broker {
    var topic: Topic
    ghost var faults: nat   // calls that failed, and rows that could not be written

    constructor (topic: Topic)
      ensures this.topic == topic && faults == 0
    {
      this.topic := topic;
      faults := 0;
    }

    method Others()
      modifies this`topic
      ensures Ages(old(topic), topic)
    {
      var later := Guess();
      if ValidParts(later) && Ages(topic, later) { topic := later; }
    }

    /** The partitions there are. */
    method ListPartitions() returns (r: Option<seq<int>>)
      modifies this
      ensures Ages(old(topic), topic) && faults == old(faults) + (if r.Some? then 0 else 1)
      ensures r.Some? ==> (forall p :: p in r.value <==> p in topic) && forall i, j :: 0 <= i < j < |r.value| ==> r.value[i] != r.value[j]
    {
      Others();
      var partitions: seq<int> := *;
      var all := (forall p :: p in topic ==> p in partitions) && forall p :: p in partitions ==> p in topic;
      var apart := forall i, j :: 0 <= i < j < |partitions| ==> partitions[i] != partitions[j];
      r := if all && apart then Some(partitions) else None;
      if r.None? { faults := faults + 1; }
    }

    /** A partition's oldest offset held, or its high watermark. */
    method OffsetAt(p: int, oldest: bool) returns (r: Option<nat>)
      requires p in topic
      modifies this
      ensures Ages(old(topic), topic) && faults == old(faults) + (if r.Some? then 0 else 1)
      ensures r.Some? ==> r.value == if oldest then topic[p].earliest else topic[p].latest
    {
      Others();
      var answered: bool := *;
      r := if !answered then None else Some(if oldest then topic[p].earliest else topic[p].latest);
      if r.None? { faults := faults + 1; }
    }

    /** A row to the flow. */
    method Write(p: int, offset: nat) returns (ok: bool)
      modifies this`faults
      ensures faults == old(faults) + (if ok then 0 else 1)
    {
      ok := *;
      if !ok { faults := faults + 1; }
    }

    /** An offset no longer held is refused. */
    method Fetch(p: int, offset: nat) returns (r: Option<seq<nat>>)
      requires p in topic
      modifies this
      ensures Ages(old(topic), topic) && faults == old(faults) + (if r.Some? then 0 else 1)
      ensures r.Some? ==> topic[p].earliest <= offset && Fetched(topic[p], offset, r.value)
    {
      Others();
      var records: seq<nat> := *;
      r := if topic[p].earliest <= offset && Fetched(topic[p], offset, records) then Some(records) else None;
      if r.None? { faults := faults + 1; }
    }
  }

  // -------------------------------------------------------------------------
  // Where each partition starts
  // -------------------------------------------------------------------------

  datatype Position = Position(topic: string, next: map<int, nat>)

  /** One partition's share of a run: read `[from, to)`. */
  datatype Span = Span(partition: int, from: nat, to: nat)

  datatype Bounds = Bounds(partition: int, earliest: nat, latest: nat)

  /** Each bound was asked for by itself, while the topic moved from `was` to
      `now`. */
  predicate Bounded(was: Topic, now: Topic, bound: Bounds) {
    var p := bound.partition;
    && p in was && p in now && bound.earliest <= bound.latest
    && was[p].earliest <= bound.earliest <= now[p].earliest && was[p].latest <= bound.latest <= now[p].latest
  }

  /** What listing the topic's partitions told the run. */
  ghost predicate Listed(was: Topic, now: Topic, bounds: seq<Bounds>) {
    && (forall i :: 0 <= i < |bounds| ==> Bounded(was, now, bounds[i]))
    && (forall i, j :: 0 <= i < j < |bounds| ==> bounds[i].partition != bounds[j].partition)
    && (forall p :: p in was ==> exists i :: 0 <= i < |bounds| && bounds[i].partition == p)
  }

  /** One partition's bounds, asked for one after the other. */
  method BoundsOf(broker: Broker, p: int, ghost was: Topic) returns (r: Option<Bounds>)
    requires p in was && Ages(was, broker.topic)
    modifies broker
    ensures Ages(old(broker.topic), broker.topic) && Ages(was, broker.topic)
    ensures r.Some? ==> r.value.partition == p && Bounded(was, broker.topic, r.value)
    ensures broker.faults == old(broker.faults) + (if r.Some? then 0 else 1)
  {
    var earliest := broker.OffsetAt(p, true);
    if earliest.None? { return None; }
    var latest := broker.OffsetAt(p, false);
    r := if latest.None? then None else Some(Bounds(p, earliest.value, latest.value));
  }

  /** The partitions, then the bounds of one after another. */
  method List(broker: Broker) returns (r: Option<seq<Bounds>>, ghost was: Topic)
    modifies broker
    ensures Ages(old(broker.topic), was) && Ages(was, broker.topic)
    ensures r.Some? ==> Listed(was, broker.topic, r.value)
    ensures broker.faults == old(broker.faults) + (if r.Some? then 0 else 1)
  {
    var partitions := broker.ListPartitions();
    was := broker.topic;
    if partitions.None? { return None, was; }
    var bounds: seq<Bounds> := [];
    for i := 0 to |partitions.value|
      invariant |bounds| == i && Ages(was, broker.topic) && broker.faults == old(broker.faults)
      invariant forall j :: 0 <= j < i ==> bounds[j].partition == partitions.value[j] && Bounded(was, broker.topic, bounds[j])
    {
      assert partitions.value[i] in partitions.value;
      ghost var before := broker.topic;
      var bound := BoundsOf(broker, partitions.value[i], was);
      if bound.None? { return None, was; }
      forall j | 0 <= j < i ensures Bounded(was, broker.topic, bounds[j]) {
        BoundedAges(was, before, broker.topic, bounds[j]);
      }
      bounds := bounds + [bound.value];
    }
    EveryListed(was, partitions.value, bounds);
    r := Some(bounds);
  }

  lemma BoundedAges(was: Topic, now: Topic, later: Topic, bound: Bounds)
    requires Bounded(was, now, bound) && Ages(now, later)
    ensures Bounded(was, later, bound)
  {
  }

  lemma EveryListed(was: Topic, partitions: seq<int>, bounds: seq<Bounds>)
    requires |bounds| == |partitions| && forall i :: 0 <= i < |bounds| ==> bounds[i].partition == partitions[i]
    requires forall p :: p in was ==> p in partitions
    ensures forall p :: p in was ==> exists i :: 0 <= i < |bounds| && bounds[i].partition == p
  {
    forall p | p in was ensures exists i :: 0 <= i < |bounds| && bounds[i].partition == p {
      var i :| 0 <= i < |partitions| && partitions[i] == p;
      assert bounds[i].partition == p;
    }
  }

  datatype Gap = Lost(partition: int, from: nat, to: nat) | PastEnd(partition: int, next: nat)

  /** Where a partition starts, or why it cannot: what lies between the saved
      offset and the oldest held is lost, and one past the end is another
      topic's. */
  function Plan(bound: Bounds, saved: map<int, nat>, latest: bool): Result<Span, Gap> {
    if bound.partition in saved then
      var next := saved[bound.partition];
      if next < bound.earliest then Err(Lost(bound.partition, next, bound.earliest))
      else if next > bound.latest then Err(PastEnd(bound.partition, next))
      else Ok(Span(bound.partition, next, bound.latest))
    else Ok(Span(bound.partition, if latest then bound.latest else bound.earliest, bound.latest))
  }

  function Saved(topic: string, saved: Option<Position>): map<int, nat> {
    if saved.Some? && saved.value.topic == topic then saved.value.next else map[]
  }

  /** The node's own offset for a partition: not one saved for another topic. */
  predicate HasOffset(topic: string, saved: Option<Position>, p: int) {
    saved.Some? && saved.value.topic == topic && p in saved.value.next
  }

  /** That offset is not one the partition can go on from, and why. */
  predicate Misses(topic: string, saved: Option<Position>, bound: Bounds, gap: Gap) {
    && HasOffset(topic, saved, bound.partition)
    && var next := saved.value.next[bound.partition];
       || (next < bound.earliest && gap == Lost(bound.partition, next, bound.earliest))
       || (next > bound.latest && gap == PastEnd(bound.partition, next))
  }

  predicate Outside(topic: string, saved: Option<Position>, bound: Bounds) {
    && HasOffset(topic, saved, bound.partition)
    && !(bound.earliest <= saved.value.next[bound.partition] <= bound.latest)
  }

  method PlanSpans(topic: string, bounds: seq<Bounds>, saved: Option<Position>, latest: bool) returns (r: Result<seq<Span>, Gap>)
    ensures r.Ok? ==> |r.value| == |bounds| && forall i :: 0 <= i < |bounds| ==> Plan(bounds[i], Saved(topic, saved), latest) == Ok(r.value[i])
    ensures r.Err? ==> exists i :: 0 <= i < |bounds| && Plan(bounds[i], Saved(topic, saved), latest) == Err(r.error)
    ensures r.Err? ==> exists i :: 0 <= i < |bounds| && Misses(topic, saved, bounds[i], r.error)
    ensures (exists i :: 0 <= i < |bounds| && Outside(topic, saved, bounds[i])) ==> r.Err?
  {
    var next := if saved.Some? && saved.value.topic == topic then saved.value.next else map[];
    var spans := [];
    for i := 0 to |bounds|
      invariant |spans| == i && forall j :: 0 <= j < i ==> Plan(bounds[j], next, latest) == Ok(spans[j])
    {
      var bound := bounds[i];
      var from := if latest then bound.latest else bound.earliest;
      if bound.partition in next {
        from := next[bound.partition];
        if from < bound.earliest { return Err(Lost(bound.partition, from, bound.earliest)); }
        if from > bound.latest { return Err(PastEnd(bound.partition, from)); }
      }
      spans := spans + [Span(bound.partition, from, bound.latest)];
    }
    r := Ok(spans);
  }

  // -------------------------------------------------------------------------
  // Reading one partition
  // -------------------------------------------------------------------------

  function Insert(o: nat, s: seq<nat>): (r: seq<nat>)
    ensures multiset(r) == multiset([o]) + multiset(s)
  {
    if s == [] || o <= s[0] then [o] + s
    else
      assert s == [s[0]] + s[1..];
      [s[0]] + Insert(o, s[1..])
  }

  /** The records of the span, by offset. */
  function Ordered(records: seq<nat>, offset: nat, to: nat): seq<nat> {
    if records == [] then []
    else
      var rest := Ordered(records[1..], offset, to);
      if offset <= records[0] < to then Insert(records[0], rest) else rest
  }

  lemma {:induction false} InsertIncreases(o: nat, s: seq<nat>)
    requires Increasing(s) && o !in s
    ensures Increasing(Insert(o, s)) && forall x :: x in Insert(o, s) <==> x == o || x in s
  {
    if !(s == [] || o <= s[0]) {
      InsertIncreases(o, s[1..]);
      assert s == [s[0]] + s[1..];
      forall i | 0 <= i < |Insert(o, s[1..])| ensures Insert(o, s[1..])[i] > s[0] {
        assert Insert(o, s[1..])[i] in Insert(o, s[1..]);
      }
    }
  }

  lemma {:induction false} OrderedIncreases(records: seq<nat>, offset: nat, to: nat)
    requires forall i, j :: 0 <= i < j < |records| ==> records[i] != records[j]
    ensures Increasing(Ordered(records, offset, to))
    ensures forall o :: o in Ordered(records, offset, to) <==> o in records && offset <= o < to
  {
    if records != [] {
      OrderedIncreases(records[1..], offset, to);
      assert records == [records[0]] + records[1..];
      assert records[0] !in records[1..];
      if offset <= records[0] < to { InsertIncreases(records[0], Ordered(records[1..], offset, to)); }
    }
  }

  /** A fetch with nothing for the span covers it to the end. */
  lemma {:induction false} NothingCovers(part: Part, records: seq<nat>, written: seq<nat>, from: nat, offset: nat, to: nat)
    requires Fetched(part, offset, records) && Covers(part.recorded, part.readable, written, from, offset) && offset <= to
    requires Ordered(records, offset, to) == []
    ensures Covers(part.recorded, part.readable, written, from, to)
  {
    OrderedIncreases(records, offset, to);
    assert forall o :: offset <= o < to ==> o !in part.readable;
  }

  /** The records of the span a fetch gives are all that are readable up to each
      of them. */
  lemma {:induction false} OrderedHasAll(part: Part, records: seq<nat>, offset: nat, to: nat, i: nat, o: nat)
    requires Fetched(part, offset, records) && i < |Ordered(records, offset, to)|
    requires o in part.readable && offset <= o <= Ordered(records, offset, to)[i]
    ensures o in Ordered(records, offset, to)[..i + 1]
  {
    var ordered := Ordered(records, offset, to);
    OrderedIncreases(records, offset, to);
    assert ordered[i] in ordered;
    assert o in ordered;
    var k :| 0 <= k < |ordered| && ordered[k] == o;
    assert ordered[..i + 1][k] == o;
  }

  /** The first `i` of them cover the span from the offset up to the last. */
  lemma {:induction false} FirstCover(part: Part, records: seq<nat>, offset: nat, to: nat, i: nat)
    requires Fetched(part, offset, records) && part.readable <= part.recorded && 0 < i <= |Ordered(records, offset, to)|
    ensures var ordered := Ordered(records, offset, to);
      offset < ordered[i - 1] + 1 <= to && Covers(part.recorded, part.readable, ordered[..i], offset, ordered[i - 1] + 1)
  {
    var ordered := Ordered(records, offset, to);
    OrderedIncreases(records, offset, to);
    FetchGives(part, records, offset, to);
    forall o | offset <= o < ordered[i - 1] + 1 && o in part.readable ensures o in ordered[..i] {
      OrderedHasAll(part, records, offset, to, i - 1, o);
    }
  }

  /** Writing the first `i` of them covers the span up to the last. */
  lemma {:induction false} FetchCovers(part: Part, records: seq<nat>, written: seq<nat>, from: nat, offset: nat, to: nat, i: nat)
    requires Fetched(part, offset, records) && part.readable <= part.recorded && Covers(part.recorded, part.readable, written, from, offset)
    requires 0 < i <= |Ordered(records, offset, to)|
    ensures var ordered := Ordered(records, offset, to);
      offset < ordered[i - 1] + 1 <= to && Covers(part.recorded, part.readable, written + ordered[..i], from, ordered[i - 1] + 1)
  {
    var ordered := Ordered(records, offset, to);
    FirstCover(part, records, offset, to, i);
    CoversJoin(part.recorded, part.readable, written, ordered[..i], from, offset, ordered[i - 1] + 1);
  }

  lemma {:induction false} FetchGives(part: Part, records: seq<nat>, offset: nat, to: nat)
    requires Fetched(part, offset, records) && part.readable <= part.recorded
    ensures forall k :: 0 <= k < |Ordered(records, offset, to)| ==>
              offset <= Ordered(records, offset, to)[k] < to && Ordered(records, offset, to)[k] in part.recorded
  {
    OrderedIncreases(records, offset, to);
    forall k | 0 <= k < |Ordered(records, offset, to)| ensures Ordered(records, offset, to)[k] in records {
      assert Ordered(records, offset, to)[k] in Ordered(records, offset, to);
    }
  }

  function Rows(p: int, offsets: seq<nat>): seq<Row> {
    seq(|offsets|, i requires 0 <= i < |offsets| => Row(p, offsets[i]))
  }

  lemma {:induction false} OfRows(p: int, offsets: seq<nat>, q: int)
    ensures Of(Rows(p, offsets), q) == if p == q then offsets else []
  {
    if offsets != [] {
      var init := offsets[..|offsets| - 1];
      assert Rows(p, offsets)[..|offsets| - 1] == Rows(p, init);
      OfRows(p, init, q);
      assert init + [offsets[|offsets| - 1]] == offsets;
    }
  }

  /** Write the records of a fetch, until the budget is spent. */
  method WriteRecords(broker: Broker, p: int, ordered: seq<nat>, budget: nat, rows: seq<Row>) returns (failed: bool, n: nat, more: seq<Row>)
    modifies broker`faults
    ensures broker.faults == old(broker.faults) + (if failed then 1 else 0)
    ensures n <= |ordered| && n <= budget && more == rows + Rows(p, ordered[..n])
    ensures !failed ==> n == |ordered| || n == budget
  {
    n, more, failed := 0, rows, false;
    while n < |ordered| && n < budget
      invariant n <= |ordered| && n <= budget && more == rows + Rows(p, ordered[..n])
      invariant broker.faults == old(broker.faults)
    {
      var ok := broker.Write(p, ordered[n]);
      if !ok { return true, n, more; }
      assert Rows(p, ordered[..n + 1]) == Rows(p, ordered[..n]) + [Row(p, ordered[n])];
      more, n := more + [Row(p, ordered[n])], n + 1;
    }
  }

  /** One fetch of one partition, from `offset`: its records are written until
      the budget is spent. Returns the offset to go on from. */
  method ReadSpan(broker: Broker, span: Span, offset: nat, budget: nat, rows: seq<Row>)
    returns (failed: bool, next: nat, left: nat, written: seq<nat>, more: seq<Row>)
    requires span.partition in broker.topic && span.to <= broker.topic[span.partition].latest
    requires offset < span.to && budget > 0
    requires Covers(broker.topic[span.partition].recorded, broker.topic[span.partition].readable, Of(rows, span.partition), span.from, offset)
    modifies broker
    ensures Ages(old(broker.topic), broker.topic) && left + |written| == budget && more == rows + Rows(span.partition, written)
    ensures forall k :: 0 <= k < |written| ==> offset <= written[k] < span.to && written[k] in broker.topic[span.partition].recorded
    ensures broker.faults == old(broker.faults) + (if failed then 1 else 0)
    ensures !failed ==> offset < next <= span.to && (left < budget || next == span.to)
    ensures !failed ==> Covers(broker.topic[span.partition].recorded, broker.topic[span.partition].readable, Of(rows, span.partition) + written, span.from, next)
  {
    next, left, written, more := offset, budget, [], rows;
    var fetched := broker.Fetch(span.partition, offset);
    if fetched.None? { return true, next, left, written, more; }
    var ordered := Ordered(fetched.value, offset, span.to);
    var n;
    failed, n, more := WriteRecords(broker, span.partition, ordered, budget, rows);
    left, written := budget - n, ordered[..n];
    FetchGives(broker.topic[span.partition], fetched.value, offset, span.to);
    if failed { return; }
    if n > 0 {
      FetchCovers(broker.topic[span.partition], fetched.value, Of(rows, span.partition), span.from, offset, span.to, n);
      next := ordered[n - 1] + 1;
    } else {
      // The rest of the span holds no record to give.
      NothingCovers(broker.topic[span.partition], fetched.value, Of(rows, span.partition), span.from, offset, span.to);
      next := span.to;
      assert Of(rows, span.partition) + written == Of(rows, span.partition);
    }
  }

  // -------------------------------------------------------------------------
  // One run
  // -------------------------------------------------------------------------

  /** Each partition of the run covers what it read of its span. */
  ghost predicate Reading(topic: Topic, spans: seq<Span>, next: map<int, nat>, rows: seq<Row>) {
    && (forall i :: 0 <= i < |spans| ==> Covered(topic, spans[i], next, rows))
    && (forall i, j :: 0 <= i < j < |spans| ==> spans[i].partition != spans[j].partition)
    && (forall k :: 0 <= k < |rows| ==> rows[k].partition in next)
    && (forall p :: p in next ==> exists i :: 0 <= i < |spans| && spans[i].partition == p)
  }

  ghost predicate Covered(topic: Topic, span: Span, next: map<int, nat>, rows: seq<Row>) {
    && span.partition in topic && span.partition in next
    && next[span.partition] <= span.to <= topic[span.partition].latest
    && Covers(topic[span.partition].recorded, topic[span.partition].readable, Of(rows, span.partition), span.from, next[span.partition])
  }

  lemma CoveredAges(s: Topic, t: Topic, span: Span, next: map<int, nat>, rows: seq<Row>)
    requires Covered(s, span, next, rows) && Ages(s, t)
    ensures Covered(t, span, next, rows)
  {
  }

  /** Each row is of a record that was in its partition: also when the run fails. */
  ghost predicate Genuine(topic: Topic, rows: seq<Row>) {
    forall k :: 0 <= k < |rows| ==> rows[k].partition in topic && rows[k].offset in topic[rows[k].partition].recorded
  }

  lemma {:induction false} OfHas(rows: seq<Row>, k: nat)
    requires k < |rows|
    ensures rows[k].offset in Of(rows, rows[k].partition)
  {
    if k < |rows| - 1 {
      OfHas(rows[..|rows| - 1], k);
    }
  }

  lemma {:induction false} ReadingGenuine(topic: Topic, spans: seq<Span>, next: map<int, nat>, rows: seq<Row>)
    requires Reading(topic, spans, next, rows)
    ensures Genuine(topic, rows)
  {
    forall k | 0 <= k < |rows| ensures rows[k].partition in topic && rows[k].offset in topic[rows[k].partition].recorded {
      OfHas(rows, k);
      var i :| 0 <= i < |spans| && spans[i].partition == rows[k].partition;
      assert Covered(topic, spans[i], next, rows);
    }
  }

  lemma {:induction false} GenuineMore(s: Topic, t: Topic, spans: seq<Span>, next: map<int, nat>, rows: seq<Row>, p: int, written: seq<nat>)
    requires Reading(s, spans, next, rows) && Ages(s, t) && p in t && forall k :: 0 <= k < |written| ==> written[k] in t[p].recorded
    ensures Genuine(t, rows + Rows(p, written))
  {
    ReadingGenuine(s, spans, next, rows);
  }

  /** One partition moving on leaves the others where they are. */
  lemma {:induction false} OneMoved(s: Topic, t: Topic, spans: seq<Span>, next: map<int, nat>, rows: seq<Row>, i: nat, now: nat, written: seq<nat>)
    requires Reading(s, spans, next, rows) && Ages(s, t) && i < |spans| && now <= spans[i].to
    requires spans[i].partition in t && Covers(t[spans[i].partition].recorded, t[spans[i].partition].readable, Of(rows, spans[i].partition) + written, spans[i].from, now)
    ensures Reading(t, spans, next[spans[i].partition := now], rows + Rows(spans[i].partition, written))
  {
    var p := spans[i].partition;
    var after, more := next[p := now], rows + Rows(p, written);
    forall j | 0 <= j < |spans| ensures Covered(t, spans[j], after, more) {
      assert Covered(s, spans[j], next, rows);
      if j == i {
        OfConcat(rows, Rows(p, written), p);
        OfRows(p, written, p);
      } else {
        OtherStays(s, t, spans[j], next, rows, p, now, written);
      }
    }
    assert after.Keys == next.Keys;
  }

  lemma {:induction false} OtherStays(s: Topic, t: Topic, span: Span, next: map<int, nat>, rows: seq<Row>, p: int, now: nat, written: seq<nat>)
    requires Covered(s, span, next, rows) && Ages(s, t) && span.partition != p
    ensures Covered(t, span, next[p := now], rows + Rows(p, written))
  {
    OfConcat(rows, Rows(p, written), span.partition);
    OfRows(p, written, span.partition);
    CoveredAges(s, t, span, next, rows);
    assert Of(rows + Rows(p, written), span.partition) == Of(rows, span.partition);
  }

  /** A partition that still has something to read in this run. */
  ghost predicate Unread(spans: seq<Span>, next: map<int, nat>, i: nat) {
    i < |spans| && spans[i].partition in next && next[spans[i].partition] < spans[i].to
  }

  /** One partition's turn. */
  method TakeTurn(broker: Broker, spans: seq<Span>, next: map<int, nat>, budget: nat, rows: seq<Row>, i: nat)
    returns (failed: bool, now: map<int, nat>, left: nat, more: seq<Row>)
    requires Reading(broker.topic, spans, next, rows) && Unread(spans, next, i) && budget > 0
    modifies broker
    ensures Ages(old(broker.topic), broker.topic) && |more| + left == |rows| + budget && left <= budget
    ensures Genuine(broker.topic, more)
    ensures broker.faults == old(broker.faults) + (if failed then 1 else 0)
    ensures !failed ==> Reading(broker.topic, spans, now, more) && (left < budget || !Unread(spans, now, i))
    ensures !failed ==> forall j :: j != i ==> (Unread(spans, now, j) <==> Unread(spans, next, j))
  {
    var span := spans[i];
    assert Covered(broker.topic, span, next, rows);
    ghost var was := broker.topic;
    var at, written;
    failed, at, left, written, more := ReadSpan(broker, span, next[span.partition], budget, rows);
    now := next[span.partition := at];
    GenuineMore(was, broker.topic, spans, next, rows, span.partition, written);
    if !failed { OneMoved(was, broker.topic, spans, next, rows, i, at, written); }
  }

  /** The partitions that have something to read, each once: those that had
      their turn, and those still to come. */
  ghost predicate Queue(spans: seq<Span>, next: map<int, nat>, again: seq<nat>, rest: seq<nat>) {
    && Increasing(again) && Increasing(rest)
    && (forall k, l :: 0 <= k < |again| && 0 <= l < |rest| ==> again[k] < rest[l])
    && (forall i :: Unread(spans, next, i) <==> i in again || i in rest)
  }

  lemma QueueStep(spans: seq<Span>, was: map<int, nat>, now: map<int, nat>, again: seq<nat>, rest: seq<nat>)
    requires rest != [] && Queue(spans, was, again, rest)
    requires forall j :: j != rest[0] ==> (Unread(spans, now, j) <==> Unread(spans, was, j))
    ensures Queue(spans, now, if Unread(spans, now, rest[0]) then again + [rest[0]] else again, rest[1..])
  {
    var after := if Unread(spans, now, rest[0]) then again + [rest[0]] else again;
    assert rest == [rest[0]] + rest[1..];
    forall i: nat ensures Unread(spans, now, i) <==> i in after || i in rest[1..] {
      if i == rest[0] {
        assert i !in rest[1..];
      } else {
        assert i in rest <==> i in rest[1..];
      }
    }
  }

  /** One fetch for each place of `turn`, in order; `again` are the places that go
      into the next turn. Both are places in `spans`. */
  method TakeTurns(broker: Broker, spans: seq<Span>, next: map<int, nat>, budget: nat, rows: seq<Row>, turn: seq<nat>)
    returns (failed: bool, now: map<int, nat>, left: nat, more: seq<Row>, again: seq<nat>)
    requires Reading(broker.topic, spans, next, rows) && Queue(spans, next, [], turn) && budget > 0
    modifies broker
    ensures Ages(old(broker.topic), broker.topic) && |more| + left == |rows| + budget && left <= budget
    ensures Genuine(broker.topic, more)
    ensures broker.faults == old(broker.faults) + (if failed then 1 else 0)
    ensures !failed ==> Reading(broker.topic, spans, now, more) && (again == [] || left < budget)
    ensures !failed ==> left == 0 || Queue(spans, now, [], again)
  {
    now, left, more, again, failed := next, budget, rows, [], false;
    for k := 0 to |turn|
      invariant Ages(old(broker.topic), broker.topic) && |more| + left == |rows| + budget && left <= budget
      invariant Reading(broker.topic, spans, now, more) && (again == [] || left < budget) && !failed
      invariant Queue(spans, now, again, turn[k..]) && broker.faults == old(broker.faults)
    {
      if left == 0 { break; }
      assert turn[k] in turn[k..] && turn[k..][0] == turn[k] && turn[k..][1..] == turn[k + 1..];
      ghost var was := now;
      failed, now, left, more := TakeTurn(broker, spans, now, left, more, turn[k]);
      if failed { return; }
      QueueStep(spans, was, now, again, turn[k..]);
      if now[spans[turn[k]].partition] < spans[turn[k]].to { again := again + [turn[k]]; }
    }
    ReadingGenuine(broker.topic, spans, now, more);
  }

  /** The places of the spans that are not empty. */
  function NotEmpty(spans: seq<Span>): (turn: seq<nat>)
    ensures forall i :: i in turn <==> 0 <= i < |spans| && spans[i].from < spans[i].to
    ensures forall i, j :: 0 <= i < j < |turn| ==> turn[i] < turn[j]
  {
    if spans == [] then []
    else
      var n := |spans| - 1;
      var init := NotEmpty(spans[..n]);
      assert forall i :: 0 <= i < |init| ==> init[i] in init;
      init + if spans[n].from < spans[n].to then [n] else []
  }

  /** Turns until everything up to the high watermarks is read, or the budget is
      spent. */
  method ReadTurns(broker: Broker, spans: seq<Span>, max: nat)
    returns (failed: bool, next: map<int, nat>, rows: seq<Row>)
    requires forall i, j :: 0 <= i < j < |spans| ==> spans[i].partition != spans[j].partition
    requires Reading(broker.topic, spans, Starts(spans), [])
    modifies broker
    ensures Ages(old(broker.topic), broker.topic) && |rows| <= max && Genuine(broker.topic, rows)
    ensures broker.faults == old(broker.faults) + (if failed then 1 else 0)
    ensures !failed ==> Reading(broker.topic, spans, next, rows)
    ensures !failed ==> |rows| == max || forall i :: !Unread(spans, next, i)
  {
    StartQueue(spans);
    failed, next, rows := false, Starts(spans), [];
    var turn, left: nat := NotEmpty(spans), max;
    while left > 0 && turn != []
      invariant Ages(old(broker.topic), broker.topic) && Reading(broker.topic, spans, next, rows)
      invariant |rows| + left == max && (left == 0 || Queue(spans, next, [], turn)) && !failed
      invariant broker.faults == old(broker.faults)
      decreases left, |turn|
    {
      failed, next, left, rows, turn := TakeTurns(broker, spans, next, left, rows, turn);
      if failed { return; }
    }
    ReadingGenuine(broker.topic, spans, next, rows);
    if left > 0 { NoneQueued(spans, next); }
  }

  lemma NoneQueued(spans: seq<Span>, next: map<int, nat>)
    requires Queue(spans, next, [], [])
    ensures forall i :: !Unread(spans, next, i)
  {
    forall i ensures !Unread(spans, next, i) {
      assert Unread(spans, next, i) ==> i in [];
    }
  }

  /** One bounded run, of the bounds it listed while the topic moved from `was` to
      `listed`; `rows` are what was written, whatever happens. */
  method ReadBatch(broker: Broker, topic: string, saved: Option<Position>, latest: bool, max: nat)
    returns (r: Result<Position, Option<Gap>>, bounds: seq<Bounds>, spans: seq<Span>, rows: seq<Row>, ghost was: Topic, ghost listed: Topic)
    modifies broker
    ensures Ages(old(broker.topic), was) && Ages(was, listed) && Ages(listed, broker.topic) && |rows| <= max
    ensures Genuine(broker.topic, rows)
    ensures r.Ok? ==> Listed(was, listed, bounds) && RunOf(topic, bounds, saved, latest, broker.topic, spans, r.value, rows)
    ensures r.Ok? ==> |rows| == max || forall i :: !Unread(spans, r.value.next, i)
    ensures r == Err(None) <==> broker.faults > old(broker.faults)
    ensures (exists i :: 0 <= i < |bounds| && Outside(topic, saved, bounds[i])) ==> r.Err? && r.error.Some? && rows == []
    ensures r.Err? && r.error.Some? ==> exists i :: 0 <= i < |bounds| && Misses(topic, saved, bounds[i], r.error.value)
  {
    bounds, spans, rows := [], [], [];
    var list;
    list, was := List(broker);
    listed := broker.topic;
    if list.None? { return Err(None), bounds, spans, rows, was, listed; }
    bounds := list.value;
    var planned := PlanSpans(topic, bounds, saved, latest);
    if planned.Err? { return Err(Some(planned.error)), bounds, spans, rows, was, listed; }
    spans := planned.value;
    PlannedApart(bounds, Saved(topic, saved), latest, spans);
    StartReads(was, listed, bounds, Saved(topic, saved), latest, spans);
    var failed, next;
    failed, next, rows := ReadTurns(broker, spans, max);
    r := if failed then Err(None) else Ok(Position(topic, next));
  }

  /** A run that succeeded: each partition's span is as planned, and is covered
      up to the offset the run saves. */
  ghost predicate RunOf(topic: string, bounds: seq<Bounds>, saved: Option<Position>, latest: bool, now: Topic,
                        spans: seq<Span>, position: Position, rows: seq<Row>) {
    && position.topic == topic && |spans| == |bounds|
    && (forall i :: 0 <= i < |bounds| ==> Plan(bounds[i], Saved(topic, saved), latest) == Ok(spans[i]))
    && Reading(now, spans, position.next, rows)
  }

  function Starts(spans: seq<Span>): (next: map<int, nat>)
    requires forall i, j :: 0 <= i < j < |spans| ==> spans[i].partition != spans[j].partition
    ensures forall i :: 0 <= i < |spans| ==> spans[i].partition in next && next[spans[i].partition] == spans[i].from
    ensures forall p :: p in next ==> exists i :: 0 <= i < |spans| && spans[i].partition == p
  {
    map i | 0 <= i < |spans| :: spans[i].partition := spans[i].from
  }

  lemma PlannedApart(bounds: seq<Bounds>, saved: map<int, nat>, latest: bool, spans: seq<Span>)
    requires |spans| == |bounds| && forall i, j :: 0 <= i < j < |bounds| ==> bounds[i].partition != bounds[j].partition
    requires forall i :: 0 <= i < |bounds| ==> Plan(bounds[i], saved, latest) == Ok(spans[i])
    ensures forall i, j :: 0 <= i < j < |spans| ==> spans[i].partition != spans[j].partition
  {
    forall i, j | 0 <= i < j < |spans| ensures spans[i].partition != spans[j].partition {
      assert bounds[i].partition == spans[i].partition && bounds[j].partition == spans[j].partition;
    }
  }

  lemma StartCovers(was: Topic, t: Topic, bound: Bounds, saved: map<int, nat>, latest: bool, span: Span, next: map<int, nat>)
    requires Bounded(was, t, bound)
    requires Plan(bound, saved, latest) == Ok(span) && span.partition in next && next[span.partition] == span.from
    ensures Covered(t, span, next, [])
  {
  }

  lemma StartReads(was: Topic, t: Topic, bounds: seq<Bounds>, saved: map<int, nat>, latest: bool, spans: seq<Span>)
    requires Listed(was, t, bounds) && |spans| == |bounds|
    requires forall i :: 0 <= i < |bounds| ==> Plan(bounds[i], saved, latest) == Ok(spans[i])
    requires forall i, j :: 0 <= i < j < |spans| ==> spans[i].partition != spans[j].partition
    ensures Reading(t, spans, Starts(spans), [])
  {
    var next := Starts(spans);
    forall i | 0 <= i < |spans| ensures Covered(t, spans[i], next, []) {
      StartCovers(was, t, bounds[i], saved, latest, spans[i], next);
    }
  }

  lemma {:induction false} StartQueue(spans: seq<Span>)
    requires forall i, j :: 0 <= i < j < |spans| ==> spans[i].partition != spans[j].partition
    ensures Queue(spans, Starts(spans), [], NotEmpty(spans))
  {
    var next := Starts(spans);
    forall i | 0 <= i < |spans| ensures spans[i].partition in next && next[spans[i].partition] == spans[i].from {
    }
  }

  // -------------------------------------------------------------------------
  // Every run of a node
  // -------------------------------------------------------------------------

  /** `rows` are those of the successful runs, one after another, and `first` is
      where each partition was first read from. */
  datatype History = History(topic: Topic, saved: Option<Position>, first: map<int, nat>, rows: seq<Row>)

  ghost predicate Passes(h: History, k: History) {
    Ages(h.topic, k.topic) && k == h.(topic := k.topic)
  }

  /** What a run listed, while the topic moved. */
  datatype Listing = Listing(was: Topic, now: Topic, bounds: seq<Bounds>)

  /** A successful run. */
  ghost predicate Succeeds(name: string, latest: bool, h: History, k: History, l: Listing, spans: seq<Span>, rows: seq<Row>) {
    && Ages(h.topic, l.was) && Ages(l.was, l.now) && Listed(l.was, l.now, l.bounds) && Ages(l.now, k.topic)
    && k.saved.Some? && RunOf(name, l.bounds, h.saved, latest, k.topic, spans, k.saved.value, rows)
    && k.rows == h.rows + rows && k.first == Firsts(spans, h.first)
  }

  /** Where partitions were first read from, once these spans were, too. */
  function Firsts(spans: seq<Span>, first: map<int, nat>): (r: map<int, nat>)
    ensures forall p :: p in first ==> p in r && r[p] == first[p]
    ensures forall p :: p in r <==> p in first || exists i :: 0 <= i < |spans| && spans[i].partition == p
    ensures forall p :: p in r && p !in first ==> exists i :: 0 <= i < |spans| && spans[i].partition == p && r[p] == spans[i].from
  {
    if spans == [] then first
    else
      var n := |spans| - 1;
      var r := Firsts(spans[..n], first);
      if spans[n].partition in r then r else r[spans[n].partition := spans[n].from]
  }

  /** Each run may start where its own settings say, and have its own cap. */
  ghost predicate Step(name: string, h: History, k: History) {
    Passes(h, k) || exists latest, l: Listing, spans, rows :: Succeeds(name, latest, h, k, l, spans, rows)
  }

  /** A partition's rows, over all successful runs: from its first offset to the
      saved one, each offset once and in order, or unreadable. */
  ghost predicate Tiled(h: History, name: string, p: int) {
    if p in Saved(name, h.saved) then
      && p in h.topic && Saved(name, h.saved)[p] <= h.topic[p].latest
      && p in h.first && Covers(h.topic[p].recorded, h.topic[p].readable, Of(h.rows, p), h.first[p], Saved(name, h.saved)[p])
    else p !in h.first && Of(h.rows, p) == []
  }

  ghost predicate Inv(name: string, h: History) {
    forall p :: Tiled(h, name, p)
  }

  lemma TiledAges(name: string, h: History, t: Topic, p: int)
    requires Tiled(h, name, p) && Ages(h.topic, t)
    ensures Tiled(h.(topic := t), name, p)
  {
  }

  lemma AgesTransitive(s: Topic, t: Topic, u: Topic)
    requires Ages(s, t) && Ages(t, u)
    ensures Ages(s, u)
  {
  }

  lemma RunTiles(name: string, latest: bool, h: History, k: History, l: Listing, spans: seq<Span>, rows: seq<Row>, i: nat)
    requires Succeeds(name, latest, h, k, l, spans, rows) && i < |spans| && Tiled(h, name, spans[i].partition)
    ensures Tiled(k, name, spans[i].partition)
  {
    var p, saved := spans[i].partition, Saved(name, h.saved);
    OfConcat(h.rows, rows, p);
    assert Covered(k.topic, spans[i], k.saved.value.next, rows);
    assert Plan(l.bounds[i], saved, latest) == Ok(spans[i]);
    if p in saved {
      AgesTransitive(h.topic, l.was, l.now);
      AgesTransitive(h.topic, l.now, k.topic);
      TiledAges(name, h, k.topic, p);
      CoversJoin(k.topic[p].recorded, k.topic[p].readable, Of(h.rows, p), Of(rows, p), h.first[p], saved[p], k.saved.value.next[p]);
    } else {
      assert Of(h.rows, p) + Of(rows, p) == Of(rows, p);
    }
  }

  lemma RunLeaves(name: string, latest: bool, h: History, k: History, l: Listing, spans: seq<Span>, rows: seq<Row>, p: int)
    requires Succeeds(name, latest, h, k, l, spans, rows) && Tiled(h, name, p)
    requires forall i :: 0 <= i < |spans| ==> spans[i].partition != p
    ensures Tiled(k, name, p)
  {
    OfConcat(h.rows, rows, p);
    Untouched(k.topic, spans, k.saved.value.next, rows, p);
    NotListed(l, Saved(name, h.saved), latest, spans, p);
  }

  lemma NotListed(l: Listing, saved: map<int, nat>, latest: bool, spans: seq<Span>, p: int)
    requires Listed(l.was, l.now, l.bounds) && |spans| == |l.bounds| && forall i :: 0 <= i < |spans| ==> spans[i].partition != p
    requires forall i :: 0 <= i < |l.bounds| ==> Plan(l.bounds[i], saved, latest) == Ok(spans[i])
    ensures p !in l.was
  {
    if i :| 0 <= i < |l.bounds| && l.bounds[i].partition == p {
      assert Plan(l.bounds[i], saved, latest) == Ok(spans[i]);
    }
  }

  /** A partition without a span has no row, and no offset to save. */
  lemma {:induction false} Untouched(topic: Topic, spans: seq<Span>, next: map<int, nat>, rows: seq<Row>, p: int)
    requires Reading(topic, spans, next, rows) && forall i :: 0 <= i < |spans| ==> spans[i].partition != p
    ensures p !in next && Of(rows, p) == []
  {
    forall k | 0 <= k < |rows| ensures rows[k].partition != p {
      assert rows[k].partition in next;
    }
    NoRows(rows, p);
  }

  lemma {:induction false} NoRows(rows: seq<Row>, p: int)
    requires forall k :: 0 <= k < |rows| ==> rows[k].partition != p
    ensures Of(rows, p) == []
  {
    if rows != [] { NoRows(rows[..|rows| - 1], p); }
  }

  lemma StepKeeps(name: string, h: History, k: History)
    requires Inv(name, h) && Step(name, h, k)
    ensures Inv(name, k)
  {
    forall p ensures Tiled(k, name, p) {
      if Passes(h, k) {
        TiledAges(name, h, k.topic, p);
      } else {
        var latest, l: Listing, spans: seq<Span>, rows: seq<Row> :| Succeeds(name, latest, h, k, l, spans, rows);
        if i :| 0 <= i < |spans| && spans[i].partition == p {
          RunTiles(name, latest, h, k, l, spans, rows, i);
        } else {
          RunLeaves(name, latest, h, k, l, spans, rows, p);
        }
      }
    }
  }

  /** A position saved for another topic may be there at first. */
  ghost predicate Life(name: string, life: seq<History>) {
    && |life| > 0 && life[0].first == map[] && life[0].rows == []
    && (life[0].saved.Some? ==> life[0].saved.value.topic != name)
    && forall i :: 0 < i < |life| ==> Step(name, life[i - 1], life[i])
  }

  /** A node's life begins so, whatever was saved for another topic. */
  lemma LifeBegins(name: string, topic: Topic, saved: Option<Position>)
    requires saved.Some? ==> saved.value.topic != name
    ensures Life(name, [History(topic, saved, map[], [])])
  {
  }

  /** Over any life of a node the successful runs tile each partition: nothing
      readable is missed or written twice. And its saved offset is never past
      the end, so that error means another topic. */
  lemma {:induction false} RunsTile(name: string, life: seq<History>, i: nat)
    requires Life(name, life) && i < |life|
    ensures Inv(name, life[i])
  {
    if i == 0 {
      forall p ensures Tiled(life[0], name, p) {
      }
    } else {
      RunsTile(name, life, i - 1);
      StepKeeps(name, life[i - 1], life[i]);
    }
  }

  /** A partition without an offset of its own is first read from the end its
      first run found, or the oldest record held, as of when it asked. */
  lemma {:induction false} FirstFrom(name: string, latest: bool, h: History, k: History, l: Listing, spans: seq<Span>, rows: seq<Row>, p: int)
    requires Inv(name, h) && Succeeds(name, latest, h, k, l, spans, rows) && p in l.was && !HasOffset(name, h.saved, p)
    ensures p in k.first && p in l.now && HasOffset(name, k.saved, p) && forall i :: 0 <= i < |Of(rows, p)| ==> Of(rows, p)[i] >= k.first[p]
    ensures if latest then l.was[p].latest <= k.first[p] <= l.now[p].latest else l.was[p].earliest <= k.first[p] <= l.now[p].earliest
  {
    var b := Begins(name, latest, h, k, l, spans, rows, p);
  }

  lemma {:induction false} Begins(name: string, latest: bool, h: History, k: History, l: Listing, spans: seq<Span>, rows: seq<Row>, p: int) returns (b: nat)
    requires Inv(name, h) && Succeeds(name, latest, h, k, l, spans, rows) && p in l.was && !HasOffset(name, h.saved, p)
    ensures b < |l.bounds| && l.bounds[b].partition == p && Bounded(l.was, l.now, l.bounds[b])
    ensures p in k.first && k.first[p] == if latest then l.bounds[b].latest else l.bounds[b].earliest
    ensures HasOffset(name, k.saved, p) && forall i :: 0 <= i < |Of(rows, p)| ==> Of(rows, p)[i] >= k.first[p]
  {
    b := BoundOf(l, p);
    SpanIs(name, latest, h.saved, l.bounds, k.topic, spans, k.saved.value, rows, b);
    NotFirst(name, h, p);
    FirstIs(spans, h.first, b);
  }

  lemma NotFirst(name: string, h: History, p: int)
    requires Inv(name, h) && !HasOffset(name, h.saved, p)
    ensures p !in h.first
  {
    assert Tiled(h, name, p);
  }

  /** The place of a partition that was listed. */
  lemma BoundOf(l: Listing, p: int) returns (b: nat)
    requires Listed(l.was, l.now, l.bounds) && p in l.was
    ensures b < |l.bounds| && l.bounds[b].partition == p && Bounded(l.was, l.now, l.bounds[b])
  {
    b :| 0 <= b < |l.bounds| && l.bounds[b].partition == p;
  }

  lemma SpanIs(name: string, latest: bool, saved: Option<Position>, bounds: seq<Bounds>, now: Topic, spans: seq<Span>, position: Position, rows: seq<Row>, b: nat)
    requires RunOf(name, bounds, saved, latest, now, spans, position, rows) && b < |bounds|
    ensures b < |spans| && spans[b].partition == bounds[b].partition
    ensures Plan(bounds[b], Saved(name, saved), latest) == Ok(spans[b]) && Covered(now, spans[b], position.next, rows)
  {
    assert Plan(bounds[b], Saved(name, saved), latest) == Ok(spans[b]);
  }

  lemma {:induction false} FirstIs(spans: seq<Span>, first: map<int, nat>, b: nat)
    requires b < |spans| && spans[b].partition !in first
    requires forall i, j :: 0 <= i < j < |spans| ==> spans[i].partition != spans[j].partition
    ensures spans[b].partition in Firsts(spans, first) && Firsts(spans, first)[spans[b].partition] == spans[b].from
  {
  }

  /** One with an offset goes on from it: its rows are from there on, and nothing
      from there to the offset now saved is left out. */
  lemma {:induction false} GoesOn(name: string, latest: bool, h: History, k: History, l: Listing, spans: seq<Span>, rows: seq<Row>, p: int)
    requires Inv(name, h) && Succeeds(name, latest, h, k, l, spans, rows) && p in l.was && HasOffset(name, h.saved, p)
    ensures HasOffset(name, k.saved, p) && p in k.topic
    ensures Covers(k.topic[p].recorded, k.topic[p].readable, Of(rows, p), h.saved.value.next[p], k.saved.value.next[p])
  {
    var b := BoundOf(l, p);
    SpanIs(name, latest, h.saved, l.bounds, k.topic, spans, k.saved.value, rows, b);
  }

  /** The saved offset is no longer held. */
  predicate Behind(bound: Bounds, saved: map<int, nat>) {
    bound.partition in saved && saved[bound.partition] < bound.earliest
  }

  lemma NeverPastEnd(name: string, latest: bool, life: seq<History>, i: nat, l: Listing, b: nat)
    requires Life(name, life) && i < |life| && Ages(life[i].topic, l.was) && Listed(l.was, l.now, l.bounds) && b < |l.bounds|
    ensures var planned := Plan(l.bounds[b], Saved(name, life[i].saved), latest);
      && !(planned.Err? && planned.error.PastEnd?)
      && (planned.Err? <==> Behind(l.bounds[b], Saved(name, life[i].saved)))
  {
    RunsTile(name, life, i);
    assert Tiled(life[i], name, l.bounds[b].partition) && Bounded(l.was, l.now, l.bounds[b]);
  }

  /** One run of a node. If it fails, its rows and its position are dropped. */
  method RunNode(broker: Broker, name: string, latest: bool, max: nat, h: History) returns (k: History, ok: bool, bounds: seq<Bounds>)
    requires broker.topic == h.topic
    modifies broker
    ensures Step(name, h, k) && k.topic == broker.topic
    ensures ok ==> exists l, spans, rows :: Succeeds(name, latest, h, k, l, spans, rows)
    ensures !ok ==> k == h.(topic := broker.topic)
    ensures (exists b :: 0 <= b < |bounds| && Behind(bounds[b], Saved(name, h.saved))) ==> !ok
    ensures !ok ==> broker.faults > old(broker.faults) || exists b :: 0 <= b < |bounds| && Outside(name, h.saved, bounds[b])
  {
    var r, spans, rows;
    ghost var was, listed;
    r, bounds, spans, rows, was, listed := ReadBatch(broker, name, h.saved, latest, max);
    AgesTransitive(h.topic, was, listed);
    AgesTransitive(h.topic, listed, broker.topic);
    ok := r.Ok?;
    if ok {
      k := History(broker.topic, Some(r.value), Firsts(spans, h.first), h.rows + rows);
      assert Succeeds(name, latest, h, k, Listing(was, listed, bounds), spans, rows);
    } else {
      k := h.(topic := broker.topic);
      assert Passes(h, k);
    }
  }
}
