/** `src.stream.kinesis`: one run reads every readable shard in turns, up to
    `max_records`, and saves where each shard's reading got to. */
module KinesisSource {
  import opened Common
  import opened KinesisStream

  // -------------------------------------------------------------------------
  // The Kinesis API
  // -------------------------------------------------------------------------

  datatype Shard = Shard(id: ShardId, parents: seq<ShardId>)

  datatype IteratorKind =
    | TrimHorizon
    | Latest
    | AtTimestamp(millis: int)
    | AtSequence(at: nat)
    | AfterSequence(after: nat)

  /** A place in a shard: the next record it reads is the shard's `index`th. */
  datatype ShardIterator = ShardIterator(shard: ShardId, index: nat)

  datatype Answer = Answer(records: seq<Record>, next: Option<ShardIterator>, behind: Option<nat>)

  /** Why a call gave no answer. */
  datatype Refusal = NotHeld | Unanswered

  /** Why a run failed. `blank`: the record last read was looked for, and an
      answer with no record came; the run itself does not keep that. */
  datatype Failure = Refused(why: Refusal) | NotWritten | Expired(shard: ShardId, blank: bool)

  function Ids(shards: seq<Shard>): set<ShardId> {
    set i | 0 <= i < |shards| :: shards[i].id
  }

  predicate Listing(s: Stream, shards: seq<Shard>) {
    && (forall i :: 0 <= i < |shards| ==> shards[i].id in s.parents && shards[i].parents == s.parents[shards[i].id])
    && Ids(shards) == s.listed
  }

  predicate Held(s: Stream, id: ShardId, index: int, sequence: nat)
    requires id in s.horizon
  {
    s.horizon[id] <= index < |Log(s, id)| && Log(s, id)[index].sequence == sequence
  }

  /** No record with that number is held. */
  predicate Gone(s: Stream, id: ShardId, sequence: nat)
    requires id in s.horizon
  {
    forall j :: s.horizon[id] <= j < |Log(s, id)| ==> Log(s, id)[j].sequence != sequence
  }

  /** Where GetShardIterator puts an iterator of each kind. For a sequence number
      of no record held, `AtSequence` may answer the oldest. */
  predicate Places(s: Stream, id: ShardId, kind: IteratorKind, index: nat)
    requires id in s.horizon
  {
    var log, oldest := Log(s, id), s.horizon[id];
    oldest <= index <= |log| &&
    match kind
    case TrimHorizon => index == oldest
    case Latest => index == |log|
    case AtTimestamp(millis) => forall j :: oldest <= j < |log| ==> (log[j].arrival < millis <==> j < index)
    case AtSequence(sequence) =>
      Held(s, id, index, sequence) || (index == oldest && forall j :: oldest <= j < |log| ==> log[j].sequence != sequence)
    case AfterSequence(sequence) => Held(s, id, index - 1, sequence)
  }

  /** What GetRecords may answer: some of the records from the iterator on,
      perhaps none; no next iterator only at the end of a closed shard; zero
      behind only at the end of what there is. */
  predicate Answers(s: Stream, from: ShardIterator, limit: nat, answer: Answer) {
    var log, end := Log(s, from.shard), from.index + |answer.records|;
    && |answer.records| <= limit && end <= |log| && answer.records == log[from.index..end]
    && (answer.next.None? ==> from.shard in s.closed && end == |log|)
    && (answer.next.Some? ==> answer.next.value == ShardIterator(from.shard, end))
    && (answer.behind == Some(0) ==> end == |log|)
  }

  /** Nothing yet, though there is more. */
  predicate Stalls(answer: Answer) {
    answer.records == [] && answer.next.Some? && answer.behind != Some(0)
  }

  /** What GetShardIterator may answer. A closed shard that has nothing more there
      may have none to give; and of a place asked for by a record, that it is not
      held says that the record is gone. */
  predicate Iterated(s: Stream, id: ShardId, kind: IteratorKind, r: Result<Option<ShardIterator>, Refusal>)
    requires id in s.horizon
  {
    match r
    case Ok(Some(place)) => place.shard == id && Places(s, id, kind, place.index)
    case Ok(None) => id in s.closed && Places(s, id, kind, |Log(s, id)|)
    case Err(NotHeld) => kind.AtSequence? ==> Gone(s, id, kind.at)
    case Err(_) => true
  }

  /** The API, the stream behind it, and where a run's rows go. Others use the
      stream meanwhile; any call may fail. `idle` bounds how often GetRecords
      answers nothing while there is more, so that a run ends. */
  class Api {
    var stream: Live
    var idle: nat
    /** The shards this run asked for an iterator to read from: each at most
        once, which GetShardIterator demands. */
    ghost var asked: set<ShardId>
    ghost var failing: bool          // a call was refused, or a row could not be made or written
    ghost var blanks: set<ShardId>   // the shards that gave an answer with no record

    constructor (stream: Live)
      ensures this.stream == stream && asked == blanks == {} && !failing
    {
      this.stream := stream;
      asked, blanks, failing := {}, {}, false;
    }

    method Others()
      modifies this`stream
      ensures Grows(old(stream), stream)
    {
      var moves: seq<Move> := *;
      PlayKeeps(stream, moves);
      stream := Play(stream, moves);
    }

    method ListShards() returns (r: Result<seq<Shard>, Refusal>)
      modifies this`stream, this`failing
      ensures Grows(old(stream), stream) && failing == (old(failing) || r.Err?)
      ensures r.Ok? ==> Listing(stream, r.value)
    {
      Others();
      var shards: seq<Shard> := *;
      r := if Listing(stream, shards) then Ok(shards) else Err(Unanswered);
      failing := failing || r.Err?;
    }

    method GetShardIterator(id: ShardId, kind: IteratorKind) returns (r: Result<Option<ShardIterator>, Refusal>)
      requires id in stream.parents
      requires kind.AtSequence? || id !in asked
      modifies this`stream, this`asked, this`failing
      ensures Grows(old(stream), stream) && failing == (old(failing) || r.Err?)
      ensures Iterated(stream, id, kind, r)
      ensures asked == old(asked) + if kind.AtSequence? then {} else {id}
    {
      Others();
      asked := asked + if kind.AtSequence? then {} else {id};
      r := *;
      if !Iterated(stream, id, kind, r) { r := Err(Unanswered); }
      failing := failing || r.Err?;
    }

    method GetRecords(from: ShardIterator, limit: nat) returns (r: Result<Answer, Refusal>)
      requires from.shard in stream.parents
      requires stream.horizon[from.shard] <= from.index <= |Log(stream, from.shard)|
      modifies this`stream, this`idle, this`failing, this`blanks
      ensures Grows(old(stream), stream) && idle <= old(idle) && failing == (old(failing) || r.Err?)
      ensures blanks == old(blanks) + if r.Ok? && r.value.records == [] then {from.shard} else {}
      ensures r.Ok? ==> Answers(stream, from, limit, r.value)
      ensures r.Ok? && Stalls(r.value) ==> idle < old(idle)
    {
      Others();
      var answer: Answer := *;
      if !Answers(stream, from, limit, answer) || (Stalls(answer) && idle == 0) {
        failing := true;
        return Err(Unanswered);
      }
      if Stalls(answer) { idle := idle - 1; }
      if answer.records == [] { blanks := blanks + {from.shard}; }
      r := Ok(answer);
    }

    /** An answer, and how many of its rows the flow takes before one that cannot be
        made or written. */
    method Read(from: ShardIterator, limit: nat) returns (r: Result<Answer, Refusal>, takes: nat)
      requires from.shard in stream.parents
      requires stream.horizon[from.shard] <= from.index <= |Log(stream, from.shard)|
      modifies this`stream, this`idle, this`failing, this`blanks
      ensures Grows(old(stream), stream) && idle <= old(idle)
      ensures r.Ok? ==> Answers(stream, from, limit, r.value)
      ensures r.Ok? && Stalls(r.value) ==> idle < old(idle)
      ensures r.Err? || takes < |r.value.records| ==> failing
    {
      r := GetRecords(from, limit);
      takes := *;
      if r.Ok? && takes < |r.value.records| { failing := true; }
    }
  }

  // -------------------------------------------------------------------------
  // The position, and what a run keeps
  // -------------------------------------------------------------------------

  datatype ShardPosition = After(sequence: nat) | Done | Since(millis: int) | Start

  type Positions = map<ShardId, ShardPosition>

  datatype Position = Position(stream: string, shards: Positions)

  datatype Settings = Settings(stream: string, latest: bool, maxRecords: nat, continueOnExpiry: bool)

  datatype Opened = Continuing | FromStart | FromNow

  /** How a shard was opened, and beside it where its reading began and got to
      (`from`, `to`), how long its log was (`seen`), whether the record last read
      was found gone (`lost`), and that by an answer with no record (`blank`). */
  datatype Opening = Opening(how: Opened, from: nat, to: nat, seen: nat, lost: bool, blank: bool)

  /** What a run has so far. `finished` says, for each shard it counts as
      finished, how many rows were written by then. */
  datatype Batch = Batch(positions: Positions, openings: map<ShardId, Opening>, finished: map<ShardId, nat>)

  /** What a run starts from; `at` is the stream as it was listed. */
  datatype Given = Given(settings: Settings, saved: Positions, first: bool, started: int, at: Live)

  datatype Summary = Summary(checkpoint: Position, records: nat)

  predicate Finished(listed: set<ShardId>, positions: Positions, id: ShardId) {
    id !in listed || Get(positions, id) == Some(Done)
  }

  predicate MayOpen(shard: Shard, listed: set<ShardId>, positions: Positions) {
    !Finished(listed, positions, shard.id) && forall p :: p in shard.parents ==> Finished(listed, positions, p)
  }

  function Choose(shards: seq<Shard>, listed: set<ShardId>, positions: Positions): (ids: seq<ShardId>)
    ensures forall id :: id in ids <==> exists i :: 0 <= i < |shards| && shards[i].id == id && MayOpen(shards[i], listed, positions)
  {
    if shards == [] then []
    else
      var last := shards[|shards| - 1];
      var chosen := Choose(shards[..|shards| - 1], listed, positions);
      assert forall i :: 0 <= i < |shards| - 1 ==> shards[..|shards| - 1][i] == shards[i];
      chosen + if MayOpen(last, listed, positions) then [last.id] else []
  }

  /** The ids `Choose` finds, with what the listing itself names as listed. */
  function Readable(shards: seq<Shard>, positions: Positions): seq<ShardId> {
    Choose(shards, Ids(shards), positions)
  }

  // -------------------------------------------------------------------------
  // What holds at every point of a run
  // -------------------------------------------------------------------------

  /** Where a shard's reading began is what its saved position says. */
  ghost predicate OpensAt(g: Given, s: Stream, id: ShardId, o: Opening)
    requires id in s.horizon
  {
    var log, oldest := Log(s, id), s.horizon[id];
    var saved: Option<ShardPosition> := Get(g.saved, id);
    && oldest <= o.from <= o.seen <= |log| && (o.blank ==> o.lost)
    && match saved
       case Some(Done) => false
       case Some(Start) => !o.lost && o.how == FromStart && o.from == oldest
       case Some(Since(millis)) =>
         !o.lost && o.how == Continuing && forall j :: oldest <= j < o.seen ==> (log[j].arrival < millis <==> j < o.from)
       case Some(After(sequence)) =>
         if o.lost then
           && g.settings.continueOnExpiry && o.how == FromStart && o.from == oldest
           && id in g.at.horizon && (o.blank || Gone(g.at, id, sequence))
         else o.how == Continuing && Held(s, id, o.from - 1, sequence)
       case None =>
         !o.lost && if g.first && g.settings.latest then o.how == FromNow && o.from == o.seen
                    else o.how == FromStart && o.from == oldest
  }

  /** The rows a run wrote of one shard are its records from where its reading
      began to where it got, and its position now says where that is. */
  ghost predicate Reads(g: Given, s: Stream, id: ShardId, opening: Option<Opening>, now: Option<ShardPosition>, written: seq<Record>)
    requires id in s.horizon
  {
    match opening
    case None => written == [] && now == Get(g.saved, id)
    case Some(o) =>
      && OpensAt(g, s, id, o)
      && o.from <= o.to <= |Log(s, id)| && written == Log(s, id)[o.from..o.to]
      && if now == Some(Done) then id in s.closed && o.to == |Log(s, id)|
         else if o.from < o.to then now == Some(After(Log(s, id)[o.to - 1].sequence))
         else now == Get(g.saved, id)
  }

  ghost predicate ReadsAll(g: Given, s: Stream, b: Batch, rows: seq<Row>) {
    && (forall id {:trigger Of(rows, id)} :: id in s.horizon ==> Reads(g, s, id, Get(b.openings, id), Get(b.positions, id), Of(rows, id)))
    && (forall id {:trigger Of(rows, id)} :: id !in s.horizon ==> Of(rows, id) == [] && Get(b.positions, id) == Get(g.saved, id))
  }

  /** `p` is a parent of `id` that the stream lists. */
  predicate Parent(at: Stream, p: ShardId, id: ShardId) {
    id in at.parents && p in at.parents[id] && p in at.listed
  }

  /** No row of a shard is written after it finished, nor before every listed
      parent of its shard has. */
  ghost predicate Lineage(at: Stream, b: Batch, rows: seq<Row>) {
    && b.openings.Keys <= at.listed
    && (forall id :: id in b.finished <==> id in at.listed && Get(b.positions, id) == Some(Done))
    && (forall id :: id in b.finished ==> b.finished[id] <= |rows|)
    && (forall id, k :: id in b.finished && b.finished[id] <= k < |rows| ==> rows[k].shard != id)
    && (forall k :: 0 <= k < |rows| ==> rows[k].shard in b.openings)
    && (forall k, p :: 0 <= k < |rows| && Parent(at, p, rows[k].shard) ==> p in b.finished && b.finished[p] <= k)
    && (forall id, p :: id in b.openings && Parent(at, p, id) ==>
          p in b.finished && (id in b.finished ==> b.finished[p] <= b.finished[id]))
  }

  ghost predicate RunInv(g: Given, s: Stream, b: Batch, rows: seq<Row>) {
    Lineage(g.at, b, rows) && ReadsAll(g, s, b, rows)
  }

  // -------------------------------------------------------------------------
  // Each thing a run does keeps it
  // -------------------------------------------------------------------------

  lemma ReadsGrow(g: Given, s: Stream, t: Stream, id: ShardId, opening: Option<Opening>, now: Option<ShardPosition>, written: seq<Record>)
    requires Grows(s, t) && id in s.parents && id in s.horizon && id in t.horizon
    requires Reads(g, s, id, opening, now, written)
    ensures Reads(g, t, id, opening, now, written)
  {
    LogGrows(s, t, id);
  }

  lemma ReadsAllGrow(g: Given, s: Stream, t: Stream, b: Batch, rows: seq<Row>)
    requires Grows(s, t) && s.horizon.Keys == s.parents.Keys
    requires ReadsAll(g, s, b, rows) && b.openings.Keys <= s.parents.Keys
    ensures ReadsAll(g, t, b, rows)
  {
    forall id | id in t.horizon ensures Reads(g, t, id, Get(b.openings, id), Get(b.positions, id), Of(rows, id)) {
      if id in s.horizon {
        ReadsGrow(g, s, t, id, Get(b.openings, id), Get(b.positions, id), Of(rows, id));
      }
    }
  }

  /** Others acting on the stream break nothing a run established. */
  lemma OthersKeep(g: Given, s: Stream, t: Stream, b: Batch, rows: seq<Row>)
    requires RunInv(g, s, b, rows) && Grows(s, t)
    requires s.horizon.Keys == s.parents.Keys && g.at.listed <= s.parents.Keys
    ensures RunInv(g, t, b, rows)
  {
    ReadsAllGrow(g, s, t, b, rows);
  }

  ghost predicate SameElsewhere(b: Batch, c: Batch, rows: seq<Row>, more: seq<Row>, id: ShardId) {
    forall other :: other != id ==>
      && Get(c.openings, other) == Get(b.openings, other)
      && Get(c.positions, other) == Get(b.positions, other)
      && Of(more, other) == Of(rows, other)
  }

  /** A run that touches one shard leaves what it read of the others. */
  lemma {:induction false} ReadsOneMore(g: Given, s: Stream, b: Batch, c: Batch, rows: seq<Row>, more: seq<Row>, id: ShardId)
    requires ReadsAll(g, s, b, rows) && id in s.horizon && SameElsewhere(b, c, rows, more, id)
    requires Reads(g, s, id, Get(c.openings, id), Get(c.positions, id), Of(more, id))
    ensures ReadsAll(g, s, c, more)
  {
    forall other | other in s.horizon
      ensures Reads(g, s, other, Get(c.openings, other), Get(c.positions, other), Of(more, other))
    {
      assert Reads(g, s, other, Get(b.openings, other), Get(b.positions, other), Of(rows, other));
    }
  }

  lemma OpenLineage(at: Stream, b: Batch, rows: seq<Row>, id: ShardId, o: Opening)
    requires Lineage(at, b, rows) && id in at.listed && !Finished(at.listed, b.positions, id)
    requires id in at.parents && forall p :: p in at.parents[id] ==> Finished(at.listed, b.positions, p)
    ensures Lineage(at, b.(openings := b.openings[id := o]), rows)
  {
  }

  lemma OpenKeeps(g: Given, s: Stream, b: Batch, rows: seq<Row>, id: ShardId, o: Opening)
    requires RunInv(g, s, b, rows) && id in g.at.listed && id !in b.openings && id in s.horizon
    requires !Finished(g.at.listed, b.positions, id)
    requires id in g.at.parents && forall p :: p in g.at.parents[id] ==> Finished(g.at.listed, b.positions, p)
    requires OpensAt(g, s, id, o) && o.to == o.from
    ensures RunInv(g, s, b.(openings := b.openings[id := o]), rows)
  {
    OpenLineage(g.at, b, rows, id, o);
    assert Reads(g, s, id, Get(b.openings, id), Get(b.positions, id), Of(rows, id));
    ReadsOneMore(g, s, b, b.(openings := b.openings[id := o]), rows, rows, id);
  }

  function Wrote(b: Batch, id: ShardId, sequence: nat): Batch
    requires id in b.openings
  {
    var o := b.openings[id];
    b.(positions := b.positions[id := After(sequence)], openings := b.openings[id := o.(to := o.to + 1)])
  }

  lemma {:induction false} WriteElsewhere(b: Batch, rows: seq<Row>, id: ShardId, record: Record)
    requires id in b.openings
    ensures SameElsewhere(b, Wrote(b, id, record.sequence), rows, rows + [Row(id, record)], id)
    ensures Of(rows + [Row(id, record)], id) == Of(rows, id) + [record]
  {
    var more := rows + [Row(id, record)];
    assert more[..|rows|] == rows;
  }

  lemma WriteLineage(at: Stream, b: Batch, rows: seq<Row>, id: ShardId, record: Record)
    requires Lineage(at, b, rows) && id in b.openings && Get(b.positions, id) != Some(Done)
    ensures Lineage(at, Wrote(b, id, record.sequence), rows + [Row(id, record)])
  {
    assert id !in b.finished;
  }

  lemma WriteReads(g: Given, s: Stream, id: ShardId, o: Opening, now: Option<ShardPosition>, written: seq<Record>, record: Record)
    requires id in s.horizon && Reads(g, s, id, Some(o), now, written) && now != Some(Done)
    requires o.to < |Log(s, id)| && record == Log(s, id)[o.to]
    ensures Reads(g, s, id, Some(o.(to := o.to + 1)), Some(After(record.sequence)), written + [record])
  {
    assert OpensAt(g, s, id, o.(to := o.to + 1));
  }

  lemma WriteKeeps(g: Given, s: Stream, b: Batch, rows: seq<Row>, id: ShardId, record: Record)
    requires RunInv(g, s, b, rows) && id in b.openings && id in s.horizon && Get(b.positions, id) != Some(Done)
    requires b.openings[id].to < |Log(s, id)| && record == Log(s, id)[b.openings[id].to]
    ensures RunInv(g, s, Wrote(b, id, record.sequence), rows + [Row(id, record)])
  {
    var more := rows + [Row(id, record)];
    WriteElsewhere(b, rows, id, record);
    WriteLineage(g.at, b, rows, id, record);
    WriteReads(g, s, id, b.openings[id], Get(b.positions, id), Of(rows, id), record);
    ReadsOneMore(g, s, b, Wrote(b, id, record.sequence), rows, more, id);
  }

  function Close(b: Batch, id: ShardId, written: nat): Batch {
    b.(positions := b.positions[id := Done], finished := b.finished[id := written])
  }

  lemma CloseLineage(at: Stream, b: Batch, rows: seq<Row>, id: ShardId)
    requires Lineage(at, b, rows) && id in b.openings && Get(b.positions, id) != Some(Done)
    ensures Lineage(at, Close(b, id, |rows|), rows)
  {
    assert id !in b.finished;
    assert !Parent(at, id, id);
  }

  lemma CloseKeeps(g: Given, s: Stream, b: Batch, rows: seq<Row>, id: ShardId)
    requires RunInv(g, s, b, rows) && id in b.openings && id in s.horizon && Get(b.positions, id) != Some(Done)
    requires id in s.closed && b.openings[id].to == |Log(s, id)|
    ensures RunInv(g, s, Close(b, id, |rows|), rows)
  {
    CloseLineage(g.at, b, rows, id);
    assert Reads(g, s, id, Get(b.openings, id), Get(b.positions, id), Of(rows, id));
    ReadsOneMore(g, s, b, Close(b, id, |rows|), rows, rows, id);
  }

  function Begin(listed: set<ShardId>, saved: Positions): Batch {
    Batch(saved, map[], map id | id in listed && Get(saved, id) == Some(Done) :: 0)
  }

  lemma BeginHolds(g: Given)
    ensures RunInv(g, g.at, Begin(g.at.listed, g.saved), [])
  {
  }

  // -------------------------------------------------------------------------
  // One run
  // -------------------------------------------------------------------------

  /** Whether the record last read is still the one the shard holds there. An
      answer with no record counts as no: `blank`. */
  method StillHeld(api: Api, id: ShardId, sequence: nat) returns (r: Result<bool, Refusal>, blank: bool)
    requires id in api.stream.parents
    modifies api
    ensures Grows(old(api.stream), api.stream) && api.asked == old(api.asked)
    ensures r == Ok(true) ==> !Gone(api.stream, id, sequence)
    ensures r == Ok(false) ==> blank || Gone(old(api.stream), id, sequence)
    ensures (r.Err? ==> api.failing) && (blank ==> id in api.blanks)
  {
    var place := PlaceOf(api, id, sequence);
    if place.Err? { return Err(place.error), false; }
    if place.value.None? { return Ok(false), false; }
    r, blank := FirstIs(api, old(api.stream), place.value.value, sequence);
  }

  /** An iterator at that record, unless the shard no longer holds it. */
  method PlaceOf(api: Api, id: ShardId, sequence: nat) returns (r: Result<Option<ShardIterator>, Refusal>)
    requires id in api.stream.parents
    modifies api
    ensures Grows(old(api.stream), api.stream) && api.asked == old(api.asked)
    ensures r.Ok? ==>
      if r.value.None? then Gone(old(api.stream), id, sequence)
      else r.value.value.shard == id && Places(api.stream, id, AtSequence(sequence), r.value.value.index)
    ensures r.Err? ==> api.failing
  {
    r := api.GetShardIterator(id, AtSequence(sequence));
    if r == Err(NotHeld) || r == Ok(None) {
      GoneBefore(old(api.stream), api.stream, id, sequence);
      r := Ok(None);
    }
  }

  /** Whether the first record from there is the one asked for. */
  method FirstIs(api: Api, ghost was: Live, place: ShardIterator, sequence: nat) returns (r: Result<bool, Refusal>, blank: bool)
    requires Grows(was, api.stream) && place.shard in was.parents && Places(api.stream, place.shard, AtSequence(sequence), place.index)
    modifies api`stream, api`idle, api`failing, api`blanks
    ensures Grows(was, api.stream)
    ensures r == Ok(true) ==> !Gone(api.stream, place.shard, sequence)
    ensures r == Ok(false) ==> blank || Gone(was, place.shard, sequence)
    ensures (r.Err? ==> api.failing) && (blank ==> place.shard in api.blanks)
  {
    ghost var asked: Live := api.stream;
    var first := api.GetRecords(place, 1);
    GrowsTransitive(was, asked, api.stream);
    if first.Err? { return Err(first.error), false; }
    blank := first.value.records == [];
    if blank { return Ok(false), true; }
    FirstRecord(asked, api.stream, place, first.value, sequence);
    if first.value.records[0].sequence != sequence { GoneBefore(was, asked, place.shard, sequence); }
    r := Ok(first.value.records[0].sequence == sequence);
  }

  lemma GoneBefore(s: Stream, t: Stream, id: ShardId, sequence: nat)
    requires Grows(s, t) && id in s.horizon && id in s.parents && id in t.horizon && Gone(t, id, sequence)
    ensures Gone(s, id, sequence)
  {
    LogGrows(s, t, id);
  }

  /** What the first record from the place says of the one asked for. */
  lemma FirstRecord(s: Stream, t: Stream, place: ShardIterator, answer: Answer, sequence: nat)
    requires Grows(s, t) && place.shard in s.parents && place.shard in s.horizon && place.shard in t.horizon
    requires Places(s, place.shard, AtSequence(sequence), place.index) && Answers(t, place, 1, answer) && answer.records != []
    ensures answer.records[0].sequence == sequence ==> !Gone(t, place.shard, sequence)
    ensures answer.records[0].sequence != sequence ==> Gone(s, place.shard, sequence)
  {
    LogGrows(s, t, place.shard);
    assert answer.records[0] == Log(t, place.shard)[place.index];
  }

  type Started = (Option<ShardIterator>, Opening)

  /** What an opened shard's iterator is: where its reading begins, or nothing
      when a closed shard has nothing more. */
  ghost predicate StartsWell(g: Given, s: Stream, id: ShardId, started: Started)
    requires id in s.horizon
  {
    && OpensAt(g, s, id, started.1) && started.1.to == started.1.from
    && PlaceOk(s, id, started.0, started.1.from)
  }

  ghost predicate PlaceOk(s: Stream, id: ShardId, place: Option<ShardIterator>, index: nat) {
    if place.Some? then place.value == ShardIterator(id, index)
    else id in s.closed && index == |Log(s, id)|
  }

  method StartAt(api: Api, id: ShardId, kind: IteratorKind, how: Opened, lost: bool, blank: bool) returns (r: Result<Started, Failure>)
    requires id in api.stream.parents && !kind.AtSequence? && id !in api.asked
    modifies api
    ensures Grows(old(api.stream), api.stream)
    ensures api.asked == old(api.asked) + {id} && api.blanks == old(api.blanks)
    ensures r.Ok? ==>
      && r.value.1.how == how && r.value.1.lost == lost && r.value.1.blank == blank && r.value.1.to == r.value.1.from
      && Places(api.stream, id, kind, r.value.1.from) && r.value.1.seen == |Log(api.stream, id)|
      && PlaceOk(api.stream, id, r.value.0, r.value.1.from)
    ensures r.Err? ==> r.error.Refused? && api.failing
  {
    var answer := api.GetShardIterator(id, kind);
    if answer.Err? { return Err(Refused(answer.error)); }
    var seen := |Log(api.stream, id)|;
    var from := if answer.value.Some? then answer.value.value.index else seen;
    r := Ok((answer.value, Opening(how, from, from, seen, lost, blank)));
  }

  /** A run fails as expired only if told to stop, for a shard it had not opened,
      and whose record last read is gone, or was looked for with a blank answer. */
  ghost predicate Founded(g: Given, begun: set<ShardId>, failed: Option<Failure>) {
    failed.Some? && failed.value.Expired? ==>
      var id := failed.value.shard;
      && !g.settings.continueOnExpiry && id !in begun && id in g.at.listed && id in g.at.horizon
      && id in g.saved && g.saved[id].After? && (failed.value.blank || Gone(g.at, id, g.saved[id].sequence))
  }

  /** Any other failure is a call's that was refused, or a row's. */
  ghost predicate Blamed(api: Api, failed: Option<Failure>)
    reads api
  {
    failed.Some? ==> if failed.value.Expired? then failed.value.blank ==> failed.value.shard in api.blanks else api.failing
  }

  /** A blank answer that is spoken of was given, and a refusal too. */
  ghost predicate Seen(api: Api, id: ShardId, r: Result<Started, Failure>)
    reads api
  {
    match r
    case Ok(started) => started.1.blank ==> id in api.blanks
    case Err(Expired(_, blank)) => blank ==> id in api.blanks
    case Err(_) => api.failing
  }

  /** An iterator by what is saved for the shard, and how it was opened. */
  method OpenIterator(api: Api, g: Given, id: ShardId, position: Option<ShardPosition>) returns (r: Result<Started, Failure>)
    requires id in api.stream.parents && id !in api.asked
    requires position == Get(g.saved, id) && position != Some(Done) && Grows(g.at, api.stream) && id in g.at.listed && id in g.at.horizon && id in g.at.parents
    modifies api
    ensures Grows(old(api.stream), api.stream)
    ensures r.Ok? ==> StartsWell(g, api.stream, id, r.value) && api.asked == old(api.asked) + {id}
    ensures r.Err? ==> Founded(g, {}, Some(r.error)) && (r.error.Expired? ==> r.error.shard == id)
    ensures Seen(api, id, r)
  {
    match position {
      case Some(Start) => r := StartUnread(api, g, id, None);
      case Some(Since(millis)) => r := StartUnread(api, g, id, Some(millis));
      case Some(After(sequence)) => r := Resume(api, g, id, sequence);
      case None => r := StartNew(api, g, id);
    }
  }

  /** A shard opened before, of which nothing was read. */
  method StartUnread(api: Api, g: Given, id: ShardId, since: Option<int>) returns (r: Result<Started, Failure>)
    requires id in api.stream.parents && id !in api.asked
    requires Get(g.saved, id) == Some(if since.Some? then Since(since.value) else Start)
    modifies api
    ensures Grows(old(api.stream), api.stream)
    ensures r.Ok? ==> StartsWell(g, api.stream, id, r.value) && api.asked == old(api.asked) + {id}
    ensures Seen(api, id, r) && (r.Err? ==> r.error.Refused?)
  {
    if since.Some? {
      r := StartAt(api, id, AtTimestamp(since.value), Continuing, false, false);
    } else {
      r := StartAt(api, id, TrimHorizon, FromStart, false, false);
    }
  }

  /** A shard with nothing saved: at its end if this is a first run with `latest`,
      else at the oldest record held. */
  method StartNew(api: Api, g: Given, id: ShardId) returns (r: Result<Started, Failure>)
    requires id in api.stream.parents && id !in api.asked && id !in g.saved
    modifies api
    ensures Grows(old(api.stream), api.stream)
    ensures r.Ok? ==> StartsWell(g, api.stream, id, r.value) && api.asked == old(api.asked) + {id}
    ensures Seen(api, id, r) && (r.Err? ==> r.error.Refused?)
  {
    if g.first && g.settings.latest {
      r := StartAt(api, id, Latest, FromNow, false, false);
    } else {
      r := StartAt(api, id, TrimHorizon, FromStart, false, false);
    }
  }

  /** The same, as of when the run listed the stream. */
  method LookUp(api: Api, g: Given, id: ShardId, sequence: nat) returns (r: Result<bool, Refusal>, blank: bool)
    requires id in api.stream.parents && Grows(g.at, api.stream) && id in g.at.horizon && id in g.at.parents
    modifies api
    ensures Grows(old(api.stream), api.stream) && api.asked == old(api.asked)
    ensures r == Ok(true) ==> !Gone(api.stream, id, sequence)
    ensures r == Ok(false) ==> blank || Gone(g.at, id, sequence)
    ensures (r.Err? ==> api.failing) && (blank ==> id in api.blanks)
  {
    r, blank := StillHeld(api, id, sequence);
    if r == Ok(false) && !blank { GoneBefore(g.at, old(api.stream), id, sequence); }
  }

  method Resume(api: Api, g: Given, id: ShardId, sequence: nat) returns (r: Result<Started, Failure>)
    requires id in api.stream.parents && id !in api.asked
    requires Get(g.saved, id) == Some(After(sequence)) && Grows(g.at, api.stream) && id in g.at.listed && id in g.at.horizon && id in g.at.parents
    modifies api
    ensures Grows(old(api.stream), api.stream)
    ensures r.Ok? ==> StartsWell(g, api.stream, id, r.value) && api.asked == old(api.asked) + {id}
    ensures r.Err? ==> Founded(g, {}, Some(r.error)) && (r.error.Expired? ==> r.error.shard == id)
    ensures Seen(api, id, r)
  {
    var held, blank := LookUp(api, g, id, sequence);
    if held.Err? { return Err(Refused(held.error)); }
    ghost var was: Live := api.stream;
    if held.value {
      r := StartBehind(api, g, id, sequence);
    } else {
      r := StartOver(api, g, id, sequence, blank);
    }
    GrowsTransitive(old(api.stream), was, api.stream);
  }

  /** Go on right behind the record last read. */
  method StartBehind(api: Api, g: Given, id: ShardId, sequence: nat) returns (r: Result<Started, Failure>)
    requires id in api.stream.parents && id !in api.asked && Get(g.saved, id) == Some(After(sequence))
    modifies api
    ensures Grows(old(api.stream), api.stream)
    ensures r.Ok? ==> StartsWell(g, api.stream, id, r.value) && api.asked == old(api.asked) + {id}
    ensures Seen(api, id, r) && (r.Err? ==> r.error.Refused?)
  {
    r := StartAt(api, id, AfterSequence(sequence), Continuing, false, false);
  }

  /** The record last read was not found: go on from the oldest held, or fail. */
  method StartOver(api: Api, g: Given, id: ShardId, sequence: nat, blank: bool) returns (r: Result<Started, Failure>)
    requires id in api.stream.parents && id !in api.asked && id in g.at.listed && id in g.at.horizon
    requires Get(g.saved, id) == Some(After(sequence)) && if blank then id in api.blanks else Gone(g.at, id, sequence)
    modifies api
    ensures Grows(old(api.stream), api.stream)
    ensures r.Ok? ==> StartsWell(g, api.stream, id, r.value) && api.asked == old(api.asked) + {id}
    ensures r.Err? ==> Founded(g, {}, Some(r.error)) && (r.error.Expired? ==> r.error.shard == id)
    ensures Seen(api, id, r)
  {
    if !g.settings.continueOnExpiry {
      GrowsReflexive(api.stream);
      return Err(Expired(id, blank));
    }
    r := StartAt(api, id, TrimHorizon, FromStart, true, blank);
  }

  /** An opened shard, and its iterator while it has one. */
  datatype Reading = Reading(id: ShardId, place: Option<ShardIterator>)

  /** A shard waiting for its turn: opened, not finished, its iterator where its
      reading got to. */
  ghost predicate Waiting(s: Stream, b: Batch, shard: Reading) {
    && shard.id in b.openings && shard.id in s.parents && Get(b.positions, shard.id) != Some(Done)
    && PlaceOk(s, shard.id, shard.place, b.openings[shard.id].to)
  }

  /** The shards that had their turn and have more, and those still to come. */
  ghost predicate Queue(s: Stream, b: Batch, still: seq<Reading>, rest: seq<Reading>) {
    && (forall i :: 0 <= i < |still| ==> Waiting(s, b, still[i]))
    && (forall i :: 0 <= i < |rest| ==> Waiting(s, b, rest[i]))
    && (forall i, j :: 0 <= i < j < |still| ==> still[i].id != still[j].id)
    && (forall i, j :: 0 <= i < j < |rest| ==> rest[i].id != rest[j].id)
    && (forall i, j :: 0 <= i < |still| && 0 <= j < |rest| ==> still[i].id != rest[j].id)
  }

  lemma WaitingGrows(s: Stream, t: Stream, b: Batch, c: Batch, shard: Reading)
    requires Waiting(s, b, shard) && Grows(s, t)
    requires Get(c.openings, shard.id) == Get(b.openings, shard.id) && Get(c.positions, shard.id) == Get(b.positions, shard.id)
    ensures Waiting(t, c, shard)
  {
    LogGrows(s, t, shard.id);
    assert Get(b.openings, shard.id) == Some(b.openings[shard.id]);
  }

  /** A run between two calls: the stream as it found it and as it is now, and
      what it has done. */
  ghost predicate Ready(g: Given, s: Live, b: Batch, rows: seq<Row>) {
    Grows(g.at, s) && RunInv(g, s, b, rows)
  }

  ghost predicate InTurn(turn: seq<Reading>, id: ShardId) {
    exists k :: 0 <= k < |turn| && turn[k].id == id
  }

  /** Finished, or read up to where it was when the run listed it. */
  ghost predicate CaughtUp(at: Stream, b: Batch, id: ShardId) {
    Get(b.positions, id) == Some(Done) || (id in b.openings && b.openings[id].to >= |Log(at, id)|)
  }

  /** Every opened shard is waiting for a turn, or caught up. */
  ghost predicate NoneForgotten(at: Stream, b: Batch, still: seq<Reading>, rest: seq<Reading>) {
    forall id {:trigger id in b.openings} :: id in b.openings ==> InTurn(still, id) || InTurn(rest, id) || CaughtUp(at, b, id)
  }

  /** Every shard a run may read when it ends, it did read, at least up to where
      the shard was when the run listed it. */
  ghost predicate Complete(at: Stream, b: Batch) {
    forall id :: id in at.listed && id in at.parents && MayOpen(Shard(id, at.parents[id]), at.listed, b.positions) ==>
      id in b.openings && b.openings[id].to >= |Log(at, id)|
  }

  lemma OpenedIsQueued(at: Stream, b: Batch, id: ShardId, started: Started, turn: seq<Reading>)
    requires NoneForgotten(at, b, turn, []) && id !in b.openings
    ensures NoneForgotten(at, b.(openings := b.openings[id := started.1]), turn + [Reading(id, started.0)], [])
  {
    var c, longer := b.(openings := b.openings[id := started.1]), turn + [Reading(id, started.0)];
    assert longer[|turn|].id == id;
    forall other | other in c.openings && other != id ensures InTurn(longer, other) || CaughtUp(at, c, other) {
      assert other in b.openings && !InTurn([], other);
      if InTurn(turn, other) {
        var k :| 0 <= k < |turn| && turn[k].id == other;
        assert longer[k].id == other;
      }
    }
  }

  /** The head of the turn goes back in the queue, or is caught up. */
  lemma TurnForgetsNone(at: Stream, b: Batch, c: Batch, still: seq<Reading>, rest: seq<Reading>, next: Option<ShardIterator>)
    requires NoneForgotten(at, b, still, rest) && rest != [] && Touches(b, c, rest[0].id)
    requires next.Some? || CaughtUp(at, c, rest[0].id)
    ensures NoneForgotten(at, c, if next.Some? then still + [Reading(rest[0].id, next)] else still, rest[1..])
  {
    var again := if next.Some? then still + [Reading(rest[0].id, next)] else still;
    forall id | id in c.openings ensures InTurn(again, id) || InTurn(rest[1..], id) || CaughtUp(at, c, id) {
      assert id in b.openings;
      if id == rest[0].id {
        if next.Some? { assert again[|still|].id == id; }
      } else if InTurn(still, id) {
        var k :| 0 <= k < |still| && still[k].id == id;
        assert again[k].id == id;
      } else if InTurn(rest, id) {
        var k :| 0 <= k < |rest| && rest[k].id == id;
        assert rest[1..][k - 1].id == id;
      } else {
        assert CaughtUp(at, b, id);
        assert Get(c.openings, id) == Get(b.openings, id) && Get(c.positions, id) == Get(b.positions, id);
      }
    }
  }

  /** Nothing left to open, and nothing waiting. */
  lemma NothingLeft(at: Stream, shards: seq<Shard>, b: Batch)
    requires Listing(at, shards) && NoneForgotten(at, b, [], [])
    requires forall id :: id in Readable(shards, b.positions) ==> id in b.openings
    ensures Complete(at, b)
  {
    forall id | id in at.listed && id in at.parents && MayOpen(Shard(id, at.parents[id]), at.listed, b.positions)
      ensures id in b.openings && b.openings[id].to >= |Log(at, id)|
    {
      var i :| 0 <= i < |shards| && shards[i].id == id;
      assert MayOpen(shards[i], Ids(shards), b.positions);
      assert id in Readable(shards, b.positions);
      assert !InTurn([], id) && CaughtUp(at, b, id);
    }
  }

  /** The shards a run would go on with at once: with a last record, and parents
      that were finished before it. */
  ghost predicate Resumable(g: Given, id: ShardId) {
    && id in g.saved && g.saved[id].After? && id in g.at.listed && id in g.at.parents
    && MayOpen(Shard(id, g.at.parents[id]), g.at.listed, g.saved)
  }

  ghost predicate AllResumed(g: Given, b: Batch) {
    forall id :: Resumable(g, id) ==> id in b.openings
  }

  /** A saved position like those that runs save: a shard is begun after its
      parents are finished. */
  ghost predicate ParentsDone(g: Given) {
    forall id :: id in g.saved && g.saved[id].After? && id in g.at.horizon && id in g.at.parents ==>
      forall p :: p in g.at.parents[id] ==> Finished(g.at.listed, g.saved, p)
  }

  /** The first round opens them all. */
  lemma FirstResumes(g: Given, shards: seq<Shard>, b: Batch)
    requires Listing(g.at, shards) && forall id :: id in Readable(shards, g.saved) ==> id in b.openings
    ensures AllResumed(g, b)
  {
    forall id | Resumable(g, id) ensures id in b.openings {
      var i :| 0 <= i < |shards| && shards[i].id == id;
      assert MayOpen(shards[i], Ids(shards), g.saved);
      assert id in Readable(shards, g.saved);
    }
  }

  /** So no later one comes upon an expired position. */
  lemma NoneExpiredLater(g: Given, b: Batch, failed: Option<Failure>)
    requires AllResumed(g, b) && ParentsDone(g) && Founded(g, b.openings.Keys, failed) && g.at.listed <= g.at.parents.Keys
    ensures !(failed.Some? && failed.value.Expired?)
  {
    if failed.Some? && failed.value.Expired? {
      OpenedAlready(g, b, failed.value.shard);
    }
  }

  lemma OpenedAlready(g: Given, b: Batch, id: ShardId)
    requires AllResumed(g, b) && ParentsDone(g) && g.at.listed <= g.at.parents.Keys
    requires id in g.saved && g.saved[id].After? && id in g.at.listed && id in g.at.horizon
    ensures id in b.openings
  {
    assert Resumable(g, id);
  }

  /** Open one shard, and put it at the end of the turn. */
  method OpenShard(api: Api, g: Given, b: Batch, ghost rows: seq<Row>, id: ShardId, turn: seq<Reading>)
    returns (failed: Option<Failure>, c: Batch, longer: seq<Reading>)
    requires Ready(g, api.stream, b, rows) && api.asked <= b.openings.Keys && Queue(api.stream, b, turn, [])
    requires id !in b.openings && id in g.at.listed && !Finished(g.at.listed, b.positions, id)
    requires id in g.at.parents && forall p :: p in g.at.parents[id] ==> Finished(g.at.listed, b.positions, p)
    requires NoneForgotten(g.at, b, turn, [])
    modifies api
    ensures failed.None? ==> Ready(g, api.stream, c, rows) && Queue(api.stream, c, longer, [])
    ensures failed.None? ==> api.asked == old(api.asked) + {id} && c.openings.Keys == b.openings.Keys + {id}
    ensures failed.None? && c.openings[id].blank ==> id in api.blanks
    ensures failed.None? ==> NoneForgotten(g.at, c, longer, [])
    ensures c.positions == b.positions
    ensures failed.Some? ==> c == b
    ensures Founded(g, b.openings.Keys, failed) && Blamed(api, failed)
  {
    ReadyToOpen(g, api.stream, b, rows, id);
    ghost var was: Live := api.stream;
    var started := OpenIterator(api, g, id, Get(b.positions, id));
    if started.Err? { return Some(started.error), b, turn; }
    OpenReady(g, was, api.stream, b, rows, id, started.value, turn);
    KeysGrow(b.openings, id, started.value.1);
    OpenedIsQueued(g.at, b, id, started.value, turn);
    c := b.(openings := b.openings[id := started.value.1]);
    longer, failed := turn + [Reading(id, started.value.0)], None;
  }

  /** Open the shards that became readable, each for the first time. `seen` is
      the stream the run last saw, here and below: if a call fails, what was
      done until then stands. */
  method OpenTurn(api: Api, g: Given, shards: seq<Shard>, b: Batch, ghost rows: seq<Row>)
    returns (failed: Option<Failure>, c: Batch, turn: seq<Reading>, ghost seen: Live)
    requires Ready(g, api.stream, b, rows) && Listing(g.at, shards) && api.asked <= b.openings.Keys
    requires NoneForgotten(g.at, b, [], [])
    modifies api
    ensures Ready(g, seen, c, rows) && b.openings.Keys <= c.openings.Keys
    ensures failed.None? ==> NoneForgotten(g.at, c, turn, []) && c.positions == b.positions
    ensures failed.None? ==> forall id :: id in Readable(shards, b.positions) ==> id in c.openings
    ensures forall id :: id in c.openings ==> id in b.openings || id in Readable(shards, b.positions)
    ensures failed.None? ==> seen == api.stream && Queue(seen, c, turn, []) && api.asked <= c.openings.Keys
    ensures turn != [] ==> b.openings.Keys < c.openings.Keys
    ensures Founded(g, b.openings.Keys, failed) && Blamed(api, failed)
  {
    var ids := Readable(shards, b.positions);
    forall k | 0 <= k < |ids| ensures Openable(g.at, b.positions, ids[k]) {
      ReadableMayOpen(g, shards, b.positions, ids[k]);
    }
    failed, c, turn, seen := OpenAll(api, g, b, rows, ids);
    MembersAre(ids);
  }

  /** Not finished, but every parent is. */
  ghost predicate Openable(at: Stream, positions: Positions, id: ShardId) {
    && id in at.listed && id in at.parents && !Finished(at.listed, positions, id)
    && forall p :: p in at.parents[id] ==> Finished(at.listed, positions, p)
  }

  /** Open each of some shards. */
  method OpenAll(api: Api, g: Given, b: Batch, ghost rows: seq<Row>, ids: seq<ShardId>)
    returns (failed: Option<Failure>, c: Batch, turn: seq<Reading>, ghost seen: Live)
    requires Ready(g, api.stream, b, rows) && api.asked <= b.openings.Keys && NoneForgotten(g.at, b, [], [])
    requires forall k :: 0 <= k < |ids| ==> Openable(g.at, b.positions, ids[k])
    modifies api
    ensures Ready(g, seen, c, rows) && b.openings.Keys <= c.openings.Keys
    ensures failed.None? ==> NoneForgotten(g.at, c, turn, []) && c.positions == b.positions
    ensures failed.None? ==> Members(ids) <= c.openings.Keys
    ensures c.openings.Keys <= b.openings.Keys + Members(ids)
    ensures failed.None? ==> seen == api.stream && Queue(seen, c, turn, []) && api.asked <= c.openings.Keys
    ensures turn != [] ==> b.openings.Keys < c.openings.Keys
    ensures Founded(g, b.openings.Keys, failed) && Blamed(api, failed)
  {
    c, turn, failed, seen := b, [], None, api.stream;
    for i := 0 to |ids|
      invariant Ready(g, seen, c, rows) && api.asked <= c.openings.Keys && seen == api.stream && failed.None?
      invariant c.positions == b.positions && b.openings.Keys <= c.openings.Keys
      invariant Queue(seen, c, turn, []) && (turn != [] ==> b.openings.Keys < c.openings.Keys)
      invariant NoneForgotten(g.at, c, turn, []) && Members(ids[..i]) <= c.openings.Keys <= b.openings.Keys + Members(ids)
    {
      MembersMore(ids, i);
      IsMember(ids, i);
      failed, c, turn, seen := OpenIfNew(api, g, c, rows, ids[i], turn);
      if failed.Some? { return; }
    }
    MembersMore(ids, |ids|);
  }

  lemma {:induction false} IsMember(ids: seq<ShardId>, i: nat)
    requires i < |ids|
    ensures ids[i] in Members(ids)
  {
    MembersAre(ids);
  }

  lemma {:induction false} MembersMore(ids: seq<ShardId>, i: nat)
    requires i <= |ids|
    ensures i < |ids| ==> Members(ids[..i + 1]) == Members(ids[..i]) + {ids[i]}
    ensures Members(ids[..|ids|]) == Members(ids)
  {
    assert ids[..|ids|] == ids;
    assert i < |ids| ==> ids[..i + 1][..i] == ids[..i];
  }

  function Members(ids: seq<ShardId>): set<ShardId> {
    if ids == [] then {} else Members(ids[..|ids| - 1]) + {ids[|ids| - 1]}
  }

  lemma {:induction false} MembersAre(ids: seq<ShardId>)
    ensures forall id :: id in ids <==> id in Members(ids)
  {
    if ids != [] {
      MembersAre(ids[..|ids| - 1]);
      assert ids == ids[..|ids| - 1] + [ids[|ids| - 1]];
    }
  }

  /** Open a shard, unless this run did already. */
  method OpenIfNew(api: Api, g: Given, b: Batch, ghost rows: seq<Row>, id: ShardId, turn: seq<Reading>)
    returns (failed: Option<Failure>, c: Batch, longer: seq<Reading>, ghost seen: Live)
    requires Ready(g, api.stream, b, rows) && api.asked <= b.openings.Keys && Queue(api.stream, b, turn, [])
    requires Openable(g.at, b.positions, id) && NoneForgotten(g.at, b, turn, [])
    modifies api
    ensures Ready(g, seen, c, rows) && c.positions == b.positions && b.openings.Keys <= c.openings.Keys
    ensures failed.None? ==> seen == api.stream && api.asked <= c.openings.Keys && id in c.openings
    ensures failed.None? ==> Queue(seen, c, longer, []) && NoneForgotten(g.at, c, longer, [])
    ensures longer == turn || b.openings.Keys < c.openings.Keys
    ensures c.openings.Keys <= b.openings.Keys + {id}
    ensures Founded(g, b.openings.Keys, failed) && Blamed(api, failed)
  {
    failed, c, longer, seen := None, b, turn, api.stream;
    if id in b.openings { return; }
    failed, c, longer := OpenShard(api, g, b, rows, id, turn);
    if failed.None? { seen := api.stream; } else { longer := turn; }
  }

  lemma ReadyGrows(g: Given, s: Live, t: Live, b: Batch, rows: seq<Row>)
    requires Ready(g, s, b, rows) && Grows(s, t)
    ensures Ready(g, t, b, rows)
  {
    GrowsTransitive(g.at, s, t);
    OthersKeep(g, s, t, b, rows);
  }

  lemma OpenQueued(g: Given, s: Stream, t: Stream, b: Batch, rows: seq<Row>, id: ShardId, started: Started, turn: seq<Reading>)
    requires Lineage(g.at, b, rows) && Grows(s, t) && id !in b.openings && id in t.horizon && id in t.parents
    requires !Finished(g.at.listed, b.positions, id) && id in g.at.listed
    requires StartsWell(g, t, id, started) && Queue(s, b, turn, [])
    ensures Queue(t, b.(openings := b.openings[id := started.1]), turn + [Reading(id, started.0)], [])
  {
    var c := b.(openings := b.openings[id := started.1]);
    forall i | 0 <= i < |turn| ensures Waiting(t, c, turn[i]) {
      WaitingGrows(s, t, b, c, turn[i]);
    }
    assert Waiting(t, c, Reading(id, started.0));
  }

  lemma OpenReady(g: Given, s: Live, t: Live, b: Batch, rows: seq<Row>, id: ShardId, started: Started, turn: seq<Reading>)
    requires Ready(g, s, b, rows) && Grows(s, t) && id in t.horizon
    requires id !in b.openings && id in g.at.listed && !Finished(g.at.listed, b.positions, id)
    requires id in g.at.parents && forall p :: p in g.at.parents[id] ==> Finished(g.at.listed, b.positions, p)
    requires StartsWell(g, t, id, started) && Queue(s, b, turn, [])
    ensures var c := b.(openings := b.openings[id := started.1]);
      Ready(g, t, c, rows) && Queue(t, c, turn + [Reading(id, started.0)], [])
  {
    ReadyGrows(g, s, t, b, rows);
    OpenKeeps(g, t, b, rows, id, started.1);
    OpenQueued(g, s, t, b, rows, id, started, turn);
  }

  lemma ReadableMayOpen(g: Given, shards: seq<Shard>, positions: Positions, id: ShardId)
    requires Listing(g.at, shards) && id in Readable(shards, positions)
    ensures id in g.at.listed && id in g.at.parents && !Finished(g.at.listed, positions, id)
    ensures forall p :: p in g.at.parents[id] ==> Finished(g.at.listed, positions, p)
  {
    var i :| 0 <= i < |shards| && shards[i].id == id && MayOpen(shards[i], Ids(shards), positions);
  }

  lemma ReadyToOpen(g: Given, s: Live, b: Batch, rows: seq<Row>, id: ShardId)
    requires Ready(g, s, b, rows) && id !in b.openings && id in g.at.parents
    ensures id in s.parents && id in s.horizon && Get(b.positions, id) == Get(g.saved, id)
  {
    assert Reads(g, s, id, Get(b.openings, id), Get(b.positions, id), Of(rows, id));
  }

  /** What reading one shard may change of a batch: that shard's entries. */
  ghost predicate Touches(b: Batch, c: Batch, id: ShardId) {
    && c.openings.Keys == b.openings.Keys
    && forall other :: other != id ==>
         Get(c.openings, other) == Get(b.openings, other) && Get(c.positions, other) == Get(b.positions, other)
  }

  /** The same, as one equation. */
  ghost predicate SameBut(b: Batch, c: Batch, id: ShardId) {
    b.openings - {id} == c.openings - {id} && b.positions - {id} == c.positions - {id}
  }

  lemma TouchesOnly(b: Batch, c: Batch, id: ShardId)
    requires Touches(b, c, id)
    ensures SameBut(b, c, id)
  {
    forall other | other != id ensures (other in b.openings <==> other in c.openings) && (other in b.positions <==> other in c.positions) {
      assert Get(c.openings, other) == Get(b.openings, other) && Get(c.positions, other) == Get(b.positions, other);
    }
    forall other | other in (b.openings - {id}) ensures b.openings[other] == c.openings[other] {
      assert Get(c.openings, other) == Get(b.openings, other);
    }
    forall other | other in (b.positions - {id}) ensures b.positions[other] == c.positions[other] {
      assert Get(c.positions, other) == Get(b.positions, other);
    }
  }

  ghost predicate Unfinished(s: Stream, b: Batch, id: ShardId) {
    id in b.openings && id in s.parents && id in s.horizon && Get(b.positions, id) != Some(Done)
  }

  lemma ReadingPlace(g: Given, s: Stream, b: Batch, rows: seq<Row>, id: ShardId)
    requires RunInv(g, s, b, rows) && id in b.openings && id in s.horizon
    ensures s.horizon[id] <= b.openings[id].to <= |Log(s, id)|
  {
    assert Reads(g, s, id, Get(b.openings, id), Get(b.positions, id), Of(rows, id));
  }

  lemma WriteStep(g: Given, s: Stream, b: Batch, c: Batch, rows: seq<Row>, id: ShardId, record: Record)
    requires RunInv(g, s, c, rows) && Touches(b, c, id) && Unfinished(s, c, id)
    requires c.openings[id].to < |Log(s, id)| && record == Log(s, id)[c.openings[id].to]
    ensures var d := Wrote(c, id, record.sequence);
      && RunInv(g, s, d, rows + [Row(id, record)]) && Touches(b, d, id) && Unfinished(s, d, id)
      && d.openings[id].to == c.openings[id].to + 1
  {
    WriteKeeps(g, s, c, rows, id, record);
    WriteElsewhere(c, rows, id, record);
    KeysGrow(c.openings, id, Wrote(c, id, record.sequence).openings[id]);
  }

  /** Write the records of one answer, one row each. A row that cannot be made
      or written fails the run there. */
  method WriteRecords(g: Given, ghost s: Stream, b: Batch, rows: seq<Row>, id: ShardId, records: seq<Record>, takes: nat)
    returns (failed: bool, c: Batch, more: seq<Row>)
    requires RunInv(g, s, b, rows) && Unfinished(s, b, id)
    requires var from := b.openings[id].to; from + |records| <= |Log(s, id)| && records == Log(s, id)[from..from + |records|]
    ensures RunInv(g, s, c, more) && Touches(b, c, id) && Unfinished(s, c, id)
    ensures rows <= more && |more| <= |rows| + |records|
    ensures (failed <==> takes < |records|) && |more| == |rows| + Min(takes, |records|)
    ensures !failed ==> c.openings[id].to == b.openings[id].to + |records|
  {
    c, more, failed := b, rows, false;
    ghost var from := b.openings[id].to;
    for i := 0 to |records|
      invariant RunInv(g, s, c, more) && Touches(b, c, id) && Unfinished(s, c, id)
      invariant rows <= more && |more| == |rows| + i && i <= takes && c.openings[id].to == from + i
    {
      if i == takes { return true, c, more; }
      WriteStep(g, s, b, c, more, id, records[i]);
      more := more + [Row(id, records[i])];
      c := Wrote(c, id, records[i].sequence);
    }
  }

  /** What one answer means for its shard: its records are written, and then the
      shard is finished, caught up, or has a `next` place. */
  method TakeAnswer(g: Given, ghost s: Stream, b: Batch, rows: seq<Row>, place: ShardIterator, limit: nat, answer: Answer, takes: nat)
    returns (failed: bool, c: Batch, more: seq<Row>, next: Option<ShardIterator>)
    requires RunInv(g, s, b, rows) && Unfinished(s, b, place.shard) && place.index == b.openings[place.shard].to
    requires Answers(s, place, limit, answer) && limit > 0
    ensures RunInv(g, s, c, more) && Touches(b, c, place.shard)
    ensures rows <= more && |more| <= |rows| + limit
    ensures next.Some? ==> next.value == ShardIterator(place.shard, c.openings[place.shard].to) && Unfinished(s, c, place.shard)
    ensures !failed && next.Some? ==> |more| > |rows| || Stalls(answer)
    ensures !failed && next.None? ==> CaughtUp(s, c, place.shard)
    ensures failed <==> takes < |answer.records|
  {
    var id := place.shard;
    next := None;
    failed, c, more := WriteRecords(g, s, b, rows, id, answer.records, takes);
    if failed { return; }
    if answer.next.None? {
      CloseKeeps(g, s, c, more, id);
      c := Close(c, id, |more|);
    } else if answer.behind == Some(0) && |answer.records| < limit {
      // The answer was short and nothing is behind it: no further turn.
    } else {
      next := answer.next;
    }
  }

  /** The answer, how many of its rows the flow takes, and the run as of then. */
  method NextAnswer(api: Api, g: Given, ghost b: Batch, ghost rows: seq<Row>, place: ShardIterator, limit: nat)
    returns (got: Result<Answer, Refusal>, takes: nat)
    requires Ready(g, api.stream, b, rows) && Unfinished(api.stream, b, place.shard) && place.index == b.openings[place.shard].to
    modifies api`stream, api`idle, api`failing, api`blanks
    ensures Ready(g, api.stream, b, rows) && Unfinished(api.stream, b, place.shard)
    ensures Grows(old(api.stream), api.stream) && api.idle <= old(api.idle)
    ensures if got.Err? then api.failing else Answers(api.stream, place, limit, got.value) && (Stalls(got.value) ==> api.idle < old(api.idle))
    ensures got.Ok? && takes < |got.value.records| ==> api.failing
  {
    ReadingPlace(g, api.stream, b, rows, place.shard);
    got, takes := api.Read(place, limit);
    ReadyGrows(g, old(api.stream), api.stream, b, rows);
  }

  /** One GetRecords of one shard. `next` is its place for its next turn, if
      it gets one. */
  method ReadShard(api: Api, g: Given, b: Batch, rows: seq<Row>, place: ShardIterator)
    returns (failed: Option<Failure>, c: Batch, more: seq<Row>, next: Option<ShardIterator>, ghost seen: Live)
    requires Ready(g, api.stream, b, rows) && Unfinished(api.stream, b, place.shard)
    requires place.index == b.openings[place.shard].to && |rows| < g.settings.maxRecords
    modifies api`stream, api`idle, api`failing, api`blanks
    ensures Ready(g, seen, c, more) && Touches(b, c, place.shard)
    ensures rows <= more && |more| <= g.settings.maxRecords
    ensures failed.None? ==> seen == api.stream && Grows(old(api.stream), seen) && api.idle <= old(api.idle)
    ensures next.Some? ==> next.value == ShardIterator(place.shard, c.openings[place.shard].to) && Unfinished(seen, c, place.shard)
    ensures failed.None? && next.Some? ==> |more| > |rows| || api.idle < old(api.idle)
    ensures failed.None? && next.None? ==> CaughtUp(seen, c, place.shard)
    ensures failed.Some? ==> !failed.value.Expired? && api.failing
  {
    c, more, next, failed := b, rows, None, None;
    var limit := Min(g.settings.maxRecords - |rows|, 10_000);
    var got, takes := NextAnswer(api, g, b, rows, place, limit);
    seen := api.stream;
    if got.Err? {
      failed := Some(Refused(got.error));
    } else {
      var broken;
      broken, c, more, next := TakeAnswer(g, seen, b, rows, place, limit, got.value, takes);
      failed := if broken then Some(NotWritten) else None;
    }
  }

  /** The head of a queue had its turn; the others wait as before. */
  lemma QueueAfterTurn(s: Stream, t: Stream, b: Batch, c: Batch, still: seq<Reading>, rest: seq<Reading>, place: Option<ShardIterator>)
    requires rest != [] && Queue(s, b, still, rest) && Grows(s, t) && Touches(b, c, rest[0].id)
    ensures Queue(t, c, still, rest[1..])
    ensures Waiting(t, c, Reading(rest[0].id, place)) ==> Queue(t, c, still + [Reading(rest[0].id, place)], rest[1..])
  {
    forall i | 0 <= i < |still| ensures Waiting(t, c, still[i]) {
      WaitingGrows(s, t, b, c, still[i]);
    }
    forall i | 0 < i < |rest| ensures Waiting(t, c, rest[i]) {
      WaitingGrows(s, t, b, c, rest[i]);
    }
  }

  lemma GrowsReflexive(s: Live)
    ensures Grows(s, s)
  {
  }

  lemma HeadUnfinished(s: Stream, b: Batch, still: seq<Reading>, rest: seq<Reading>)
    requires Queue(s, b, still, rest) && rest != [] && s.horizon.Keys == s.parents.Keys
    ensures Unfinished(s, b, rest[0].id) && PlaceOk(s, rest[0].id, rest[0].place, b.openings[rest[0].id].to)
  {
    assert Waiting(s, b, rest[0]);
  }

  lemma FinishReady(g: Given, s: Live, b: Batch, rows: seq<Row>, still: seq<Reading>, rest: seq<Reading>)
    requires Ready(g, s, b, rows) && Queue(s, b, still, rest) && rest != [] && rest[0].place.None?
    ensures Ready(g, s, Close(b, rest[0].id, |rows|), rows)
  {
    HeadUnfinished(s, b, still, rest);
    CloseKeeps(g, s, b, rows, rest[0].id);
  }

  lemma FinishQueue(s: Live, b: Batch, still: seq<Reading>, rest: seq<Reading>, written: nat)
    requires Queue(s, b, still, rest) && rest != []
    ensures Queue(s, Close(b, rest[0].id, written), still, rest[1..])
  {
    GrowsReflexive(s);
    QueueAfterTurn(s, s, b, Close(b, rest[0].id, written), still, rest, None);
  }

  /** One shard's turn: finished if it has no place to read from, else one
      answer. It goes back in the queue if it has more. */
  method TakeTurn(api: Api, g: Given, b: Batch, rows: seq<Row>, still: seq<Reading>, rest: seq<Reading>)
    returns (failed: Option<Failure>, c: Batch, more: seq<Row>, again: seq<Reading>, ghost seen: Live)
    requires Ready(g, api.stream, b, rows) && rest != [] && Queue(api.stream, b, still, rest)
    requires |rows| < g.settings.maxRecords && NoneForgotten(g.at, b, still, rest)
    modifies api`stream, api`idle, api`failing, api`blanks
    ensures Ready(g, seen, c, more) && c.openings.Keys == b.openings.Keys && SameBut(b, c, rest[0].id)
    ensures rest[0].place.None? ==> failed.None? && more == rows && again == still && Get(c.positions, rest[0].id) == Some(Done)
    ensures rows <= more && |more| <= g.settings.maxRecords
    ensures failed.None? ==> seen == api.stream && api.idle <= old(api.idle) && Queue(seen, c, again, rest[1..])
    ensures failed.None? ==> again == still || |more| > |rows| || api.idle < old(api.idle)
    ensures failed.None? ==> NoneForgotten(g.at, c, again, rest[1..])
    ensures failed.Some? ==> !failed.value.Expired? && api.failing
  {
    if rest[0].place.None? {
      c := FinishTurn(api.stream, g, b, rows, still, rest);
      failed, more, again, seen := None, rows, still, api.stream;
    } else {
      failed, c, more, again, seen := ReadInTurn(api, g, b, rows, still, rest);
    }
  }

  /** A shard with no place to read from is finished. */
  method FinishTurn(ghost s: Live, g: Given, b: Batch, rows: seq<Row>, still: seq<Reading>, rest: seq<Reading>) returns (c: Batch)
    requires Ready(g, s, b, rows) && Queue(s, b, still, rest) && rest != [] && rest[0].place.None? && NoneForgotten(g.at, b, still, rest)
    ensures c == Close(b, rest[0].id, |rows|) && Ready(g, s, c, rows) && Queue(s, c, still, rest[1..])
    ensures NoneForgotten(g.at, c, still, rest[1..]) && SameBut(b, c, rest[0].id)
  {
    c := CloseHead(s, g, b, rows, still, rest);
    ClosedHead(g.at, b, still, rest, |rows|);
  }

  lemma ClosedHead(at: Stream, b: Batch, still: seq<Reading>, rest: seq<Reading>, written: nat)
    requires NoneForgotten(at, b, still, rest) && rest != []
    ensures NoneForgotten(at, Close(b, rest[0].id, written), still, rest[1..])
    ensures SameBut(b, Close(b, rest[0].id, written), rest[0].id)
  {
    var c := Close(b, rest[0].id, written);
    TurnForgetsNone(at, b, c, still, rest, None);
    TouchesOnly(b, c, rest[0].id);
  }

  method CloseHead(ghost s: Live, ghost g: Given, b: Batch, rows: seq<Row>, ghost still: seq<Reading>, rest: seq<Reading>) returns (c: Batch)
    requires Ready(g, s, b, rows) && Queue(s, b, still, rest) && rest != [] && rest[0].place.None?
    ensures c == Close(b, rest[0].id, |rows|) && Ready(g, s, c, rows) && Queue(s, c, still, rest[1..])
  {
    FinishReady(g, s, b, rows, still, rest);
    FinishQueue(s, b, still, rest, |rows|);
    c := Close(b, rest[0].id, |rows|);
  }

  lemma TurnEnds(g: Given, s: Live, b: Batch, c: Batch, still: seq<Reading>, rest: seq<Reading>, next: Option<ShardIterator>)
    requires rest != [] && Touches(b, c, rest[0].id) && Grows(g.at, s) && rest[0].id in b.openings && b.openings.Keys <= g.at.parents.Keys
    requires (next.Some? || CaughtUp(s, c, rest[0].id)) && NoneForgotten(g.at, b, still, rest)
    ensures NoneForgotten(g.at, c, if next.Some? then still + [Reading(rest[0].id, next)] else still, rest[1..])
  {
    LogGrows(g.at, s, rest[0].id);
    TurnForgetsNone(g.at, b, c, still, rest, next);
  }

  /** One answer for the head of the turn. */
  method ReadInTurn(api: Api, g: Given, b: Batch, rows: seq<Row>, still: seq<Reading>, rest: seq<Reading>)
    returns (failed: Option<Failure>, c: Batch, more: seq<Row>, again: seq<Reading>, ghost seen: Live)
    requires Ready(g, api.stream, b, rows) && rest != [] && Queue(api.stream, b, still, rest) && rest[0].place.Some?
    requires |rows| < g.settings.maxRecords && NoneForgotten(g.at, b, still, rest)
    modifies api`stream, api`idle, api`failing, api`blanks
    ensures Ready(g, seen, c, more) && c.openings.Keys == b.openings.Keys && SameBut(b, c, rest[0].id)
    ensures rows <= more && |more| <= g.settings.maxRecords
    ensures failed.None? ==> seen == api.stream && api.idle <= old(api.idle) && Queue(seen, c, again, rest[1..])
    ensures failed.None? ==> again == still || |more| > |rows| || api.idle < old(api.idle)
    ensures failed.None? ==> NoneForgotten(g.at, c, again, rest[1..])
    ensures failed.Some? ==> !failed.value.Expired? && api.failing
  {
    ghost var was: Live := api.stream;
    HeadUnfinished(was, b, still, rest);
    var next;
    failed, c, more, next, seen := ReadShard(api, g, b, rows, rest[0].place.value);
    TouchesOnly(b, c, rest[0].id);
    again := if next.Some? then still + [Reading(rest[0].id, next)] else still;
    if failed.None? {
      QueueAfterTurn(was, seen, b, c, still, rest, next);
      TurnEnds(g, seen, b, c, still, rest, next);
    }
  }

  /** A turn: an answer for each shard in it, in order, unless `capped`; `still`
      are those of the next turn. */
  method TakeTurns(api: Api, g: Given, b: Batch, rows: seq<Row>, turn: seq<Reading>)
    returns (failed: Option<Failure>, capped: bool, c: Batch, more: seq<Row>, still: seq<Reading>, ghost seen: Live)
    requires Ready(g, api.stream, b, rows) && Queue(api.stream, b, turn, []) && |rows| <= g.settings.maxRecords
    requires NoneForgotten(g.at, b, turn, [])
    modifies api`stream, api`idle, api`failing, api`blanks
    ensures Ready(g, seen, c, more) && c.openings.Keys == b.openings.Keys
    ensures |rows| <= |more| <= g.settings.maxRecords
    ensures failed.None? ==> seen == api.stream && api.idle <= old(api.idle)
    ensures failed.None? && !capped ==> Queue(seen, c, still, [])
    ensures failed.None? ==> still == [] || |more| > |rows| || api.idle < old(api.idle)
    ensures failed.Some? ==> !failed.value.Expired? && api.failing
    ensures failed.None? && capped ==> |more| == g.settings.maxRecords
    ensures failed.None? && !capped ==> NoneForgotten(g.at, c, still, [])
  {
    c, more, still, failed, capped, seen := b, rows, [], None, false, api.stream;
    ghost var keys := b.openings.Keys;
    var rest := turn;
    while rest != []
      invariant Ready(g, api.stream, c, more) && c.openings.Keys == keys && seen == api.stream
      invariant Queue(api.stream, c, still, rest) && |rows| <= |more| <= g.settings.maxRecords
      invariant failed.None? && !capped && api.idle <= old(api.idle)
      invariant still == [] || |more| > |rows| || api.idle < old(api.idle)
      invariant NoneForgotten(g.at, c, still, rest)
      decreases |rest|
    {
      if |more| >= g.settings.maxRecords {
        capped := true;
        return;
      }
      failed, c, more, still, seen := TakeTurn(api, g, c, more, still, rest);
      if failed.Some? { return; }
      rest := rest[1..];
    }
    failed := None;
  }

  /** Read the opened shards in turns until each is done with, or the cap. */
  method ReadTurns(api: Api, g: Given, b: Batch, rows: seq<Row>, ready: seq<Reading>)
    returns (failed: Option<Failure>, capped: bool, c: Batch, more: seq<Row>, ghost seen: Live)
    requires Ready(g, api.stream, b, rows) && Queue(api.stream, b, ready, []) && |rows| <= g.settings.maxRecords
    requires NoneForgotten(g.at, b, ready, [])
    modifies api`stream, api`idle, api`failing, api`blanks
    ensures Ready(g, seen, c, more) && c.openings.Keys == b.openings.Keys && |more| <= g.settings.maxRecords
    ensures failed.None? ==> seen == api.stream && unchanged(api`asked)
    ensures failed.Some? ==> !failed.value.Expired? && api.failing
    ensures failed.None? && capped ==> |more| == g.settings.maxRecords
    ensures failed.None? && !capped ==> NoneForgotten(g.at, c, [], [])
  {
    c, more, failed, capped, seen := b, rows, None, false, api.stream;
    ghost var keys := b.openings.Keys;
    var turn := ready;
    while turn != []
      invariant Ready(g, api.stream, c, more) && c.openings.Keys == keys && seen == api.stream
      invariant Queue(api.stream, c, turn, []) && |more| <= g.settings.maxRecords && !capped
      invariant NoneForgotten(g.at, c, turn, [])
      decreases g.settings.maxRecords - |more| + api.idle, |turn|
    {
      failed, capped, c, more, turn, seen := TakeTurns(api, g, c, more, turn);
      if failed.Some? || capped { return; }
    }
    failed := None;
  }

  /** What is saved for a shard: of one this run opened and read nothing of, how it
      was opened. */
  function Saves(g: Given, b: Batch, id: ShardId): Option<ShardPosition> {
    if id in b.positions || id !in b.openings then Get(b.positions, id)
    else match b.openings[id].how
         case FromNow => Some(Since(g.started))
         case FromStart => Some(Start)
         case Continuing => None
  }

  method Settle(g: Given, b: Batch) returns (positions: Positions)
    ensures forall id :: Get(positions, id) == Saves(g, b, id)
  {
    positions := b.positions;
    var left := b.openings.Keys;
    while left != {}
      invariant left <= b.openings.Keys
      invariant forall id :: id !in left ==> Get(positions, id) == Saves(g, b, id)
      invariant forall id :: id in left ==> Get(positions, id) == Get(b.positions, id)
      decreases |left|
    {
      var id :| id in left;
      match b.openings[id].how {
        case FromNow => if id !in positions { positions := positions[id := Since(g.started)]; }
        case FromStart => if id !in positions { positions := positions[id := Start]; }
        case Continuing =>
      }
      left := left - {id};
    }
  }

  /** What a run says it did, given what its record of itself says. */
  ghost predicate Reports(g: Given, b: Batch, rows: seq<Row>, summary: Summary) {
    && summary.records == |rows| && summary.checkpoint.stream == g.settings.stream
    && forall id :: Get(summary.checkpoint.shards, id) == Saves(g, b, id)
  }

  /** What a run starts from: the position saved for this stream, if there is
      one. An empty one, or one for another stream, makes a first run. */
  ghost predicate StartsFrom(g: Given, s: Live, settings: Settings, saved: Option<Position>) {
    && g.settings == settings && Grows(s, g.at) && g.started == s.clock
    && g.saved == (if saved.Some? && saved.value.stream == settings.stream then saved.value.shards else map[])
    && g.first == (saved.None? || g.saved == map[])
  }

  /** Open what became readable and read it. `ended` when nothing new opens, or
      the cap is reached. */
  method ReadRound(api: Api, g: Given, shards: seq<Shard>, b: Batch, rows: seq<Row>)
    returns (failed: Option<Failure>, ended: bool, c: Batch, more: seq<Row>, ghost seen: Live)
    requires Ready(g, api.stream, b, rows) && Listing(g.at, shards) && api.asked <= b.openings.Keys
    requires |rows| <= g.settings.maxRecords && NoneForgotten(g.at, b, [], [])
    modifies api
    ensures failed.None? && ended ==> |more| == g.settings.maxRecords || Complete(g.at, c)
    ensures failed.None? && !ended ==> NoneForgotten(g.at, c, [], [])
    ensures Ready(g, seen, c, more) && |more| <= g.settings.maxRecords
    ensures failed.None? ==> seen == api.stream
    ensures failed.None? && !ended ==> |b.openings.Keys| < |c.openings.Keys| <= |g.at.listed| && api.asked <= c.openings.Keys
    ensures failed.None? && !ended ==> b.openings.Keys <= c.openings.Keys && forall id :: id in Readable(shards, b.positions) ==> id in c.openings
    ensures Founded(g, b.openings.Keys, failed) && Blamed(api, failed) && (failed.Some? && failed.value.Expired? ==> more == rows)
  {
    more, ended := rows, true;
    var turn;
    failed, c, turn, seen := OpenTurn(api, g, shards, b, rows);
    if failed.Some? { return; }
    if turn == [] {
      NothingLeft(g.at, shards, c);
      return;
    }
    MoreOpenings(g, b, c, rows);
    failed, ended, c, more, seen := ReadTurns(api, g, c, rows, turn);
  }

  /** Rounds, each of which opens a shard not opened before, until one does not or
      the cap is reached. */
  method ReadRounds(api: Api, g: Given, shards: seq<Shard>, b: Batch)
    returns (failed: Option<Failure>, c: Batch, rows: seq<Row>, ghost seen: Live)
    requires Ready(g, api.stream, b, []) && Listing(g.at, shards) && api.asked <= b.openings.Keys
    requires b.openings == map[] && b.positions == g.saved
    modifies api
    ensures Ready(g, seen, c, rows) && |rows| <= g.settings.maxRecords
    ensures failed.None? ==> |rows| == g.settings.maxRecords || Complete(g.at, c)
    ensures failed.None? ==> seen == api.stream
    ensures Founded(g, b.openings.Keys, failed) && Blamed(api, failed)
    ensures ParentsDone(g) && failed.Some? && failed.value.Expired? ==> rows == []
  {
    c, rows, seen, failed := b, [], api.stream, None;
    var ended := false;
    ghost var begun := false;
    while !ended
      invariant Ready(g, seen, c, rows) && |rows| <= g.settings.maxRecords && seen == api.stream && failed.None?
      invariant !ended ==> api.asked <= c.openings.Keys && NoneForgotten(g.at, c, [], [])
      invariant ended ==> |rows| == g.settings.maxRecords || Complete(g.at, c)
      invariant if begun then ended || AllResumed(g, c) else c == b && rows == []
      decreases !ended, |g.at.listed| - |c.openings.Keys|
    {
      ghost var before := c;
      failed, ended, c, rows, seen := ReadRound(api, g, shards, c, rows);
      if failed.Some? {
        if begun && ParentsDone(g) { NoneExpiredLater(g, before, failed); }
        return;
      }
      if !begun && !ended { FirstResumes(g, shards, c); }
      begun := true;
    }
  }

  lemma MoreOpenings(g: Given, b: Batch, c: Batch, rows: seq<Row>)
    requires b.openings.Keys < c.openings.Keys && Lineage(g.at, c, rows)
    ensures |b.openings.Keys| < |c.openings.Keys| <= |g.at.listed|
  {
    SmallerSet(b.openings.Keys, c.openings.Keys);
    SmallerOrEqualSet(c.openings.Keys, g.at.listed);
  }

  /** One bounded run. Whatever happens, `b` and `rows` say what was read and
      written so far, as of the stream `seen`. */
  method ReadBatch(api: Api, settings: Settings, saved: Option<Position>)
    returns (r: Result<Summary, Failure>, g: Given, b: Batch, rows: seq<Row>, ghost seen: Live)
    requires api.asked == {}
    modifies api
    ensures StartsFrom(g, old(api.stream), settings, saved) && Ready(g, seen, b, rows)
    ensures |rows| <= settings.maxRecords
    ensures r.Ok? ==> Reports(g, b, rows, r.value) && seen == api.stream
    ensures r.Ok? ==> |rows| == settings.maxRecords || Complete(g.at, b)
    ensures r.Err? ==> Founded(g, {}, Some(r.error)) && Blamed(api, Some(r.error))
    ensures r.Err? && r.error.Expired? && ParentsDone(g) ==> rows == []
  {
    var started := api.stream.clock;
    var positions := if saved.Some? && saved.value.stream == settings.stream then saved.value.shards else map[];
    var first := saved.None? || |positions| == 0;
    var shards := api.ListShards();
    g := Given(settings, positions, first, started, api.stream);
    b, rows, seen := Begin(api.stream.listed, positions), [], api.stream;
    BeginHolds(g);
    GrowsReflexive(seen);
    if shards.Err? { return Err(Refused(shards.error)), g, b, rows, seen; }
    var failed;
    failed, b, rows, seen := ReadRounds(api, g, shards.value, b);
    if failed.Some? { return Err(failed.value), g, b, rows, seen; }
    var saves := Settle(g, b);
    r := Ok(Summary(Position(settings.stream, saves), |rows|));
  }
}
