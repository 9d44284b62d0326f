/** `src.stream.nats`: each run reads the messages a filter matches, from the
    saved sequence to the last one the stream had when the run started. */
module NatsSource {
  import opened Common

  // -------------------------------------------------------------------------
  // The stream
  // -------------------------------------------------------------------------

  /** `matching` are the sequences of the messages the filter matches, but for
      those deleted one by one. Limits only move `first`: what is below it
      matches, but is no longer held. `matched` are those of all that ever came. */
  datatype Stream = Stream(first: nat, last: nat, matched: set<nat>, matching: set<nat>)

  predicate ValidStream(s: Stream) {
    s.first <= s.last + 1 && s.matching <= s.matched && forall o :: o in s.matched ==> 1 <= o <= s.last
  }

  type Live = s: Stream | ValidStream(s) witness Stream(0, 0, {}, {})

  /** Time passes: messages arrive at the end, and are discarded from the start
      or deleted anywhere. */
  predicate Ages(s: Live, t: Live) {
    && s.first <= t.first && s.last <= t.last && s.matched <= t.matched
    && (forall o :: o in t.matched && o <= s.last ==> o in s.matched)
    && forall o :: o in t.matching && o <= s.last ==> o in s.matching
  }

  predicate Becomes(s: Live, t: Stream) {
    ValidStream(t) && Ages(s, t)
  }

  /** Each of these may happen: a message the filter matches comes, another comes,
      messages are discarded, even all of them, and messages are deleted. */
  lemma TimePasses(s: Live, first: nat, gone: set<nat>)
    requires s.first <= first <= s.last + 1
    ensures Becomes(s, s.(last := s.last + 1, matched := s.matched + {s.last + 1}, matching := s.matching + {s.last + 1}))
    ensures Becomes(s, s.(last := s.last + 1))
    ensures Becomes(s, s.(first := first))
    ensures Becomes(s, s.(matching := s.matching - gone))
  {
  }

  datatype Message = Message(sequence: nat, remaining: nat)

  method Guess() returns (s: Stream) {
    s := *;
  }

  /** The server, the consumer a run makes, and the writer of its rows. What limits
      discard while a consumer reads counts as deleted: it goes past it without a
      word. */
  class Server {
    var stream: Live
    ghost var faults: nat   // calls that failed, and rows that could not be written

    constructor (stream: Live)
      ensures this.stream == stream && faults == 0
    {
      this.stream := stream;
      faults := 0;
    }

    method Others()
      modifies this`stream
      ensures Ages(old(stream), stream)
    {
      var later := Guess();
      if ValidStream(later) && Ages(stream, later) { stream := later; }
    }

    /** How many messages a consumer from `from` has to come. */
    method Pending(from: nat) returns (r: Option<nat>)
      modifies this
      ensures Ages(old(stream), stream) && faults == old(faults) + (if r.Some? then 0 else 1)
      ensures r.Some? ==> (r.value == 0 <==> forall o :: o in stream.matching ==> o < from)
    {
      Others();
      var pending: nat := *;
      var none := forall o :: o in stream.matching ==> o < from;
      r := if (pending == 0) == none then Some(pending) else None;
      if r.None? { faults := faults + 1; }
    }

    /** A row to the flow. */
    method Write(sequence: nat) returns (ok: bool)
      modifies this`faults
      ensures faults == old(faults) + (if ok then 0 else 1)
    {
      ok := *;
      if !ok { faults := faults + 1; }
    }

    /** The next message the consumer is sent, with how many come after it. */
    method Next(cursor: nat) returns (r: Option<Message>)
      modifies this
      ensures Ages(old(stream), stream) && faults == old(faults) + (if r.Some? then 0 else 1)
      ensures r.Some? ==> r.value.sequence >= cursor && r.value.sequence in stream.matching
      ensures r.Some? ==> forall o :: o in stream.matching && o >= cursor ==> o >= r.value.sequence
      ensures r.Some? ==> (r.value.remaining == 0 <==> forall o :: o in stream.matching ==> o <= r.value.sequence)
    {
      Others();
      var message: Message := *;
      var least := forall o :: o in stream.matching && o >= cursor ==> o >= message.sequence;
      var final := forall o :: o in stream.matching ==> o <= message.sequence;
      r := if message.sequence >= cursor && message.sequence in stream.matching && least && (message.remaining == 0) == final
        then Some(message) else None;
      if r.None? { faults := faults + 1; }
    }
  }

  // -------------------------------------------------------------------------
  // Where a run starts
  // -------------------------------------------------------------------------

  datatype Position = Position(stream: string, filter: string, next: nat)

  datatype Settings = Settings(stream: string, filter: string, latest: bool, max: nat)

  datatype Gap = Discarded(from: nat, to: nat) | PastEnd(next: nat, last: nat)

  /** The saved sequence, if it was saved for this stream and filter. */
  function Saved(settings: Settings, saved: Option<Position>): Option<nat> {
    if saved.Some? && saved.value.stream == settings.stream && saved.value.filter == settings.filter then Some(saved.value.next)
    else None
  }

  /** The position is this node's: one for another stream, or another filter,
      counts as none. */
  predicate Owns(settings: Settings, saved: Option<Position>) {
    saved.Some? && saved.value.stream == settings.stream && saved.value.filter == settings.filter
  }

  function PlanStart(settings: Settings, first: nat, last: nat, saved: Option<Position>): Result<nat, Gap> {
    var oldest := Max(first, 1);
    match Saved(settings, saved)
    case Some(next) =>
      if next < oldest then Err(Discarded(next, oldest))
      else if next > last + 1 then Err(PastEnd(next, last))
      else Ok(next)
    case None => Ok(if settings.latest then last + 1 else oldest)
  }

  // -------------------------------------------------------------------------
  // One run
  // -------------------------------------------------------------------------

  lemma CoversMessage(s: Live, t: Live, written: seq<nat>, from: nat, cursor: nat, sequence: nat)
    requires Covers(s.matched, s.matching, written, from, cursor) && Ages(s, t) && cursor <= s.last + 1 && cursor <= sequence
    requires sequence in t.matching && forall o :: o in t.matching && o >= cursor ==> o >= sequence
    ensures Covers(t.matched, t.matching, written + [sequence], from, sequence + 1)
  {
  }

  lemma CoversRest(s: Live, t: Live, written: seq<nat>, from: nat, cursor: nat, to: nat)
    requires Covers(s.matched, s.matching, written, from, cursor) && Ages(s, t) && cursor <= s.last + 1 && cursor <= to
    requires forall o :: o in t.matching && o >= cursor ==> o >= to
    ensures Covers(t.matched, t.matching, written, from, to)
  {
  }

  /** The messages up to `last`, until `max` are written or none is left. */
  method ReadMessages(server: Server, from: nat, last: nat, max: nat)
    returns (failed: bool, next: nat, rows: seq<nat>)
    requires from <= last <= server.stream.last && max > 0
    modifies server
    ensures Ages(old(server.stream), server.stream) && |rows| <= max
    ensures from <= next <= last + 1 && Covers(server.stream.matched, server.stream.matching, rows, from, next)
    ensures !failed && |rows| < max ==> next == last + 1
    ensures server.faults == old(server.faults) + (if failed then 1 else 0)
  {
    var left: nat := 0;
    var read: nat := 0;
    failed, next, rows := false, from, [];
    while read < max
      invariant Ages(old(server.stream), server.stream) && |rows| == read <= max && from <= next <= last + 1
      invariant Covers(server.stream.matched, server.stream.matching, rows, from, next) && !failed
      invariant read > 0 ==> left > 0
      invariant server.faults == old(server.faults)
    {
      ghost var was := server.stream;
      var message := server.Next(next);
      if message.None? {
        CoversRest(was, server.stream, rows, from, next, next);
        return true, next, rows;
      }
      var sequence, remaining := message.value.sequence, message.value.remaining;
      if sequence > last {
        // Past the recorded end.
        CoversRest(was, server.stream, rows, from, next, last + 1);
        break;
      }
      var ok := server.Write(sequence);
      if !ok {
        CoversRest(was, server.stream, rows, from, next, next);
        return true, next, rows;
      }
      CoversMessage(was, server.stream, rows, from, next, sequence);
      rows, read, next, left := rows + [sequence], read + 1, sequence + 1, remaining;
      if remaining == 0 {
        CoversRest(server.stream, server.stream, rows, from, next, last + 1);
        break;
      }
    }
    if read < max || left == 0 { next := Max(next, last + 1); }
  }

  /** One bounded run; `rows` are what was written, whatever happens. */
  method ReadBatch(server: Server, settings: Settings, saved: Option<Position>)
    returns (r: Result<Position, Option<Gap>>, from: nat, rows: seq<nat>)
    requires settings.max > 0
    modifies server
    ensures Ages(old(server.stream), server.stream) && |rows| <= settings.max
    ensures Increasing(rows) && forall i :: 0 <= i < |rows| ==> from <= rows[i] <= old(server.stream).last && rows[i] in server.stream.matched
    ensures r.Ok? ==> RunOf(settings, old(server.stream), saved, server.stream, from, r.value, rows)
    ensures r.Ok? && |rows| < settings.max ==> r.value.next == old(server.stream).last + 1
    ensures r == Err(None) <==> server.faults > old(server.faults)
    ensures r.Err? && r.error.Some? <==> PlanStart(settings, old(server.stream).first, old(server.stream).last, saved).Err?
    ensures r.Err? && r.error.Some? ==> rows == []
    ensures Owns(settings, saved) && saved.value.next < Max(old(server.stream).first, 1) ==>
      r == Err(Some(Discarded(saved.value.next, Max(old(server.stream).first, 1)))) && rows == []
    ensures Owns(settings, saved) && saved.value.next > old(server.stream).last + 1 ==>
      r == Err(Some(PastEnd(saved.value.next, old(server.stream).last))) && rows == []
  {
    from, rows := 0, [];
    var first, last := server.stream.first, server.stream.last;
    var planned := PlanStart(settings, first, last, saved);
    if planned.Err? { return Err(Some(planned.error)), from, rows; }
    from := planned.value;
    var next := from;
    if from <= last {
      var failed;
      ghost var was := server.stream;
      var pending := server.Pending(from);
      if pending.None? { return Err(None), from, rows; }
      if pending.value > 0 {
        failed, next, rows := ReadMessages(server, from, last, settings.max);
        if failed { return Err(None), from, rows; }
      } else {
        CoversRest(was, server.stream, [], from, from, last + 1);
        next := Max(next, last + 1);
      }
    }
    r := Ok(Position(settings.stream, settings.filter, next));
  }

  /** A run that succeeded, of the stream as it was `listed`: every message that
      matched in `[from, position.next)` was written, once and in order. */
  ghost predicate RunOf(settings: Settings, listed: Live, saved: Option<Position>, now: Live, from: nat, position: Position, rows: seq<nat>) {
    && PlanStart(settings, listed.first, listed.last, saved) == Ok(from)
    && Saved(settings, Some(position)) == Some(position.next)
    && position.next <= listed.last + 1
    && Covers(now.matched, now.matching, rows, from, position.next)
  }

  // -------------------------------------------------------------------------
  // Every run of a node
  // -------------------------------------------------------------------------

  /** `rows` are those of the successful runs, one after another, and `first` is
      where the first of them started. */
  datatype History = History(stream: Live, saved: Option<Position>, first: nat, rows: seq<nat>)

  ghost predicate Passes(h: History, k: History) {
    Ages(h.stream, k.stream) && k == h.(stream := k.stream)
  }

  ghost predicate Succeeds(settings: Settings, h: History, k: History, listed: Live, from: nat, rows: seq<nat>) {
    && Ages(h.stream, listed) && Ages(listed, k.stream)
    && k.saved.Some? && RunOf(settings, listed, h.saved, k.stream, from, k.saved.value, rows)
    && k.rows == h.rows + rows && k.first == if Saved(settings, h.saved).None? then from else h.first
  }

  /** Each run may start where its own settings say, and have its own cap. */
  ghost predicate Step(settings: Settings, h: History, k: History) {
    Passes(h, k) || exists latest, t: Live, from: nat, rows :: Succeeds(settings.(latest := latest), h, k, t, from, rows)
  }

  ghost predicate Tiled(settings: Settings, h: History) {
    match Saved(settings, h.saved)
    case None => h.rows == []
    case Some(next) => next <= h.stream.last + 1 && Covers(h.stream.matched, h.stream.matching, h.rows, h.first, next)
  }

  /** A position saved for another stream or filter may be there at first. */
  ghost predicate Life(settings: Settings, life: seq<History>) {
    && |life| > 0 && Saved(settings, life[0].saved) == None && life[0].rows == []
    && forall i :: 0 < i < |life| ==> Step(settings, life[i - 1], life[i])
  }

  lemma StepKeeps(settings: Settings, h: History, k: History)
    requires Tiled(settings, h) && Step(settings, h, k)
    ensures Tiled(settings, k)
  {
    if !Passes(h, k) {
      var latest, t: Live, from: nat, rows: seq<nat> :| Succeeds(settings.(latest := latest), h, k, t, from, rows);
      SuccessKeeps(settings, latest, h, k, t, from, rows);
    }
  }

  lemma SuccessKeeps(settings: Settings, latest: bool, h: History, k: History, t: Live, from: nat, rows: seq<nat>)
    requires Tiled(settings, h) && Succeeds(settings.(latest := latest), h, k, t, from, rows)
    ensures Tiled(settings, k)
  {
    match Saved(settings, h.saved) {
      case None => assert h.rows + rows == rows;
      case Some(next) =>
        CoversRest(h.stream, k.stream, h.rows, h.first, next, next);
        CoversJoin(k.stream.matched, k.stream.matching, h.rows, rows, h.first, next, k.saved.value.next);
    }
  }

  /** Over any life of a node every matching message from the first run's start
      to the saved sequence is written by a successful run, exactly once and in
      order, unless it was deleted before a run read past it. */
  lemma {:induction false} RunsTile(settings: Settings, life: seq<History>, i: nat)
    requires Life(settings, life) && i < |life|
    ensures Tiled(settings, life[i])
  {
    if i > 0 {
      RunsTile(settings, life, i - 1);
      StepKeeps(settings, life[i - 1], life[i]);
    }
  }

  /** Where a successful run begins to read: at its own position, if it has one.
      Without, with `latest` behind the stream's end when it started, so that it
      writes nothing; or else at the oldest message held, so that nothing still
      held lies before. */
  lemma FirstFrom(settings: Settings, h: History, k: History, listed: Live, from: nat, rows: seq<nat>)
    requires Succeeds(settings, h, k, listed, from, rows)
    ensures Owns(settings, h.saved) ==> from == h.saved.value.next && k.first == h.first
    ensures !Owns(settings, h.saved) ==> k.first == from
    ensures !Owns(settings, h.saved) && settings.latest ==> from == listed.last + 1 && rows == []
    ensures !Owns(settings, h.saved) && !settings.latest ==>
      from == Max(listed.first, 1) && forall o :: o in listed.matching && o >= listed.first ==> o >= from
    ensures Owns(settings, k.saved)
  {
    NothingCovered(k.stream, rows, from, k.saved.value.next);
  }

  lemma NothingCovered(s: Live, written: seq<nat>, from: nat, to: nat)
    requires Covers(s.matched, s.matching, written, from, to)
    ensures to <= from ==> written == []
  {
    assert written != [] ==> from <= written[0] < to;
  }

  /** A message the next run would have read is no longer held. */
  ghost predicate Lost(s: Stream, next: nat) {
    exists o :: o in s.matching && next <= o < s.first
  }

  /** On a stream that is never made again no run finds its position past the
      end. It fails to start whenever a message it would have read was discarded,
      and otherwise exactly when only others were. */
  lemma NeverPastEnd(settings: Settings, life: seq<History>, i: nat, listed: Live)
    requires Life(settings, life) && i < |life| && Ages(life[i].stream, listed)
    ensures var planned, saved := PlanStart(settings, listed.first, listed.last, life[i].saved), Saved(settings, life[i].saved);
      && !(planned.Err? && planned.error.PastEnd?)
      && (planned.Err? ==> saved.Some?)
      && (saved.Some? ==>
            && (Lost(listed, saved.value) ==> planned.Err?)
            && (planned.Err? && !Lost(listed, saved.value) <==>
                  saved.value < Max(listed.first, 1) && forall o :: o in listed.matching ==> !(saved.value <= o < listed.first)))
  {
    RunsTile(settings, life, i);
  }

  /** So a run can fail to start though it lost nothing: here no message ever
      matched the filter, and others were discarded past the saved sequence. */
  lemma NothingLost(settings: Settings) returns (life: seq<History>)
    requires !settings.latest
    ensures Life(settings, life) && |life| == 3 && forall i :: 0 <= i < |life| ==> life[i].stream.matched == {}
    ensures var h := life[2]; PlanStart(settings, h.stream.first, h.stream.last, h.saved) == Err(Discarded(5, 10))
  {
    var s, t := Stream(1, 4, {}, {}), Stream(10, 12, {}, {});
    var position := Some(Position(settings.stream, settings.filter, 5));
    var h, k, l := History(s, None, 0, []), History(s, position, 1, []), History(t, position, 1, []);
    assert RunOf(settings, s, None, s, 1, position.value, []);
    assert Succeeds(settings.(latest := settings.latest), h, k, s, 1, []);
    assert Passes(k, l);
    life := [h, k, l];
  }

  /** One run of a node. If it fails, its rows and its position are dropped. */
  method RunNode(server: Server, settings: Settings, h: History) returns (k: History, ok: bool)
    requires server.stream == h.stream && settings.max > 0
    modifies server
    ensures Step(settings, h, k) && k.stream == server.stream
    ensures ok ==> exists from, rows :: Succeeds(settings, h, k, h.stream, from, rows)
    ensures !ok ==> k == h.(stream := server.stream)
    ensures !ok ==> server.faults > old(server.faults) || PlanStart(settings, h.stream.first, h.stream.last, h.saved).Err?
    ensures Saved(settings, h.saved).Some? && Saved(settings, h.saved).value < Max(h.stream.first, 1) ==> !ok
  {
    var r, from, rows := ReadBatch(server, settings, h.saved);
    ok := r.Ok?;
    if ok {
      k := History(server.stream, Some(r.value), if Saved(settings, h.saved).None? then from else h.first, h.rows + rows);
      assert Succeeds(settings.(latest := settings.latest), h, k, h.stream, from, rows);
      assert Succeeds(settings, h, k, h.stream, from, rows);
    } else {
      k := h.(stream := server.stream);
      assert Passes(h, k);
    }
  }
}
