/** A Kinesis node over its whole life: puts, splits, merges, expiry, failed runs
    whose position is dropped, and successful runs whose position is kept. */
module KinesisHistory {
  import opened Common
  import opened KinesisStream
  import opened KinesisSource
  import opened KinesisOrder

  /** `rows` are those of the successful runs, one after another. `skipped` says,
      of the shards that a `latest` first run opened, how many of their oldest
      records it left unread. */
  datatype History = History(stream: Live, saved: Option<Position>, rows: seq<Row>, skipped: map<ShardId, nat>)

  function Saved(h: History): Positions {
    if h.saved.Some? then h.saved.value.shards else map[]
  }

  function Skipped(h: History, id: ShardId): nat {
    if id in h.skipped then h.skipped[id] else 0
  }

  // -------------------------------------------------------------------------
  // What can happen
  // -------------------------------------------------------------------------

  ghost predicate Initial(h: History) {
    h.saved == None && h.rows == [] && h.skipped == map[]
  }

  /** Others use the stream, perhaps while a run that fails reads it. */
  ghost predicate Passes(h: History, k: History) {
    Grows(h.stream, k.stream) && k == h.(stream := k.stream)
  }

  /** Some of a shard's oldest records expire. */
  ghost predicate Expires(h: History, k: History, id: ShardId, oldest: nat) {
    var s: Stream := h.stream;
    && id in s.parents && s.horizon[id] <= oldest <= |Log(s, id)|
    && k == h.(stream := k.stream) && k.stream == s.(horizon := s.horizon[id := oldest])
  }

  /** A closed shard with nothing left is no longer listed, after its parents. */
  ghost predicate Delists(h: History, k: History, id: ShardId) {
    var s: Stream := h.stream;
    && id in s.parents && id in s.closed && s.horizon[id] == |Log(s, id)|
    && (forall p :: p in s.parents[id] ==> p !in s.listed)
    && k == h.(stream := k.stream) && k.stream == s.(listed := s.listed - {id})
  }

  /** How many of a shard's records arrived before `time`. */
  function Earlier(log: seq<Record>, time: int): (n: nat)
    ensures n <= |log|
  {
    if log == [] || log[|log| - 1].arrival < time then |log| else Earlier(log[..|log| - 1], time)
  }

  /** What a `latest` first run leaves unread of the shards it opened: what came
      before it opened them, or before it started if it is to start over. */
  function Skips(g: Given, s: Stream, b: Batch): map<ShardId, nat> {
    map id | id in b.openings && b.openings[id].how == FromNow ::
      if Saves(g, b, id) == Some(Since(g.started)) then Earlier(Log(s, id), g.started) else b.openings[id].from
  }

  /** A run that succeeds. */
  ghost predicate Succeeds(settings: Settings, h: History, k: History, g: Given, b: Batch, rows: seq<Row>, summary: Summary) {
    && StartsFrom(g, h.stream, settings, h.saved) && Ready(g, k.stream, b, rows) && Reports(g, b, rows, summary)
    && k.saved == Some(summary.checkpoint) && k.rows == h.rows + rows && Grows(h.stream, k.stream)
    && k.skipped == h.skipped + Skips(g, k.stream, b)
  }

  ghost predicate Step(settings: Settings, h: History, k: History) {
    || Passes(h, k)
    || (exists id, oldest :: Expires(h, k, id, oldest))
    || (exists id :: Delists(h, k, id))
    || (exists g, b, rows, summary :: Succeeds(settings, h, k, g, b, rows, summary))
  }

  // -------------------------------------------------------------------------
  // Stretches of a shard's records
  // -------------------------------------------------------------------------

  datatype Stretch = Stretch(from: nat, to: nat)

  ghost predicate Within(log: seq<Record>, cuts: seq<Stretch>) {
    forall c :: 0 <= c < |cuts| ==> cuts[c].from <= cuts[c].to <= |log|
  }

  /** The records of those stretches, one stretch after another. */
  ghost function Pieces(log: seq<Record>, cuts: seq<Stretch>): seq<Record>
    requires Within(log, cuts)
  {
    if cuts == [] then []
    else
      var last := cuts[|cuts| - 1];
      Pieces(log, cuts[..|cuts| - 1]) + log[last.from..last.to]
  }

  lemma {:induction false} PiecesGrow(log: seq<Record>, more: seq<Record>, cuts: seq<Stretch>)
    requires Within(log, cuts) && log <= more
    ensures Within(more, cuts) && Pieces(more, cuts) == Pieces(log, cuts)
  {
    if cuts != [] { PiecesGrow(log, more, cuts[..|cuts| - 1]); }
  }

  lemma {:induction false} PiecesAdd(log: seq<Record>, cuts: seq<Stretch>, from: nat, to: nat)
    requires Within(log, cuts) && from <= to <= |log|
    ensures Within(log, cuts + [Stretch(from, to)])
    ensures Pieces(log, cuts + [Stretch(from, to)]) == Pieces(log, cuts) + log[from..to]
  {
    var longer := cuts + [Stretch(from, to)];
    assert longer[..|longer| - 1] == cuts;
  }

  /** The last stretch goes on. */
  lemma PiecesExtend(log: seq<Record>, cuts: seq<Stretch>, to: nat)
    requires Within(log, cuts) && cuts != [] && cuts[|cuts| - 1].to <= to <= |log|
    ensures var last := cuts[|cuts| - 1]; var longer := cuts[..|cuts| - 1] + [Stretch(last.from, to)];
      Within(log, longer) && Pieces(log, longer) == Pieces(log, cuts) + log[last.to..to]
  {
    var last := cuts[|cuts| - 1];
    PiecesAdd(log, cuts[..|cuts| - 1], last.from, to);
    assert log[last.from..last.to] + log[last.to..to] == log[last.from..to];
  }

  /** Each record of the stretches is one of the shard's. */
  lemma {:induction false} PiecesMember(log: seq<Record>, cuts: seq<Stretch>, a: nat) returns (c: nat, at: nat)
    requires Within(log, cuts) && a < |Pieces(log, cuts)|
    ensures c < |cuts| && cuts[c].from <= at < cuts[c].to && log[at] == Pieces(log, cuts)[a]
  {
    var init, last := cuts[..|cuts| - 1], cuts[|cuts| - 1];
    if a < |Pieces(log, init)| {
      c, at := PiecesMember(log, init, a);
    } else {
      c, at := |cuts| - 1, last.from + (a - |Pieces(log, init)|);
    }
  }

  lemma {:induction false} PiecesHold(log: seq<Record>, cuts: seq<Stretch>, c: nat, at: nat)
    requires Within(log, cuts) && c < |cuts| && cuts[c].from <= at < cuts[c].to
    ensures log[at] in Pieces(log, cuts)
  {
    var init, last := cuts[..|cuts| - 1], cuts[|cuts| - 1];
    if c < |init| {
      PiecesHold(log, init, c, at);
    } else {
      assert log[last.from..last.to][at - last.from] == log[at];
    }
  }

  // -------------------------------------------------------------------------
  // What each shard's rows are
  // -------------------------------------------------------------------------

  /** One shard as a stream holds it: its records, how many of the oldest expired,
      and whether there will be no more. */
  datatype View = View(log: seq<Record>, oldest: nat, closed: bool, clock: int)

  function ViewOf(s: Stream, id: ShardId): View
    requires id in s.horizon
  {
    View(Log(s, id), s.horizon[id], id in s.closed, s.clock)
  }

  /** What a shard's position says of the stretches its rows are. */
  ghost predicate StandsAt(v: View, now: Option<ShardPosition>, skip: nat, cuts: seq<Stretch>) {
    match now
    case None => cuts == []
    case Some(Start) => cuts == []
    case Some(Since(millis)) => cuts == [] && millis <= v.clock && forall i :: skip <= i < |v.log| ==> v.log[i].arrival >= millis
    case Some(After(sequence)) => cuts != [] && EndsAt(v.log, cuts[|cuts| - 1], sequence)
    case Some(Done) => cuts != [] && v.closed && cuts[|cuts| - 1].to == |v.log|
  }

  ghost predicate EndsAt(log: seq<Record>, last: Stretch, sequence: nat) {
    last.from < last.to <= |log| && log[last.to - 1].sequence == sequence
  }

  /** A shard's rows are stretches of its records, and its position is where the
      last one ends. What lies before the first expired or was skipped, what lies
      before another expired; there is another only if the node goes on `again`
      when it finds its last record gone. */
  ghost predicate Cut(v: View, now: Option<ShardPosition>, written: seq<Record>, skip: nat, again: bool, cuts: seq<Stretch>) {
    && Within(v.log, cuts) && written == Pieces(v.log, cuts)
    && (cuts != [] ==> cuts[0].from <= Max(v.oldest, skip))
    && (forall c :: 1 <= c < |cuts| ==> cuts[c].from <= v.oldest)
    && (forall c :: 0 <= c < |cuts| - 1 ==> cuts[c].from < cuts[c].to)
    && (|cuts| <= 1 || again)
    && StandsAt(v, now, skip, cuts)
  }

  ghost predicate Tiled(v: View, now: Option<ShardPosition>, written: seq<Record>, skip: nat, again: bool) {
    exists cuts: seq<Stretch> :: Cut(v, now, written, skip, again, cuts)
  }

  ghost predicate TiledOne(settings: Settings, h: History, id: ShardId)
    requires id in h.stream.horizon
  {
    Tiled(ViewOf(h.stream, id), Get(Saved(h), id), Of(h.rows, id), Skipped(h, id), settings.continueOnExpiry)
  }

  ghost predicate TiledAll(settings: Settings, h: History) {
    && (forall id :: id in h.stream.horizon ==> TiledOne(settings, h, id))
    && (forall id :: id in Saved(h) ==> id in h.stream.horizon)
    && (forall k :: 0 <= k < |h.rows| ==> h.rows[k].shard in h.stream.horizon)
  }

  /** Records put and records expired leave the stretches what they are. */
  lemma TiledGrows(v: View, w: View, now: Option<ShardPosition>, written: seq<Record>, skip: nat, again: bool)
    requires Tiled(v, now, written, skip, again)
    requires v.log <= w.log && v.oldest <= w.oldest && v.clock <= w.clock && (v.closed ==> w.closed && w.log == v.log)
    requires forall i :: |v.log| <= i < |w.log| ==> w.log[i].arrival >= v.clock
    ensures Tiled(w, now, written, skip, again)
  {
    var cuts: seq<Stretch> :| Cut(v, now, written, skip, again, cuts);
    PiecesGrow(v.log, w.log, cuts);
    assert Cut(w, now, written, skip, again, cuts);
  }

  lemma ViewGrows(s: Stream, t: Stream, id: ShardId)
    requires Grows(s, t) && id in s.parents && id in s.horizon && id in t.horizon
    ensures var v, w := ViewOf(s, id), ViewOf(t, id);
      && v.log <= w.log && v.oldest <= w.oldest && v.clock <= w.clock && (v.closed ==> w.closed && w.log == v.log)
      && forall i :: |v.log| <= i < |w.log| ==> w.log[i].arrival >= v.clock
  {
    LogGrows(s, t, id);
  }

  ghost predicate InLine(log: seq<Record>) {
    forall i, j :: 0 <= i < j < |log| ==> log[i].sequence < log[j].sequence && log[i].arrival <= log[j].arrival
  }

  lemma LogInLine(s: Live, id: ShardId)
    ensures InLine(Log(s, id))
  {
    LogOrdered(s.puts, id);
  }

  /** What a run saves for a shard it opened and that stands at `now`. */
  function SavesFor(g: Given, o: Opening, now: Option<ShardPosition>): Option<ShardPosition> {
    if now.Some? then now
    else match o.how
         case FromNow => Some(Since(g.started))
         case FromStart => Some(Start)
         case Continuing => None
  }

  /** Where reading began and got to, as a run found the shard `v`. */
  ghost predicate ReadTo(v: View, o: Opening, now: Option<ShardPosition>, before: Option<ShardPosition>, written: seq<Record>) {
    && o.from <= o.to <= |v.log| && written == v.log[o.from..o.to]
    && if now == Some(Done) then v.closed && o.to == |v.log|
       else if o.from < o.to then now == Some(After(v.log[o.to - 1].sequence))
       else now == before
  }

  /** A resumed shard's rows go on where they ended. */
  lemma ResumeTiles(v: View, o: Opening, now: Option<ShardPosition>, sequence: nat, had: seq<Record>, written: seq<Record>, skip: nat, again: bool)
    requires Tiled(v, Some(After(sequence)), had, skip, again) && InLine(v.log)
    requires ReadTo(v, o, now, Some(After(sequence)), written)
    requires 0 < o.from && v.log[o.from - 1].sequence == sequence
    ensures Tiled(v, now, had + written, skip, again)
  {
    var cuts: seq<Stretch> :| Cut(v, Some(After(sequence)), had, skip, again, cuts);
    var last := cuts[|cuts| - 1];
    assert last.to == o.from;
    PiecesExtend(v.log, cuts, o.to);
    var longer := cuts[..|cuts| - 1] + [Stretch(last.from, o.to)];
    assert Cut(v, now, had + written, skip, again, longer);
  }

  /** A shard whose last record was found gone goes on in another stretch. */
  lemma RestartTiles(v: View, o: Opening, now: Option<ShardPosition>, sequence: nat, had: seq<Record>, written: seq<Record>, skip: nat)
    requires Tiled(v, Some(After(sequence)), had, skip, true)
    requires ReadTo(v, o, now, Some(After(sequence)), written) && o.from == v.oldest
    ensures Tiled(v, now, had + written, skip, true)
  {
    var cuts: seq<Stretch> :| Cut(v, Some(After(sequence)), had, skip, true, cuts);
    if o.from < o.to || now == Some(Done) {
      PiecesAdd(v.log, cuts, o.from, o.to);
      assert Cut(v, now, had + written, skip, true, cuts + [Stretch(o.from, o.to)]);
    } else {
      assert had + written == had;
      assert Cut(v, now, had + written, skip, true, cuts);
    }
  }

  /** A shard's first stretch. */
  lemma StartTiles(v: View, o: Opening, now: Option<ShardPosition>, before: Option<ShardPosition>, written: seq<Record>, skip: nat, again: bool)
    requires ReadTo(v, o, now, before, written) && (o.from < o.to || now == Some(Done)) && o.from <= Max(v.oldest, skip)
    ensures Tiled(v, now, written, skip, again)
  {
    var cuts := [Stretch(o.from, o.to)];
    PiecesAdd(v.log, [], o.from, o.to);
    assert [] + cuts == cuts;
    assert Cut(v, now, written, skip, again, cuts);
  }

  lemma {:induction false} EarlierSplits(log: seq<Record>, time: int)
    requires forall i, j :: 0 <= i < j < |log| ==> log[i].arrival <= log[j].arrival
    ensures forall i :: 0 <= i < |log| ==> (log[i].arrival < time <==> i < Earlier(log, time))
  {
    if log != [] && log[|log| - 1].arrival >= time { EarlierSplits(log[..|log| - 1], time); }
  }

  /** What is skipped of a shard after a run that opened it. */
  function SkipsFor(g: Given, log: seq<Record>, o: Opening, now: Option<ShardPosition>, before: nat): nat {
    if o.how != FromNow then before
    else if SavesFor(g, o, now) == Some(Since(g.started)) then Earlier(log, g.started)
    else o.from
  }

  /** No last record to go on from, and so no rows. */
  predicate Unread(saved: Option<ShardPosition>) {
    saved.None? || saved.value.Start? || saved.value.Since?
  }

  /** What such a shard's reading begins behind had expired, or was skipped. */
  lemma StartsBefore(g: Given, s: Live, id: ShardId, o: Opening, now: Option<ShardPosition>, skip: nat, again: bool)
    requires id in s.horizon && OpensAt(g, s, id, o) && Unread(Get(g.saved, id))
    requires Tiled(ViewOf(s, id), Get(g.saved, id), [], skip, again)
    requires now.Some? && (now.value.After? || now.value.Done?)
    ensures o.from <= Max(s.horizon[id], SkipsFor(g, Log(s, id), o, now, skip))
  {
    var saved: Option<ShardPosition> := Get(g.saved, id);
    if saved.Some? && saved.value.Since? {
      SinceBefore(ViewOf(s, id), saved.value.millis, o.from, o.seen, skip, again);
    }
  }

  lemma SinceBefore(v: View, millis: int, from: nat, seen: nat, skip: nat, again: bool)
    requires Tiled(v, Some(Since(millis)), [], skip, again) && v.oldest <= from <= seen <= |v.log|
    requires forall j :: v.oldest <= j < seen ==> (v.log[j].arrival < millis <==> j < from)
    ensures from <= Max(v.oldest, skip)
  {
    var cuts: seq<Stretch> :| Cut(v, Some(Since(millis)), [], skip, again, cuts);
    if from > v.oldest {
      assert v.log[from - 1].arrival < millis;
    }
  }

  /** A shard still unread after a run keeps its place, or has one now. */
  lemma StillUnread(g: Given, s: Live, id: ShardId, o: Opening, skip: nat, again: bool)
    requires id in s.horizon && OpensAt(g, s, id, o) && Unread(Get(g.saved, id)) && g.started <= s.clock
    requires Tiled(ViewOf(s, id), Get(g.saved, id), [], skip, again)
    ensures Tiled(ViewOf(s, id), SavesFor(g, o, Get(g.saved, id)), [], SkipsFor(g, Log(s, id), o, Get(g.saved, id), skip), again)
  {
    var v := ViewOf(s, id);
    LogInLine(s, id);
    EarlierSplits(v.log, g.started);
    var cuts: seq<Stretch> :| Cut(v, Get(g.saved, id), [], skip, again, cuts);
    assert Cut(v, SavesFor(g, o, Get(g.saved, id)), [], SkipsFor(g, v.log, o, Get(g.saved, id), skip), again, []);
  }

  lemma NothingBefore(v: View, saved: Option<ShardPosition>, had: seq<Record>, skip: nat, again: bool)
    requires Tiled(v, saved, had, skip, again) && Unread(saved)
    ensures had == []
  {
  }

  lemma UnreadTiles(g: Given, s: Live, id: ShardId, o: Opening, now: Option<ShardPosition>, written: seq<Record>, skip: nat, again: bool)
    requires id in s.horizon && Unread(Get(g.saved, id)) && Tiled(ViewOf(s, id), Get(g.saved, id), [], skip, again)
    requires OpensAt(g, s, id, o) && ReadTo(ViewOf(s, id), o, now, Get(g.saved, id), written) && g.started <= s.clock
    ensures Tiled(ViewOf(s, id), SavesFor(g, o, now), written, SkipsFor(g, Log(s, id), o, now, skip), again)
  {
    if o.from < o.to || now == Some(Done) {
      StartsBefore(g, s, id, o, now, skip, again);
      StartTiles(ViewOf(s, id), o, now, Get(g.saved, id), written, SkipsFor(g, Log(s, id), o, now, skip), again);
    } else {
      StillUnread(g, s, id, o, skip, again);
    }
  }

  lemma ReadOn(g: Given, s: Live, id: ShardId, o: Opening, now: Option<ShardPosition>, had: seq<Record>, written: seq<Record>, skip: nat, sequence: nat)
    requires id in s.horizon && Get(g.saved, id) == Some(After(sequence))
    requires Tiled(ViewOf(s, id), Some(After(sequence)), had, skip, g.settings.continueOnExpiry)
    requires OpensAt(g, s, id, o) && ReadTo(ViewOf(s, id), o, now, Some(After(sequence)), written)
    ensures Tiled(ViewOf(s, id), now, had + written, skip, g.settings.continueOnExpiry)
  {
    LogInLine(s, id);
    if o.lost {
      RestartTiles(ViewOf(s, id), o, now, sequence, had, written, skip);
    } else {
      ResumeTiles(ViewOf(s, id), o, now, sequence, had, written, skip, g.settings.continueOnExpiry);
    }
  }

  /** One shard's rows after a run are again stretches of its log. */
  lemma RunTiles(g: Given, s: Live, id: ShardId, o: Opening, now: Option<ShardPosition>, had: seq<Record>, written: seq<Record>, skip: nat)
    requires id in s.horizon && Tiled(ViewOf(s, id), Get(g.saved, id), had, skip, g.settings.continueOnExpiry)
    requires Reads(g, s, id, Some(o), now, written) && g.started <= s.clock
    ensures Tiled(ViewOf(s, id), SavesFor(g, o, now), had + written, SkipsFor(g, Log(s, id), o, now, skip), g.settings.continueOnExpiry)
  {
    var saved: Option<ShardPosition> := Get(g.saved, id);
    if Unread(saved) {
      NothingBefore(ViewOf(s, id), saved, had, skip, g.settings.continueOnExpiry);
      assert had + written == written;
      UnreadTiles(g, s, id, o, now, written, skip, g.settings.continueOnExpiry);
    } else {
      ReadOn(g, s, id, o, now, had, written, skip, saved.value.sequence);
    }
  }

  ghost predicate Mine(settings: Settings, h: History) {
    h.saved.Some? ==> h.saved.value.stream == settings.stream
  }

  lemma {:induction false} TiledBeforeRun(settings: Settings, h: History, t: Live, id: ShardId)
    requires TiledAll(settings, h) && Grows(h.stream, t) && id in t.horizon
    ensures Tiled(ViewOf(t, id), Get(Saved(h), id), Of(h.rows, id), Skipped(h, id), settings.continueOnExpiry)
  {
    var now, written, skip := Get(Saved(h), id), Of(h.rows, id), Skipped(h, id);
    if id in h.stream.parents {
      assert TiledOne(settings, h, id);
      ViewGrows(h.stream, t, id);
      TiledGrows(ViewOf(h.stream, id), ViewOf(t, id), now, written, skip, settings.continueOnExpiry);
    } else {
      OfNone(h.rows, id);
      assert Cut(ViewOf(t, id), None, [], skip, settings.continueOnExpiry, []);
    }
  }

  lemma SuccessTilesOne(settings: Settings, h: History, k: History, g: Given, b: Batch, rows: seq<Row>, summary: Summary, id: ShardId)
    requires Succeeds(settings, h, k, g, b, rows, summary) && Mine(settings, h) && TiledAll(settings, h) && id in k.stream.horizon
    ensures TiledOne(settings, k, id)
  {
    TiledBeforeRun(settings, h, k.stream, id);
    OfConcat(h.rows, rows, id);
    SuccessReads(settings, h, k, g, b, rows, summary, id);
    if id in b.openings {
      RunTiles(g, k.stream, id, b.openings[id], Get(b.positions, id), Of(h.rows, id), Of(rows, id), Skipped(h, id));
    } else {
      assert Of(h.rows, id) + Of(rows, id) == Of(h.rows, id);
    }
  }

  /** What a successful run did with one shard. */
  lemma {:induction false} SuccessReads(settings: Settings, h: History, k: History, g: Given, b: Batch, rows: seq<Row>, summary: Summary, id: ShardId)
    requires Succeeds(settings, h, k, g, b, rows, summary) && Mine(settings, h) && id in k.stream.horizon
    ensures Reads(g, k.stream, id, Get(b.openings, id), Get(b.positions, id), Of(rows, id))
    ensures g.saved == Saved(h) && g.settings == settings && g.started <= k.stream.clock
    ensures id in b.openings ==> var now := Get(b.positions, id);
      && Get(Saved(k), id) == SavesFor(g, b.openings[id], now)
      && Skipped(k, id) == SkipsFor(g, Log(k.stream, id), b.openings[id], now, Skipped(h, id))
    ensures id !in b.openings ==> Get(Saved(k), id) == Get(b.positions, id) && Skipped(k, id) == Skipped(h, id)
  {
    SkippedAfter(h, k, g, k.stream, b, id);
    SavesOne(g, b, id);
    assert Reads(g, k.stream, id, Get(b.openings, id), Get(b.positions, id), Of(rows, id));
    assert Get(Saved(k), id) == Saves(g, b, id);
  }

  lemma SkippedAfter(h: History, k: History, g: Given, s: Stream, b: Batch, id: ShardId)
    requires k.skipped == h.skipped + Skips(g, s, b)
    ensures id in b.openings ==> Skipped(k, id) == SkipsFor(g, Log(s, id), b.openings[id], Get(b.positions, id), Skipped(h, id))
    ensures id !in b.openings ==> Skipped(k, id) == Skipped(h, id)
  {
    SavesOne(g, b, id);
  }

  lemma SavesOne(g: Given, b: Batch, id: ShardId)
    ensures id in b.openings ==> Saves(g, b, id) == SavesFor(g, b.openings[id], Get(b.positions, id))
    ensures id !in b.openings ==> Saves(g, b, id) == Get(b.positions, id)
  {
  }

  lemma SuccessTiles(settings: Settings, h: History, k: History, g: Given, b: Batch, rows: seq<Row>, summary: Summary)
    requires Succeeds(settings, h, k, g, b, rows, summary) && Mine(settings, h) && TiledAll(settings, h)
    ensures TiledAll(settings, k)
  {
    forall id | id in k.stream.horizon ensures TiledOne(settings, k, id) {
      SuccessTilesOne(settings, h, k, g, b, rows, summary, id);
    }
    SuccessKnows(settings, h, k, g, b, rows, summary);
  }

  lemma SuccessKnows(settings: Settings, h: History, k: History, g: Given, b: Batch, rows: seq<Row>, summary: Summary)
    requires Succeeds(settings, h, k, g, b, rows, summary) && Mine(settings, h) && TiledAll(settings, h)
    ensures forall id :: id in Saved(k) ==> id in k.stream.horizon
    ensures forall i :: 0 <= i < |k.rows| ==> k.rows[i].shard in k.stream.horizon
  {
    SavesKnown(g, k.stream, b, rows, Saved(k));
    forall i | 0 <= i < |k.rows| ensures k.rows[i].shard in k.stream.horizon {
      if i >= |h.rows| { assert rows[i - |h.rows|].shard in b.openings; }
    }
  }

  lemma ExpiryTiles(settings: Settings, h: History, k: History, id: ShardId, oldest: nat)
    requires Expires(h, k, id, oldest) && TiledAll(settings, h)
    ensures TiledAll(settings, k)
  {
    forall other | other in k.stream.horizon ensures TiledOne(settings, k, other) {
      assert TiledOne(settings, h, other);
      ExpiryTilesOne(settings, h, k, id, oldest, other);
    }
  }

  lemma {:induction false} ExpiryTilesOne(settings: Settings, h: History, k: History, id: ShardId, oldest: nat, other: ShardId)
    requires Expires(h, k, id, oldest) && other in h.stream.horizon && TiledOne(settings, h, other)
    ensures TiledOne(settings, k, other)
  {
    TiledGrows(ViewOf(h.stream, other), ViewOf(k.stream, other), Get(Saved(h), other), Of(h.rows, other),
               Skipped(h, other), settings.continueOnExpiry);
  }

  lemma DelistTiles(settings: Settings, h: History, k: History, id: ShardId)
    requires Delists(h, k, id) && TiledAll(settings, h)
    ensures TiledAll(settings, k)
  {
    forall other | other in k.stream.horizon ensures TiledOne(settings, k, other) {
      assert TiledOne(settings, h, other);
      assert ViewOf(h.stream, other) == ViewOf(k.stream, other);
    }
  }

  lemma PassTiles(settings: Settings, h: History, k: History)
    requires Passes(h, k) && TiledAll(settings, h)
    ensures TiledAll(settings, k)
  {
    forall id | id in k.stream.horizon ensures TiledOne(settings, k, id) {
      PassTilesOne(settings, h, k, id);
    }
  }

  lemma {:induction false} PassTilesOne(settings: Settings, h: History, k: History, id: ShardId)
    requires Passes(h, k) && TiledAll(settings, h) && id in k.stream.horizon
    ensures TiledOne(settings, k, id)
  {
    TiledBeforeRun(settings, h, k.stream, id);
  }

  // -------------------------------------------------------------------------
  // Every reachable history
  // -------------------------------------------------------------------------

  function OrderOf(h: History, fin: map<ShardId, nat>): Order {
    Order(h.stream.parents, h.stream.listed, Saved(h), h.rows, fin)
  }

  ghost predicate InOrder(h: History) {
    exists fin :: Ordered(OrderOf(h, fin))
  }

  ghost predicate Inv(settings: Settings, h: History) {
    && Mine(settings, h) && TiledAll(settings, h) && InOrder(h)
    && (!settings.latest ==> h.skipped == map[])
  }

  lemma InitialHolds(settings: Settings, h: History)
    requires Initial(h)
    ensures Inv(settings, h)
  {
    forall id | id in h.stream.horizon ensures TiledOne(settings, h, id) {
      assert Cut(ViewOf(h.stream, id), None, [], 0, settings.continueOnExpiry, []);
    }
    InitialOrdered(h);
  }

  lemma InitialOrdered(h: History)
    requires Initial(h)
    ensures InOrder(h)
  {
    var fin := map id | id in h.stream.parents && id !in h.stream.listed :: 0;
    var o := OrderOf(h, fin);
    forall id | id in fin ensures NoneFrom([], fin[id], id) && AfterParents(o.parents, fin, id, fin[id]) {
    }
    assert Ordered(o);
  }

  lemma PassOrdered(settings: Settings, h: History, k: History)
    requires TiledAll(settings, h) && InOrder(h) && Passes(h, k)
    ensures InOrder(k)
  {
    var fin :| Ordered(OrderOf(h, fin));
    PassOrders(OrderOf(h, fin), h.stream, k.stream);
    assert Ordered(OrderOf(k, fin));
  }

  lemma ExpiryOrdered(h: History, k: History, id: ShardId, oldest: nat)
    requires InOrder(h) && Expires(h, k, id, oldest)
    ensures InOrder(k)
  {
    var fin :| Ordered(OrderOf(h, fin));
    assert OrderOf(k, fin) == OrderOf(h, fin);
  }

  lemma DelistOrdered(h: History, k: History, id: ShardId)
    requires InOrder(h) && Delists(h, k, id)
    ensures InOrder(k)
  {
    var fin :| Ordered(OrderOf(h, fin));
    DelistOrders(OrderOf(h, fin), id);
    assert Ordered(OrderOf(k, if id in fin then fin else fin[id := |h.rows|]));
  }

  lemma SuccessOrdered(settings: Settings, h: History, k: History, g: Given, b: Batch, rows: seq<Row>, summary: Summary)
    requires Succeeds(settings, h, k, g, b, rows, summary) && Mine(settings, h) && TiledAll(settings, h) && InOrder(h)
    ensures InOrder(k)
  {
    var fin :| Ordered(OrderOf(h, fin));
    var o := OrderOf(h, fin);
    SuccessKeepsDone(g, k.stream, b, rows, Saved(k));
    ListedExtends(settings, h, g, fin);
    RunOrders(o, g.at, b, rows, Saved(k));
    SavesKnown(g, k.stream, b, rows, Saved(k));
    PassOrders(Afterwards(o, g.at, b, rows, Saved(k)), g.at, k.stream);
    assert Ordered(OrderOf(k, Finish(b, |h.rows|, fin)));
  }

  lemma ListedExtends(settings: Settings, h: History, g: Given, fin: map<ShardId, nat>)
    requires StartsFrom(g, h.stream, settings, h.saved) && Mine(settings, h) && TiledAll(settings, h)
    ensures Extends(OrderOf(h, fin), g.at)
  {
  }

  /** Only a `latest` first run opens a shard at its end. */
  lemma FromNowIsFirst(g: Given, s: Live, b: Batch, rows: seq<Row>, id: ShardId)
    requires Ready(g, s, b, rows) && id in b.openings && b.openings[id].how == FromNow
    ensures g.first && g.settings.latest && id !in g.saved
  {
    assert Of(rows, id) == Of(rows, id);
    assert id in s.horizon;
    assert Reads(g, s, id, Get(b.openings, id), Get(b.positions, id), Of(rows, id));
  }

  lemma SuccessSkips(settings: Settings, h: History, k: History, g: Given, b: Batch, rows: seq<Row>, summary: Summary)
    requires Succeeds(settings, h, k, g, b, rows, summary) && !settings.latest
    ensures k.skipped == h.skipped
  {
    if id :| id in Skips(g, k.stream, b) {
      FromNowIsFirst(g, k.stream, b, rows, id);
      assert false;
    }
  }

  lemma SuccessKeeps(settings: Settings, h: History, k: History, g: Given, b: Batch, rows: seq<Row>, summary: Summary)
    requires Inv(settings, h) && Succeeds(settings, h, k, g, b, rows, summary)
    ensures Inv(settings, k)
  {
    SuccessTiles(settings, h, k, g, b, rows, summary);
    SuccessOrdered(settings, h, k, g, b, rows, summary);
    if !settings.latest { SuccessSkips(settings, h, k, g, b, rows, summary); }
  }

  lemma StepKeeps(settings: Settings, h: History, k: History)
    requires Inv(settings, h) && Step(settings, h, k)
    ensures Inv(settings, k)
  {
    if Passes(h, k) {
      PassTiles(settings, h, k);
      PassOrdered(settings, h, k);
    } else if id, oldest :| Expires(h, k, id, oldest) {
      ExpiryTiles(settings, h, k, id, oldest);
      ExpiryOrdered(h, k, id, oldest);
    } else if id :| Delists(h, k, id) {
      DelistTiles(settings, h, k, id);
      DelistOrdered(h, k, id);
    } else {
      var g, b, rows, summary :| Succeeds(settings, h, k, g, b, rows, summary);
      SuccessKeeps(settings, h, k, g, b, rows, summary);
    }
  }

  /** A node's life: each history follows from the one before. */
  ghost predicate Life(settings: Settings, life: seq<History>) {
    && |life| > 0 && Initial(life[0])
    && forall i :: 0 < i < |life| ==> Step(settings, life[i - 1], life[i])
  }

  lemma {:induction false} LifeHolds(settings: Settings, life: seq<History>, i: nat)
    requires Life(settings, life) && i < |life|
    ensures Inv(settings, life[i])
  {
    if i == 0 {
      InitialHolds(settings, life[0]);
    } else {
      LifeHolds(settings, life, i - 1);
      StepKeeps(settings, life[i - 1], life[i]);
    }
  }
}
