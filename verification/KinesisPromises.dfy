/** What a Kinesis node's runs write over its whole life, for `latest` and
    `earliest`, and for nodes that stop or go on when a position expired. */
module KinesisPromises {
  import opened Common
  import opened KinesisStream
  import opened KinesisSource
  import opened KinesisOrder
  import opened KinesisHistory

  // -------------------------------------------------------------------------
  // A run is a step
  // -------------------------------------------------------------------------

  /** One run of a node. If it fails, `k` is the history with the stream as the
      run last saw it, and the rows it wrote count for nothing. If what failed it
      is an expired position, it had read nothing, and the record last read is
      gone, or was looked for with a blank answer. */
  method RunNode(api: Api, settings: Settings, h: History) returns (ghost k: History, failed: Option<Failure>, written: seq<Row>)
    requires api.stream == h.stream && api.asked == {}
    modifies api
    ensures Step(settings, h, k)
    ensures failed.None? ==> k.rows == h.rows + written && |written| <= settings.maxRecords && k.stream == api.stream
    ensures failed.None? ==> exists g, b, summary :: Succeeds(settings, h, k, g, b, written, summary)
    ensures failed.Some? ==> k.saved == h.saved && k.rows == h.rows && Blamed(api, failed)
    ensures failed.Some? && failed.value.Expired? && Inv(settings, h) ==> written == [] && Missed(settings, h, k, failed.value)
  {
    var r, g, b, rows, seen := ReadBatch(api, settings, h.saved);
    GrowsTransitive(h.stream, g.at, seen);
    written := rows;
    if r.Ok? {
      failed := None;
      k := History(api.stream, Some(r.value.checkpoint), h.rows + rows, h.skipped + Skips(g, api.stream, b));
      assert Succeeds(settings, h, k, g, b, rows, r.value);
    } else {
      failed := Some(r.error);
      k := h.(stream := seen);
      assert Passes(h, k);
      if r.error.Expired? && Inv(settings, h) {
        RunsSaveParentsDone(settings, h, g);
        FoundedMisses(settings, h, k, g, r.error);
      }
    }
  }

  /** Why a run said that a shard's position expired. */
  ghost predicate Missed(settings: Settings, h: History, k: History, failure: Failure) {
    && failure.Expired? && !settings.continueOnExpiry && failure.shard in k.stream.horizon
    && failure.shard in Saved(h) && Saved(h)[failure.shard].After?
    && (failure.blank || Gone(k.stream, failure.shard, Saved(h)[failure.shard].sequence))
  }

  /** A record that is gone when a run lists the stream does not come back. */
  lemma FoundedMisses(settings: Settings, h: History, k: History, g: Given, failure: Failure)
    requires Inv(settings, h) && Founded(g, {}, Some(failure)) && failure.Expired?
    requires g.saved == Saved(h) && g.settings == settings && Grows(h.stream, g.at) && Grows(g.at, k.stream)
    ensures Missed(settings, h, k, failure)
  {
    WasListed(settings, h, k, g, failure.shard);
    if !failure.blank { StillGone(g.at, k.stream, failure.shard, Saved(h)[failure.shard].sequence); }
  }

  lemma StillGone(s: Stream, t: Live, id: ShardId, sequence: nat)
    requires Log(s, id) <= Log(t, id) && id in s.horizon && id in t.horizon && s.horizon[id] == t.horizon[id]
    requires Gone(s, id, sequence) && Names(Log(s, id), sequence)
    ensures Gone(t, id, sequence)
  {
    LogInLine(t, id);
    StaysGone(Log(s, id), Log(t, id), s.horizon[id], sequence);
  }

  lemma StaysGone(log: seq<Record>, more: seq<Record>, oldest: nat, sequence: nat)
    requires log <= more && InLine(more) && Names(log, sequence)
    requires forall j :: oldest <= j < |log| ==> log[j].sequence != sequence
    ensures forall j :: oldest <= j < |more| ==> more[j].sequence != sequence
  {
    var i :| 0 <= i < |log| && log[i].sequence == sequence;
    assert more[i] == log[i];
  }

  /** Whatever runs save of a shard, its parents are finished. */
  lemma {:induction false} RunsSaveParentsDone(settings: Settings, h: History, g: Given)
    requires Inv(settings, h) && g.saved == Saved(h) && Grows(h.stream, g.at)
    ensures ParentsDone(g)
  {
    var fin := FinOf(h);
    forall id, p | id in g.saved && g.saved[id].After? && id in g.at.horizon && id in g.at.parents && p in g.at.parents[id]
      ensures Finished(g.at.listed, g.saved, p)
    {
      LastRow(settings, h, id);
      var rows := Of(h.rows, id);
      OfMember(h.rows, id, |rows| - 1);
      var r :| 0 <= r < |h.rows| && h.rows[r] == Row(id, rows[|rows| - 1]);
      ParentsBefore(OrderOf(h, fin), r, p);
      ParentKnown(OrderOf(h, fin), r, p);
    }
  }

  // -------------------------------------------------------------------------
  // Settings that change
  // -------------------------------------------------------------------------

  /** What a node may be changed to without leaving what is proved of `t`: any cap,
      and either way with an expired position if `t` goes on. */
  predicate Under(s: Settings, t: Settings) {
    s.stream == t.stream && s.latest == t.latest && (s.continueOnExpiry ==> t.continueOnExpiry)
  }

  lemma {:induction false} OpensUnder(g: Given, s: Stream, id: ShardId, o: Opening, t: Settings)
    requires id in s.horizon && OpensAt(g, s, id, o) && Under(g.settings, t)
    ensures OpensAt(g.(settings := t), s, id, o)
  {
  }

  lemma {:induction false} ReadyUnder(g: Given, s: Live, b: Batch, rows: seq<Row>, t: Settings)
    requires Ready(g, s, b, rows) && Under(g.settings, t)
    ensures Ready(g.(settings := t), s, b, rows)
  {
    var f := g.(settings := t);
    forall id | id in s.horizon ensures Reads(f, s, id, Get(b.openings, id), Get(b.positions, id), Of(rows, id)) {
      assert Reads(g, s, id, Get(b.openings, id), Get(b.positions, id), Of(rows, id));
      if id in b.openings { OpensUnder(g, s, id, b.openings[id], t); }
    }
  }

  lemma SavesUnder(g: Given, b: Batch, rows: seq<Row>, summary: Summary, t: Settings)
    requires Reports(g, b, rows, summary) && Under(g.settings, t)
    ensures Reports(g.(settings := t), b, rows, summary)
  {
    forall id ensures Get(summary.checkpoint.shards, id) == Saves(g.(settings := t), b, id) {
      assert Saves(g.(settings := t), b, id) == Saves(g, b, id);
    }
  }

  lemma SkipsUnder(g: Given, s: Stream, b: Batch, t: Settings)
    ensures Skips(g.(settings := t), s, b) == Skips(g, s, b)
  {
    forall id ensures Saves(g.(settings := t), b, id) == Saves(g, b, id) {
    }
  }

  lemma SucceedsUnder(s: Settings, t: Settings, h: History, k: History, g: Given, b: Batch, rows: seq<Row>, summary: Summary)
    requires Succeeds(s, h, k, g, b, rows, summary) && Under(s, t)
    ensures Succeeds(t, h, k, g.(settings := t), b, rows, summary)
  {
    ReadyUnder(g, k.stream, b, rows, t);
    SavesUnder(g, b, rows, summary, t);
    SkipsUnder(g, k.stream, b, t);
  }

  lemma StepUnder(s: Settings, t: Settings, h: History, k: History)
    requires Step(s, h, k) && Under(s, t)
    ensures Step(t, h, k)
  {
    if g, b, rows, summary :| Succeeds(s, h, k, g, b, rows, summary) {
      SucceedsUnder(s, t, h, k, g, b, rows, summary);
    }
  }

  /** A life in which each step may have settings of its own. */
  ghost predicate MixedLife(life: seq<History>, own: seq<Settings>) {
    && |life| > 0 && |own| == |life| && Initial(life[0])
    && forall i :: 0 < i < |life| ==> Step(own[i], life[i - 1], life[i])
  }

  /** So a node whose cap is changed, or what it does with an expired position, has
      a life of one that goes on: what is proved of that holds of it. */
  lemma MixedIsLife(life: seq<History>, own: seq<Settings>, settings: Settings)
    requires MixedLife(life, own) && forall i :: 0 <= i < |own| ==> Under(own[i], settings)
    ensures Life(settings, life)
  {
    forall i | 0 < i < |life| ensures Step(settings, life[i - 1], life[i]) {
      StepUnder(own[i], settings, life[i - 1], life[i]);
    }
  }

  // -------------------------------------------------------------------------
  // Each shard's rows
  // -------------------------------------------------------------------------

  /** The successful runs' rows of a shard are stretches of its records, the last
      of them ending where its position says. What lies before the first stretch
      expired, or was skipped by a `latest` first run; what lies before another
      expired. A node that stops when its position expired has one at most. */
  lemma RowsAreStretches(settings: Settings, life: seq<History>, i: nat, id: ShardId) returns (cuts: seq<Stretch>)
    requires Life(settings, life) && i < |life| && id in life[i].stream.parents
    ensures CutsInto(settings, life[i], id, cuts)
  {
    LifeHolds(settings, life, i);
    cuts := CutsOf(settings, life[i], id);
  }

  ghost predicate CutsInto(settings: Settings, h: History, id: ShardId, cuts: seq<Stretch>)
    requires id in h.stream.horizon
  {
    Cut(ViewOf(h.stream, id), Get(Saved(h), id), Of(h.rows, id), Skipped(h, id), settings.continueOnExpiry, cuts)
  }

  lemma CutsOf(settings: Settings, h: History, id: ShardId) returns (cuts: seq<Stretch>)
    requires TiledAll(settings, h) && id in h.stream.horizon
    ensures CutsInto(settings, h, id, cuts)
  {
    assert TiledOne(settings, h, id);
    cuts := CutsFor(ViewOf(h.stream, id), Get(Saved(h), id), Of(h.rows, id), Skipped(h, id), settings.continueOnExpiry);
  }

  lemma CutsFor(v: View, now: Option<ShardPosition>, written: seq<Record>, skip: nat, again: bool) returns (cuts: seq<Stretch>)
    requires Tiled(v, now, written, skip, again)
    ensures Cut(v, now, written, skip, again, cuts)
  {
    cuts :| Cut(v, now, written, skip, again, cuts);
  }

  /** So the rows of a node that stops are one stretch, with no gap and no
      duplicate. */
  lemma RowsTile(settings: Settings, life: seq<History>, i: nat, id: ShardId) returns (from: nat, to: nat)
    requires Life(settings, life) && i < |life| && id in life[i].stream.parents && !settings.continueOnExpiry
    ensures from <= to <= |Log(life[i].stream, id)| && Of(life[i].rows, id) == Log(life[i].stream, id)[from..to]
    ensures from <= Max(life[i].stream.horizon[id], Skipped(life[i], id))
    ensures Get(Saved(life[i]), id) == Some(Done) ==> to == |Log(life[i].stream, id)|
    ensures forall q :: Get(Saved(life[i]), id) == Some(After(q)) ==> EndsAt(Log(life[i].stream, id), Stretch(from, to), q)
  {
    var cuts := RowsAreStretches(settings, life, i, id);
    from, to := OnlyPiece(Log(life[i].stream, id), cuts);
  }

  lemma OnlyPiece(log: seq<Record>, cuts: seq<Stretch>) returns (from: nat, to: nat)
    requires Within(log, cuts) && |cuts| <= 1
    ensures from <= to <= |log| && Pieces(log, cuts) == log[from..to]
    ensures if cuts == [] then from == to == 0 else cuts[0] == Stretch(from, to)
  {
    if cuts == [] {
      from, to := 0, 0;
    } else {
      from, to := cuts[0].from, cuts[0].to;
      assert cuts == [] + [Stretch(from, to)];
      PiecesAdd(log, [], from, to);
    }
  }

  // -------------------------------------------------------------------------
  // When a run falls back
  // -------------------------------------------------------------------------

  ghost predicate Ascending(records: seq<Record>) {
    forall i, j :: 0 <= i < j < |records| ==> records[i].sequence < records[j].sequence
  }

  /** The rows of a shard that a step added. */
  function Added(h: History, k: History, id: ShardId): seq<Record> {
    var was, now := Of(h.rows, id), Of(k.rows, id);
    if |was| <= |now| then now[|was|..] else []
  }

  ghost predicate StartsBehind(saved: Option<ShardPosition>, written: seq<Record>) {
    saved.Some? && saved.value.After? && written != [] && written[0].sequence <= saved.value.sequence
  }

  /** A run wrote rows of a shard, the first of them no later than the record its
      saved position names. */
  ghost predicate FallsBack(h: History, k: History, id: ShardId) {
    StartsBehind(Get(Saved(h), id), Added(h, k, id))
  }

  ghost predicate FallsBackAt(life: seq<History>, j: nat, id: ShardId) {
    0 < j < |life| && FallsBack(life[j - 1], life[j], id)
  }

  ghost predicate FellBack(life: seq<History>, i: nat, id: ShardId) {
    exists j: nat :: j <= i && FallsBackAt(life, j, id)
  }

  /** What a run that falls back did: it took the record it last read for gone
      while it was held, and read from the oldest held. */
  ghost predicate Misled(g: Given, s: Stream, b: Batch, id: ShardId)
    requires id in s.horizon
  {
    var saved := Get(g.saved, id);
    && saved.Some? && saved.value.After? && !Gone(s, id, saved.value.sequence)
    && id in b.openings && b.openings[id].lost && b.openings[id].from < b.openings[id].to
  }

  lemma {:induction false} LastPiece(log: seq<Record>, cuts: seq<Stretch>)
    requires Within(log, cuts) && cuts != [] && cuts[|cuts| - 1].from < cuts[|cuts| - 1].to
    ensures var rows, last := Pieces(log, cuts), cuts[|cuts| - 1];
      rows != [] && rows[|rows| - 1] == log[last.to - 1]
  {
  }

  /** What a shard's position says of its last row. */
  ghost predicate StandsAfter(saved: Option<ShardPosition>, was: seq<Record>) {
    && (Unread(saved) ==> was == [])
    && (saved.Some? && saved.value.After? ==> EndsWith(was, saved.value.sequence))
  }

  ghost predicate NamesOne(log: seq<Record>, saved: Option<ShardPosition>) {
    saved.Some? && saved.value.After? ==> Names(log, saved.value.sequence)
  }

  lemma LastOf(v: View, now: Option<ShardPosition>, written: seq<Record>, skip: nat, again: bool)
    requires Tiled(v, now, written, skip, again)
    ensures StandsAfter(now, written) && NamesOne(v.log, now)
  {
    if now.Some? && now.value.After? {
      var cuts := CutsFor(v, now, written, skip, again);
      LastPiece(v.log, cuts);
    }
  }

  /** With a saved position, the shard's last row is the record it names; without
      one there is no row. */
  lemma {:induction false} LastRow(settings: Settings, h: History, id: ShardId)
    requires TiledAll(settings, h) && id in h.stream.horizon
    ensures StandsAfter(Get(Saved(h), id), Of(h.rows, id)) && NamesOne(Log(h.stream, id), Get(Saved(h), id))
  {
    assert TiledOne(settings, h, id);
    LastOf(ViewOf(h.stream, id), Get(Saved(h), id), Of(h.rows, id), Skipped(h, id), settings.continueOnExpiry);
  }

  predicate EndsWith(records: seq<Record>, sequence: nat) {
    records != [] && records[|records| - 1].sequence == sequence
  }

  ghost predicate Names(log: seq<Record>, sequence: nat) {
    exists i :: 0 <= i < |log| && log[i].sequence == sequence
  }

  /** A shard new to the stream has neither rows nor a position. */
  lemma {:induction false} NewShard(settings: Settings, h: History, id: ShardId)
    requires TiledAll(settings, h) && id !in h.stream.horizon
    ensures Of(h.rows, id) == [] && Get(Saved(h), id) == None
  {
    OfNone(h.rows, id);
  }

  lemma {:induction false} SuccessRows(settings: Settings, h: History, k: History, g: Given, b: Batch, rows: seq<Row>, summary: Summary, id: ShardId)
    requires Succeeds(settings, h, k, g, b, rows, summary) && Mine(settings, h) && id in k.stream.horizon
    ensures Of(k.rows, id) == Of(h.rows, id) + Of(rows, id) && InLine(Log(k.stream, id))
    ensures Reads(g, k.stream, id, Get(b.openings, id), Get(b.positions, id), Of(rows, id))
    ensures g.saved == Saved(h) && g.settings == settings
  {
    OfConcat(h.rows, rows, id);
    LogInLine(k.stream, id);
    SuccessReads(settings, h, k, g, b, rows, summary, id);
  }

  /** A run falls back exactly when the answer to its question whether the last
      record is held was empty though it is held, and it then read something;
      and only a node told to go on does. */
  lemma FallsBackIff(settings: Settings, h: History, k: History, g: Given, b: Batch, rows: seq<Row>, summary: Summary, id: ShardId)
    requires Inv(settings, h) && Succeeds(settings, h, k, g, b, rows, summary) && id in k.stream.horizon
    ensures FallsBack(h, k, id) <==> Misled(g, k.stream, b, id)
    ensures FallsBack(h, k, id) ==> settings.continueOnExpiry && b.openings[id].blank
  {
    SuccessRows(settings, h, k, g, b, rows, summary, id);
    if Resumes(h, b, id) {
      WasListed(settings, h, k, g, id);
      FirstRow(g, k.stream, b, rows, id, Saved(h)[id].sequence);
    }
    AddedIs(h, k, id, Of(rows, id));
  }

  predicate Resumes(h: History, b: Batch, id: ShardId) {
    id in Saved(h) && Saved(h)[id].After? && id in b.openings
  }

  /** The record a saved position names was in the stream as the run listed it. */
  lemma WasListed(settings: Settings, h: History, k: History, g: Given, id: ShardId)
    requires TiledAll(settings, h) && Grows(h.stream, g.at) && Grows(g.at, k.stream) && id in Saved(h) && Saved(h)[id].After?
    ensures Names(Log(g.at, id), Saved(h)[id].sequence) && Log(g.at, id) <= Log(k.stream, id)
    ensures id in g.at.horizon && id in k.stream.horizon && g.at.horizon[id] == k.stream.horizon[id]
  {
    LastRow(settings, h, id);
    LogGrows(h.stream, g.at, id);
    LogGrows(g.at, k.stream, id);
    NamesMore(Log(h.stream, id), Log(g.at, id), Saved(h)[id].sequence);
  }

  lemma NamesMore(log: seq<Record>, more: seq<Record>, sequence: nat)
    requires Names(log, sequence) && log <= more
    ensures Names(more, sequence)
  {
    var i :| 0 <= i < |log| && log[i].sequence == sequence;
    assert more[i] == log[i];
  }

  lemma {:induction false} FirstRow(g: Given, s: Stream, b: Batch, rows: seq<Row>, id: ShardId, sequence: nat)
    requires id in s.horizon && Reads(g, s, id, Get(b.openings, id), Get(b.positions, id), Of(rows, id)) && InLine(Log(s, id))
    requires Get(g.saved, id) == Some(After(sequence)) && id in b.openings && Names(Log(g.at, id), sequence)
    requires Log(g.at, id) <= Log(s, id) && (id in g.at.horizon ==> g.at.horizon[id] == s.horizon[id])
    ensures Of(rows, id) != [] && Of(rows, id)[0].sequence <= sequence <==> Misled(g, s, b, id)
    ensures Misled(g, s, b, id) ==> g.settings.continueOnExpiry && b.openings[id].blank
  {
    var o, log := b.openings[id], Log(s, id);
    var last :| 0 <= last < |Log(g.at, id)| && Log(g.at, id)[last].sequence == sequence;
    assert log[last] == Log(g.at, id)[last];
    if Of(rows, id) != [] { assert Of(rows, id)[0] == log[o.from]; }
  }

  // -------------------------------------------------------------------------
  // What falling back costs
  // -------------------------------------------------------------------------

  lemma AscendingJoin(a: seq<Record>, b: seq<Record>)
    requires Ascending(b)
    ensures Ascending(a + b) <==> Ascending(a) && (a == [] || b == [] || a[|a| - 1].sequence < b[0].sequence)
  {
    if Ascending(a + b) {
      assert forall i :: 0 <= i < |a| ==> (a + b)[i] == a[i];
      if a != [] && b != [] { assert (a + b)[|a|] == b[0]; }
    }
  }

  /** What a run adds to one shard's rows is in order, and there is nothing to add
      to a finished shard. */
  lemma AddsInOrder(g: Given, s: Stream, id: ShardId, opening: Option<Opening>, now: Option<ShardPosition>, written: seq<Record>)
    requires id in s.horizon && Reads(g, s, id, opening, now, written) && InLine(Log(s, id))
    ensures Ascending(written) && (Get(g.saved, id) == Some(Done) ==> written == [])
  {
  }

  lemma {:induction false} SuccessAdds(settings: Settings, h: History, k: History, g: Given, b: Batch, rows: seq<Row>, summary: Summary, id: ShardId)
    requires Succeeds(settings, h, k, g, b, rows, summary) && Mine(settings, h) && id in k.stream.horizon
    ensures Of(k.rows, id) == Of(h.rows, id) + Of(rows, id)
    ensures Ascending(Of(rows, id)) && (Get(Saved(h), id) == Some(Done) ==> Of(rows, id) == [])
  {
    SuccessRows(settings, h, k, g, b, rows, summary, id);
    AddsInOrder(g, k.stream, id, Get(b.openings, id), Get(b.positions, id), Of(rows, id));
  }

  lemma {:induction false} Stands(settings: Settings, h: History, id: ShardId)
    requires TiledAll(settings, h)
    ensures StandsAfter(Get(Saved(h), id), Of(h.rows, id))
  {
    if id in h.stream.horizon { LastRow(settings, h, id); } else { NewShard(settings, h, id); }
  }

  lemma AddsAscend(saved: Option<ShardPosition>, was: seq<Record>, written: seq<Record>)
    requires StandsAfter(saved, was) && Ascending(written) && (saved == Some(Done) ==> written == [])
    ensures Ascending(was + written) <==> Ascending(was) && !StartsBehind(saved, written)
  {
    AscendingJoin(was, written);
  }

  lemma {:induction false} AddedIs(h: History, k: History, id: ShardId, written: seq<Record>)
    requires Of(k.rows, id) == Of(h.rows, id) + written
    ensures Added(h, k, id) == written
  {
  }

  lemma {:induction false} SuccessAscends(settings: Settings, h: History, k: History, g: Given, b: Batch, rows: seq<Row>, summary: Summary, id: ShardId)
    requires Succeeds(settings, h, k, g, b, rows, summary) && Inv(settings, h) && id in k.stream.horizon
    ensures Ascending(Of(k.rows, id)) <==> Ascending(Of(h.rows, id)) && !FallsBack(h, k, id)
  {
    SuccessAdds(settings, h, k, g, b, rows, summary, id);
    Stands(settings, h, id);
    AddsAscend(Get(Saved(h), id), Of(h.rows, id), Of(rows, id));
    AddedIs(h, k, id, Of(rows, id));
  }

  lemma {:induction false} StepAscends(settings: Settings, h: History, k: History, id: ShardId)
    requires Step(settings, h, k) && Inv(settings, h)
    ensures Ascending(Of(k.rows, id)) <==> Ascending(Of(h.rows, id)) && !FallsBack(h, k, id)
  {
    if k.rows != h.rows {
      var g, b, rows, summary :| Succeeds(settings, h, k, g, b, rows, summary);
      RunAscends(settings, h, k, g, b, rows, summary, id);
    }
  }

  lemma {:induction false} RunAscends(settings: Settings, h: History, k: History, g: Given, b: Batch, rows: seq<Row>, summary: Summary, id: ShardId)
    requires Succeeds(settings, h, k, g, b, rows, summary) && Inv(settings, h)
    ensures Ascending(Of(k.rows, id)) <==> Ascending(Of(h.rows, id)) && !FallsBack(h, k, id)
  {
    if id in k.stream.horizon {
      SuccessAscends(settings, h, k, g, b, rows, summary, id);
    } else {
      SuccessNone(settings, h, k, g, b, rows, summary, id);
    }
  }

  lemma {:induction false} SuccessNone(settings: Settings, h: History, k: History, g: Given, b: Batch, rows: seq<Row>, summary: Summary, id: ShardId)
    requires Succeeds(settings, h, k, g, b, rows, summary) && Inv(settings, h) && id !in k.stream.horizon
    ensures Of(k.rows, id) == Of(h.rows, id) == []
  {
    SuccessTiles(settings, h, k, g, b, rows, summary);
    NewShard(settings, k, id);
    SuccessPrefix(settings, h, k, g, b, rows, summary, id);
  }

  lemma {:induction false} SuccessPrefix(settings: Settings, h: History, k: History, g: Given, b: Batch, rows: seq<Row>, summary: Summary, id: ShardId)
    requires Succeeds(settings, h, k, g, b, rows, summary)
    ensures Of(k.rows, id) == Of(h.rows, id) + Of(rows, id)
  {
    OfConcat(h.rows, rows, id);
  }

  /** Over any life, a shard's rows are in the order its records were put, none
      twice, if and only if no run fell back on it. */
  lemma {:induction false} AscendingIff(settings: Settings, life: seq<History>, i: nat, id: ShardId)
    requires Life(settings, life) && i < |life|
    ensures Ascending(Of(life[i].rows, id)) <==> !FellBack(life, i, id)
  {
    if i > 0 {
      AscendingIff(settings, life, i - 1, id);
      LifeHolds(settings, life, i - 1);
      StepAscends(settings, life[i - 1], life[i], id);
      FellBackLater(life, i, id);
    }
  }

  lemma FellBackLater(life: seq<History>, i: nat, id: ShardId)
    requires 0 < i < |life|
    ensures FellBack(life, i, id) <==> FellBack(life, i - 1, id) || FallsBack(life[i - 1], life[i], id)
  {
    if FellBack(life, i, id) {
      var j: nat :| j <= i && FallsBackAt(life, j, id);
    }
    if FallsBack(life[i - 1], life[i], id) { assert FallsBackAt(life, i, id); }
  }

  /** A node that stops when its position expired never falls back. */
  lemma StopNeverFallsBack(settings: Settings, life: seq<History>, i: nat, id: ShardId)
    requires Life(settings, life) && i < |life| && !settings.continueOnExpiry
    ensures !FellBack(life, i, id)
  {
    AscendingIff(settings, life, i, id);
    LifeHolds(settings, life, i);
    StopAscends(settings, life[i], id);
  }

  lemma OneAscends(v: View, now: Option<ShardPosition>, written: seq<Record>, skip: nat, cuts: seq<Stretch>)
    requires Cut(v, now, written, skip, false, cuts) && InLine(v.log)
    ensures Ascending(written)
  {
    var from, to := OnlyPiece(v.log, cuts);
    SliceAscends(v.log, from, to);
  }

  lemma SliceAscends(log: seq<Record>, from: nat, to: nat)
    requires InLine(log) && from <= to <= |log|
    ensures Ascending(log[from..to])
  {
  }

  lemma {:induction false} StopAscends(settings: Settings, h: History, id: ShardId)
    requires TiledAll(settings, h) && !settings.continueOnExpiry
    ensures Ascending(Of(h.rows, id))
  {
    if id in h.stream.horizon {
      var cuts := CutsOf(settings, h, id);
      LogInLine(h.stream, id);
      OneAscends(ViewOf(h.stream, id), Get(Saved(h), id), Of(h.rows, id), Skipped(h, id), cuts);
    } else {
      NewShard(settings, h, id);
    }
  }

  /** A run wrote again what an earlier one wrote. */
  ghost predicate Rewrites(h: History, k: History, id: ShardId) {
    Meets(Of(h.rows, id), Added(h, k, id))
  }

  /** A run wrote rows of a shard, the first no later than some row before. */
  ghost predicate ReachesBack(was: seq<Record>, written: seq<Record>) {
    written != [] && exists record :: record in was && record.sequence >= written[0].sequence
  }

  /** A record still held, of those up to where some stretch ends, was written,
      if the first stretch does not begin after it. */
  lemma {:induction false} HeldWasWritten(v: View, cuts: seq<Stretch>, c: nat, at: nat)
    requires Within(v.log, cuts) && forall d :: 1 <= d < |cuts| ==> cuts[d].from <= v.oldest
    requires c < |cuts| && v.oldest <= at < cuts[c].to && cuts[0].from <= at
    ensures v.log[at] in Pieces(v.log, cuts)
  {
    assert cuts[c].from <= at;
    PiecesHold(v.log, cuts, c, at);
  }

  ghost predicate Meets(a: seq<Record>, b: seq<Record>) {
    exists record :: record in a && record in b
  }

  lemma MeetReachesBack(log: seq<Record>, was: seq<Record>, from: nat, to: nat)
    requires InLine(log) && from <= to <= |log| && Meets(was, log[from..to])
    ensures ReachesBack(was, log[from..to])
  {
    var written := log[from..to];
    var record :| record in was && record in written;
    assert record.sequence >= written[0].sequence;
  }

  /** Where a row that is no earlier than the record at `from` was read. */
  lemma BackTo(v: View, was: seq<Record>, cuts: seq<Stretch>, from: nat, to: nat) returns (c: nat)
    requires Within(v.log, cuts) && was == Pieces(v.log, cuts) && InLine(v.log) && from < to <= |v.log|
    requires ReachesBack(was, v.log[from..to])
    ensures c < |cuts| && from < cuts[c].to
  {
    var record :| record in was && record.sequence >= v.log[from..to][0].sequence;
    var a :| 0 <= a < |was| && was[a] == record;
    var at;
    c, at := PiecesMember(v.log, cuts, a);
    assert v.log[at].sequence >= v.log[from].sequence;
  }

  /** A node that skips nothing writes a record of a shard again exactly when its
      first row is no later than some row before. */
  lemma RewritesWhenBack(v: View, now: Option<ShardPosition>, was: seq<Record>, again: bool, from: nat, to: nat)
    requires Tiled(v, now, was, 0, again) && InLine(v.log) && v.oldest <= from <= to <= |v.log|
    ensures Meets(was, v.log[from..to]) <==> ReachesBack(was, v.log[from..to])
  {
    if Meets(was, v.log[from..to]) { MeetReachesBack(v.log, was, from, to); }
    if ReachesBack(was, v.log[from..to]) {
      var cuts := CutsFor(v, now, was, 0, again);
      var c := BackTo(v, was, cuts, from, to);
      HeldWasWritten(v, cuts, c, from);
      assert v.log[from..to][0] == v.log[from];
    }
  }

  /** A run's rows get as far as the shard's first row. */
  ghost predicate GetsToFirst(was: seq<Record>, written: seq<Record>) {
    was != [] && written != [] && was[0].sequence <= written[|written| - 1].sequence
  }

  ghost predicate FallsAmong(was: seq<Record>, written: seq<Record>, sequence: nat) {
    GetsToFirst(was, written) && written[0].sequence <= sequence
  }

  lemma MeetFallsAmong(log: seq<Record>, was: seq<Record>, sequence: nat, from: nat, to: nat)
    requires InLine(log) && from <= to <= |log| && Ascending(was) && EndsWith(was, sequence) && Meets(was, log[from..to])
    ensures FallsAmong(was, log[from..to], sequence)
  {
    var written := log[from..to];
    var record :| record in was && record in written;
    var a :| 0 <= a < |was| && was[a] == record;
    var c :| 0 <= c < |written| && written[c] == record;
    assert log[from + c] == record && written[0] == log[from] && written[|written| - 1] == log[to - 1];
  }

  lemma {:induction false} AmongMeets(v: View, cuts: seq<Stretch>, sequence: nat, from: nat, to: nat)
    requires Within(v.log, cuts) && InLine(v.log) && cuts != [] && EndsAt(v.log, cuts[|cuts| - 1], sequence) && cuts[0].from < cuts[0].to
    requires forall d :: 1 <= d < |cuts| ==> cuts[d].from <= v.oldest
    requires v.oldest <= from <= to <= |v.log| && FallsAmong(Pieces(v.log, cuts), v.log[from..to], sequence)
    requires Pieces(v.log, cuts)[0].sequence <= sequence
    ensures Meets(Pieces(v.log, cuts), v.log[from..to])
  {
    FirstPiece(v.log, cuts);
    var at := Max(from, cuts[0].from);
    assert v.log[from..to][0] == v.log[from] && v.log[from..to][to - from - 1] == v.log[to - 1];
    assert from < cuts[|cuts| - 1].to && cuts[0].from < to;
    HeldWasWritten(v, cuts, |cuts| - 1, at);
    assert v.log[from..to][at - from] == v.log[at];
  }

  /** And while its rows are in order, exactly when it starts behind its position
      and gets as far as its first row. */
  lemma RewritesWhenBehind(v: View, sequence: nat, was: seq<Record>, skip: nat, again: bool, from: nat, to: nat)
    requires Tiled(v, Some(After(sequence)), was, skip, again) && InLine(v.log) && v.oldest <= from <= to <= |v.log| && Ascending(was)
    ensures Meets(was, v.log[from..to]) <==> FallsAmong(was, v.log[from..to], sequence)
  {
    LastOf(v, Some(After(sequence)), was, skip, again);
    if Meets(was, v.log[from..to]) { MeetFallsAmong(v.log, was, sequence, from, to); }
    if FallsAmong(was, v.log[from..to], sequence) { FallenMeets(v, sequence, was, skip, again, from, to); }
  }

  lemma FallenMeets(v: View, sequence: nat, was: seq<Record>, skip: nat, again: bool, from: nat, to: nat)
    requires Tiled(v, Some(After(sequence)), was, skip, again) && InLine(v.log) && v.oldest <= from <= to <= |v.log|
    requires Ascending(was) && EndsWith(was, sequence) && FallsAmong(was, v.log[from..to], sequence)
    ensures Meets(was, v.log[from..to])
  {
    var cuts := CutsFor(v, Some(After(sequence)), was, skip, again);
    AmongMeets(v, cuts, sequence, from, to);
  }

  lemma {:induction false} FirstPiece(log: seq<Record>, cuts: seq<Stretch>)
    requires Within(log, cuts) && cuts != [] && cuts[0].from < cuts[0].to
    ensures Pieces(log, cuts) != [] && Pieces(log, cuts)[0] == log[cuts[0].from]
  {
    if |cuts| > 1 { FirstPiece(log, cuts[..|cuts| - 1]); }
  }

  lemma RunRewrites(g: Given, s: Live, id: ShardId, opening: Option<Opening>, now: Option<ShardPosition>, was: seq<Record>, written: seq<Record>, skip: nat)
    requires id in s.horizon && Tiled(ViewOf(s, id), Get(g.saved, id), was, skip, g.settings.continueOnExpiry)
    requires Reads(g, s, id, opening, now, written)
    ensures skip == 0 ==> (Meets(was, written) <==> ReachesBack(was, written))
    ensures Ascending(was) ==> (Meets(was, written) <==> StartsBehind(Get(g.saved, id), written) && GetsToFirst(was, written))
  {
    LogInLine(s, id);
    var saved: Option<ShardPosition> := Get(g.saved, id);
    if Unread(saved) {
      NothingBefore(ViewOf(s, id), saved, was, skip, g.settings.continueOnExpiry);
    } else if opening.Some? {
      var o := opening.value;
      if skip == 0 { RewritesWhenBack(ViewOf(s, id), saved, was, g.settings.continueOnExpiry, o.from, o.to); }
      if Ascending(was) {
        RewritesWhenBehind(ViewOf(s, id), saved.value.sequence, was, skip, g.settings.continueOnExpiry, o.from, o.to);
      }
    }
  }

  /** When a run writes a record of a shard again. For a node that started from
      `earliest`: exactly when its first row is no later than some row before.
      While the shard's rows are in order: exactly when it falls back, and gets as
      far as the shard's first row, which for `earliest` it then always does. */
  lemma {:induction false} RewritesIff(settings: Settings, h: History, k: History, g: Given, b: Batch, rows: seq<Row>, summary: Summary, id: ShardId)
    requires Inv(settings, h) && Succeeds(settings, h, k, g, b, rows, summary) && id in k.stream.horizon
    ensures !settings.latest ==> (Rewrites(h, k, id) <==> ReachesBack(Of(h.rows, id), Added(h, k, id)))
    ensures Ascending(Of(h.rows, id)) ==>
      (Rewrites(h, k, id) <==> FallsBack(h, k, id) && GetsToFirst(Of(h.rows, id), Added(h, k, id)))
    ensures Ascending(Of(h.rows, id)) && !settings.latest ==> (Rewrites(h, k, id) <==> FallsBack(h, k, id))
  {
    SuccessRows(settings, h, k, g, b, rows, summary, id);
    AddedIs(h, k, id, Of(rows, id));
    OneRewrites(settings, h, g, k.stream, b, rows, id);
  }

  lemma {:induction false} OneRewrites(settings: Settings, h: History, g: Given, s: Live, b: Batch, rows: seq<Row>, id: ShardId)
    requires Inv(settings, h) && Grows(h.stream, s) && id in s.horizon && g.saved == Saved(h) && g.settings == settings
    requires Reads(g, s, id, Get(b.openings, id), Get(b.positions, id), Of(rows, id))
    ensures var saved, was, written := Get(Saved(h), id), Of(h.rows, id), Of(rows, id);
      && (!settings.latest ==> (Meets(was, written) <==> ReachesBack(was, written)))
      && (Ascending(was) ==> (Meets(was, written) <==> StartsBehind(saved, written) && GetsToFirst(was, written)))
      && (StartsBehind(saved, written) ==> ReachesBack(was, written))
  {
    TiledBeforeRun(settings, h, s, id);
    RunRewrites(g, s, id, Get(b.openings, id), Get(b.positions, id), Of(h.rows, id), Of(rows, id), Skipped(h, id));
    Stands(settings, h, id);
    BehindReachesBack(Get(Saved(h), id), Of(h.rows, id), Of(rows, id));
  }

  lemma BehindReachesBack(saved: Option<ShardPosition>, was: seq<Record>, written: seq<Record>)
    requires StandsAfter(saved, was)
    ensures StartsBehind(saved, written) ==> ReachesBack(was, written)
  {
    if StartsBehind(saved, written) { assert was[|was| - 1] in was; }
  }

  lemma {:induction false} StepDistinct(settings: Settings, h: History, k: History, id: ShardId)
    requires Step(settings, h, k) && Inv(settings, h) && !settings.latest && Ascending(Of(h.rows, id)) && FallsBack(h, k, id)
    ensures Rewrites(h, k, id)
  {
    var g, b, rows, summary :| Succeeds(settings, h, k, g, b, rows, summary);
    SuccessKeeps(settings, h, k, g, b, rows, summary);
    if id !in k.stream.horizon { NewShard(settings, k, id); }
    RewritesIff(settings, h, k, g, b, rows, summary, id);
  }

  lemma {:induction false} RewritesIsTwice(h: History, k: History, id: ShardId)
    requires Rewrites(h, k, id) && Of(h.rows, id) <= Of(k.rows, id)
    ensures !Distinct(Of(k.rows, id))
  {
    var was, now := Of(h.rows, id), Of(k.rows, id);
    var record :| record in was && record in Added(h, k, id);
    var a :| 0 <= a < |was| && was[a] == record;
    var c :| 0 <= c < |now| - |was| && now[|was|..][c] == record;
    assert now[a] == now[|was| + c];
  }

  lemma {:induction false} StepPrefix(settings: Settings, h: History, k: History, id: ShardId)
    requires Step(settings, h, k)
    ensures Of(h.rows, id) <= Of(k.rows, id)
  {
    if k.rows != h.rows {
      var g, b, rows, summary :| Succeeds(settings, h, k, g, b, rows, summary);
      SuccessPrefix(settings, h, k, g, b, rows, summary, id);
    }
  }

  /** From `earliest`, no record is written twice over a whole life if and only if
      no run fell back. */
  lemma {:induction false} DistinctIff(settings: Settings, life: seq<History>, i: nat, id: ShardId)
    requires Life(settings, life) && i < |life| && !settings.latest
    ensures Distinct(Of(life[i].rows, id)) <==> !FellBack(life, i, id)
  {
    AscendingIff(settings, life, i, id);
    if Ascending(Of(life[i].rows, id)) {
      AscendingDistinct(Of(life[i].rows, id));
    } else if i > 0 && Distinct(Of(life[i].rows, id)) {
      StepPrefix(settings, life[i - 1], life[i], id);
      PrefixDistinct(Of(life[i - 1].rows, id), Of(life[i].rows, id));
      DistinctIff(settings, life, i - 1, id);
      AscendingIff(settings, life, i - 1, id);
      LifeHolds(settings, life, i - 1);
      DistinctStep(settings, life[i - 1], life[i], id);
      FellBackLater(life, i, id);
    }
  }

  lemma AscendingDistinct(records: seq<Record>)
    requires Ascending(records)
    ensures Distinct(records)
  {
  }

  lemma PrefixDistinct(a: seq<Record>, b: seq<Record>)
    requires a <= b && Distinct(b)
    ensures Distinct(a)
  {
  }

  lemma {:induction false} DistinctStep(settings: Settings, h: History, k: History, id: ShardId)
    requires Step(settings, h, k) && Inv(settings, h) && !settings.latest && Ascending(Of(h.rows, id)) && Distinct(Of(k.rows, id))
    ensures !FallsBack(h, k, id)
  {
    if FallsBack(h, k, id) {
      StepDistinct(settings, h, k, id);
      StepPrefix(settings, h, k, id);
      RewritesIsTwice(h, k, id);
    }
  }

  // -------------------------------------------------------------------------
  // From `earliest`
  // -------------------------------------------------------------------------

  /** Whatever expired and however often a run fell back: of the records a shard
      still holds, those before its position were all written, save the ones a
      `latest` first run skipped. */
  lemma {:induction false} NoneMissed(settings: Settings, life: seq<History>, i: nat, id: ShardId, q: nat, j: nat)
    requires Life(settings, life) && i < |life| && id in life[i].stream.parents && j < |Log(life[i].stream, id)|
    requires Get(Saved(life[i]), id) == Some(Done) || (Get(Saved(life[i]), id) == Some(After(q)) && Log(life[i].stream, id)[j].sequence <= q)
    requires j >= Max(life[i].stream.horizon[id], Skipped(life[i], id))
    ensures Log(life[i].stream, id)[j] in Of(life[i].rows, id)
  {
    var cuts := RowsAreStretches(settings, life, i, id);
    LogInLine(life[i].stream, id);
    HeldWasWritten(ViewOf(life[i].stream, id), cuts, |cuts| - 1, j);
  }

  /** With nothing expired and no run falling back, the rows of a node that
      started from `earliest` are all of a shard's records up to its saved
      position, and for a finished shard all it ever held. */
  lemma {:induction false} EarliestReadsAll(settings: Settings, life: seq<History>, i: nat, id: ShardId) returns (n: nat)
    requires Life(settings, life) && i < |life| && id in life[i].stream.parents
    requires !settings.latest && life[i].stream.horizon[id] == 0 && !FellBack(life, i, id)
    ensures n <= |Log(life[i].stream, id)| && Of(life[i].rows, id) == Log(life[i].stream, id)[..n]
    ensures Get(Saved(life[i]), id) == Some(Done) ==> n == |Log(life[i].stream, id)|
    ensures forall q :: Get(Saved(life[i]), id) == Some(After(q)) ==> EndsAt(Log(life[i].stream, id), Stretch(0, n), q)
  {
    LifeHolds(settings, life, i);
    AscendingIff(settings, life, i, id);
    var cuts := RowsAreStretches(settings, life, i, id);
    n := FromTheFirst(ViewOf(life[i].stream, id), Get(Saved(life[i]), id), Of(life[i].rows, id), settings.continueOnExpiry, cuts);
  }

  /** Stretches that all begin with the first record, in order, are one. */
  lemma FromTheFirst(v: View, now: Option<ShardPosition>, written: seq<Record>, again: bool, cuts: seq<Stretch>) returns (n: nat)
    requires Cut(v, now, written, 0, again, cuts) && v.oldest == 0 && Ascending(written)
    ensures n <= |v.log| && written == v.log[..n]
    ensures now == Some(Done) ==> n == |v.log|
    ensures forall q :: now == Some(After(q)) ==> EndsAt(v.log, Stretch(0, n), q)
  {
    if |cuts| > 1 && cuts[|cuts| - 1].from < cuts[|cuts| - 1].to { FirstTwice(v.log, cuts); }
    var from;
    from, n := OnlyPiece(v.log, cuts);
  }

  lemma {:induction false} FirstTwice(log: seq<Record>, cuts: seq<Stretch>)
    requires Within(log, cuts) && |cuts| > 1 && forall c :: 0 <= c < |cuts| ==> 0 == cuts[c].from < cuts[c].to
    ensures !Ascending(Pieces(log, cuts))
  {
    var init := cuts[..|cuts| - 1];
    FirstPiece(log, init);
    assert Pieces(log, cuts)[0] == log[0] && Pieces(log, cuts)[|Pieces(log, init)|] == log[0];
  }

  // -------------------------------------------------------------------------
  // Parents and keys
  // -------------------------------------------------------------------------

  /** A row of a shard comes after every row of every parent of it, and the
      parent is finished, or gone from the stream. */
  lemma ParentsComeFirst(settings: Settings, life: seq<History>, i: nat, r: nat, p: ShardId)
    requires Life(settings, life) && i < |life| && r < |life[i].rows|
    ensures life[i].rows[r].shard in life[i].stream.parents
    ensures p in life[i].stream.parents[life[i].rows[r].shard] ==>
      NoneFrom(life[i].rows, r, p) && (Get(Saved(life[i]), p) == Some(Done) || p !in life[i].stream.listed)
  {
    LifeHolds(settings, life, i);
    var fin := FinOf(life[i]);
    ParentsBefore(OrderOf(life[i], fin), r, p);
  }

  lemma ParentKnown(o: Order, r: nat, p: ShardId)
    requires Ordered(o) && r < |o.rows| && o.rows[r].shard in o.parents && p in o.parents[o.rows[r].shard]
    ensures p in o.parents
  {
    assert AfterParents(o.parents, o.fin, o.rows[r].shard, r);
    assert FinishedBy(o.fin, p, r);
  }

  lemma ParentsBefore(o: Order, r: nat, p: ShardId)
    requires Ordered(o) && r < |o.rows|
    ensures o.rows[r].shard in o.parents
    ensures p in o.parents[o.rows[r].shard] ==> NoneFrom(o.rows, r, p) && (Get(o.positions, p) == Some(Done) || p !in o.listed)
  {
    assert AfterParents(o.parents, o.fin, o.rows[r].shard, r);
    if p in o.parents[o.rows[r].shard] {
      assert FinishedBy(o.fin, p, r);
      assert NoneFrom(o.rows, o.fin[p], p);
    }
  }

  lemma FinOf(h: History) returns (fin: map<ShardId, nat>)
    requires InOrder(h)
    ensures Ordered(OrderOf(h, fin))
  {
    fin :| Ordered(OrderOf(h, fin));
  }

  /** Two rows of one shard are in the order its records were put. */
  lemma {:induction false} SameShardOrder(rows: seq<Row>, i: nat, j: nat)
    requires i < j < |rows| && rows[i].shard == rows[j].shard && Ascending(Of(rows, rows[i].shard))
    ensures rows[i].record.sequence < rows[j].record.sequence
  {
    var id := rows[i].shard;
    var a := PlaceAmong(rows, i);
    var b := PlaceAmong(rows, j);
    OfPrefix(rows[..j], i, id);
    assert rows[..j][..i] == rows[..i] && rows[..j][i] == rows[i];
  }

  lemma {:induction false} OfPrefix(rows: seq<Row>, i: nat, id: ShardId)
    requires i < |rows| && rows[i].shard == id
    ensures |Of(rows[..i], id)| < |Of(rows, id)| && Of(rows, id)[|Of(rows[..i], id)|] == rows[i].record
  {
    var one, rest := rows[i..i + 1], rows[i + 1..];
    assert rows == rows[..i] + one + rest;
    OfConcat(rows[..i] + one, rest, id);
    OfConcat(rows[..i], one, id);
    assert one == [rows[i]] && one[..0] == [];
    assert Of(one, id) == [rows[i].record];
  }

  lemma {:induction false} PlaceAmong(rows: seq<Row>, i: nat) returns (a: nat)
    requires i < |rows|
    ensures a == |Of(rows[..i], rows[i].shard)| < |Of(rows, rows[i].shard)|
    ensures Of(rows, rows[i].shard)[a] == rows[i].record
  {
    OfPrefix(rows, i, rows[i].shard);
    a := |Of(rows[..i], rows[i].shard)|;
  }

  /** A row is a record that was put, into the shard the row names. */
  lemma RowWasPut(settings: Settings, h: History, r: nat)
    requires TiledAll(settings, h) && r < |h.rows|
    ensures WasPut(h.stream, h.rows[r])
  {
    var id := h.rows[r].shard;
    var a := PlaceAmong(h.rows, r);
    var cuts := CutsOf(settings, h, id);
    var c, at := PiecesMember(Log(h.stream, id), cuts, a);
    OfMember(h.stream.puts, id, at);
  }

  /** Of two rows with one key the first was put first, however shards were split
      and merged, unless both are of a shard on which a run fell back. */
  lemma {:induction false} KeysStayInOrder(settings: Settings, life: seq<History>, n: nat, i: nat, j: nat)
    requires Life(settings, life) && n < |life| && i < j < |life[n].rows|
    requires life[n].rows[i].record.key == life[n].rows[j].record.key
    ensures
      || life[n].rows[i].record.sequence < life[n].rows[j].record.sequence
      || (life[n].rows[i].shard == life[n].rows[j].shard && FellBack(life, n, life[n].rows[i].shard))
  {
    LifeHolds(settings, life, n);
    var id := life[n].rows[i].shard;
    if life[n].rows[j].shard == id {
      AscendingIff(settings, life, n, id);
      if !FellBack(life, n, id) { SameShardOrder(life[n].rows, i, j); }
    } else {
      DescentInOrder(settings, life[n], i, j);
    }
  }

  /** And so always for a node that stops when its position expired. */
  lemma {:induction false} StopKeepsKeyOrder(settings: Settings, life: seq<History>, n: nat, i: nat, j: nat)
    requires Life(settings, life) && n < |life| && i < j < |life[n].rows| && !settings.continueOnExpiry
    requires life[n].rows[i].record.key == life[n].rows[j].record.key
    ensures life[n].rows[i].record.sequence < life[n].rows[j].record.sequence
  {
    KeysStayInOrder(settings, life, n, i, j);
    StopNeverFallsBack(settings, life, n, life[n].rows[i].shard);
  }

  lemma DescentInOrder(settings: Settings, h: History, i: nat, j: nat)
    requires TiledAll(settings, h) && InOrder(h) && i < j < |h.rows|
    requires h.rows[i].record.key == h.rows[j].record.key && h.rows[i].shard != h.rows[j].shard
    ensures h.rows[i].record.sequence < h.rows[j].record.sequence
  {
    RowWasPut(settings, h, i);
    RowWasPut(settings, h, j);
    NotBefore(h, i, j);
  }

  ghost predicate WasPut(s: Stream, row: Row) {
    row.record.sequence < |s.puts| && s.puts[row.record.sequence] == row
  }

  lemma NotBefore(h: History, i: nat, j: nat)
    requires InOrder(h) && i < j < |h.rows| && WasPut(h.stream, h.rows[i]) && WasPut(h.stream, h.rows[j])
    requires h.rows[i].record.key == h.rows[j].record.key && h.rows[i].shard != h.rows[j].shard
    ensures h.rows[i].record.sequence < h.rows[j].record.sequence
  {
    if h.rows[j].record.sequence < h.rows[i].record.sequence {
      EarlierIsAncestor(h.stream, h.rows[j], h.rows[i]);
      NoneAfterDescendant(h, h.rows[j].shard, i);
    }
  }

  lemma NoneAfterDescendant(h: History, a: ShardId, r: nat)
    requires InOrder(h) && r < |h.rows| && Ancestor(h.stream.parents, a, h.rows[r].shard) && a != h.rows[r].shard
    ensures NoneFrom(h.rows, r, a)
  {
    var fin := FinOf(h);
    AncestorBefore(OrderOf(h, fin), a, r);
  }

  lemma EarlierIsAncestor(s: Live, a: Row, b: Row)
    requires WasPut(s, a) && WasPut(s, b) && a.record.sequence < b.record.sequence && a.record.key == b.record.key
    ensures Ancestor(s.parents, a.shard, b.shard)
  {
    assert KeyRouted(s, a.record.key);
  }

  lemma AncestorBefore(o: Order, a: ShardId, r: nat)
    requires Ordered(o) && r < |o.rows| && Ancestor(o.parents, a, o.rows[r].shard) && a != o.rows[r].shard
    ensures NoneFrom(o.rows, r, a)
  {
    var path :| Joins(path, a, o.rows[r].shard) && Descends(o.parents, path);
    LineAt(o, path, r, 0);
    assert NoneFrom(o.rows, o.fin[a], a);
  }

  // -------------------------------------------------------------------------
  // A first run with `latest`
  // -------------------------------------------------------------------------

  /** A successful first run with `latest` opened the shard. */
  ghost predicate OpensFromNow(settings: Settings, h: History, k: History, id: ShardId) {
    settings.latest && exists g, b, rows, summary ::
      && Succeeds(settings, h, k, g, b, rows, summary)
      && g.first && id in b.openings && b.openings[id].how == FromNow
  }

  ghost predicate OpenedAt(settings: Settings, life: seq<History>, j: nat, id: ShardId) {
    0 < j < |life| && OpensFromNow(settings, life[j - 1], life[j], id)
  }

  ghost predicate OpenedFromNow(settings: Settings, life: seq<History>, i: nat, id: ShardId) {
    exists j: nat :: j <= i && OpenedAt(settings, life, j, id)
  }

  lemma OpenedLater(settings: Settings, life: seq<History>, i: nat, id: ShardId)
    requires 0 < i < |life|
    ensures OpenedFromNow(settings, life, i - 1, id) || OpensFromNow(settings, life[i - 1], life[i], id) ==> OpenedFromNow(settings, life, i, id)
  {
    if OpensFromNow(settings, life[i - 1], life[i], id) { assert OpenedAt(settings, life, i, id); }
  }

  /** Nothing is skipped of a shard that no such run opened: not of a child, say,
      that a later run reads from its first record. */
  lemma {:induction false} SkippedWasOpened(settings: Settings, life: seq<History>, i: nat, id: ShardId)
    requires Life(settings, life) && i < |life|
    ensures id in life[i].skipped ==> OpenedFromNow(settings, life, i, id)
  {
    if i > 0 {
      SkippedWasOpened(settings, life, i - 1, id);
      SkipsWhenOpened(settings, life[i - 1], life[i], id);
      OpenedLater(settings, life, i, id);
    }
  }

  lemma SkipsWhenOpened(settings: Settings, h: History, k: History, id: ShardId)
    requires Step(settings, h, k)
    ensures id in k.skipped ==> id in h.skipped || OpensFromNow(settings, h, k, id)
  {
    if id in k.skipped && id !in h.skipped {
      var g, b, rows, summary :| Succeeds(settings, h, k, g, b, rows, summary);
      assert id in Skips(g, k.stream, b);
      FromNowIsFirst(g, k.stream, b, rows, id);
    }
  }

  /** The next run will read this record, if nothing expires. */
  predicate Ahead(record: Record, saved: Option<ShardPosition>) {
    match saved
    case None => true
    case Some(Start) => true
    case Some(Since(millis)) => record.arrival >= millis
    case Some(After(sequence)) => record.sequence > sequence
    case Some(Done) => false
  }

  /** No record held that arrived since the run started is lost: each was written,
      or is ahead of the position saved. */
  ghost predicate NoneLost(g: Given, s: Stream, id: ShardId, saves: Option<ShardPosition>, written: seq<Record>)
    requires id in s.horizon
  {
    forall j :: s.horizon[id] <= j < |Log(s, id)| && Log(s, id)[j].arrival >= g.started ==>
      Log(s, id)[j] in written || Ahead(Log(s, id)[j], saves)
  }

  /** A `latest` first run starts each shard at the moment it opens it, which for
      a child is after its parents are read. It loses no record that arrived since
      it started exactly when it is to start the shard over, or when none of them
      arrived before it opened the shard. */
  lemma {:induction false} LatestLosesIff(g: Given, s: Live, b: Batch, rows: seq<Row>, id: ShardId)
    requires RunInv(g, s, b, rows) && g.first && g.settings.latest && g.saved == map[]
    requires id in s.horizon && id in b.openings
    ensures NoneLost(g, s, id, Saves(g, b, id), Of(rows, id)) <==>
      || Saves(g, b, id) == Some(Since(g.started))
      || forall j :: s.horizon[id] <= j < b.openings[id].from ==> Log(s, id)[j].arrival < g.started
  {
    assert Reads(g, s, id, Get(b.openings, id), Get(b.positions, id), Of(rows, id));
    LogInLine(s, id);
    ReadOrAhead(Log(s, id), b.openings[id].from, b.openings[id].to, Saves(g, b, id), g.started);
  }

  lemma ReadOrAhead(log: seq<Record>, from: nat, to: nat, saves: Option<ShardPosition>, started: int)
    requires InLine(log) && from <= to <= |log|
    requires
      || (saves == Some(Since(started)) && from == to)
      || (saves == Some(Done) && to == |log|)
      || (from < to && saves == Some(After(log[to - 1].sequence)))
    ensures forall j :: from <= j < |log| && log[j].arrival >= started ==> log[j] in log[from..to] || Ahead(log[j], saves)
    ensures saves == Some(Since(started)) ==> forall j :: 0 <= j < |log| && log[j].arrival >= started ==> Ahead(log[j], saves)
    ensures saves != Some(Since(started)) ==> forall j :: 0 <= j < from ==> log[j] !in log[from..to] && !Ahead(log[j], saves)
  {
    forall j | from <= j < to ensures log[j] in log[from..to] {
      assert log[from..to][j - from] == log[j];
    }
  }

  /** It starts the shard over exactly if it read nothing of it and did not
      finish it. */
  lemma {:induction false} LatestStartsOver(g: Given, s: Live, b: Batch, rows: seq<Row>, id: ShardId)
    requires RunInv(g, s, b, rows) && g.first && g.settings.latest && g.saved == map[]
    requires id in s.horizon && id in b.openings
    ensures Saves(g, b, id) == Some(Since(g.started)) <==> b.openings[id].from == b.openings[id].to && Get(b.positions, id) != Some(Done)
  {
    assert Reads(g, s, id, Get(b.openings, id), Get(b.positions, id), Of(rows, id));
  }
}
