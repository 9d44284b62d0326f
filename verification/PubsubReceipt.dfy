/** `src.queue.pubsub`: what a run pulled is held, extended by a keeper thread,
    and settled once: acknowledged, or given back. */
module PubsubReceipt {
  import opened Common
  import opened PubsubCalls

  type Ids = seq<Item>

  /** What the subscription and the output see. `Hold` is the receipt taking ids
      in, `Keep` the keeper extending some, and `Settle` the join with it. */
  datatype Kind = Hold | Extend | Keep | Row | Settle | Acknowledge | Release

  datatype Event = Event(kind: Kind, ids: Ids, ok: bool)

  /** What a pull answered: messages, each with an id to settle it by, or not. */
  type Messages = seq<Option<Item>>

  /** Events and answers to pulls, in order. */
  datatype Log =
    | Nothing
    | Then(before: Log, event: Event)
    | Answered(before: Log, messages: Messages)

  /** The ids of all successful events of a kind, in order. */
  function Of(log: Log, kind: Kind): Ids {
    match log
    case Nothing => []
    case Then(before, e) => if e.kind == kind && e.ok then Of(before, kind) + e.ids else Of(before, kind)
    case Answered(before, _) => Of(before, kind)
  }

  predicate Has(log: Log, kind: Kind) {
    match log
    case Nothing => false
    case Then(before, e) => e.kind == kind || Has(before, kind)
    case Answered(before, _) => Has(before, kind)
  }

  lemma {:induction false} OfIsHad(log: Log, kind: Kind)
    ensures Of(log, kind) != [] ==> Has(log, kind)
  {
    match log
    case Nothing =>
    case Then(before, _) => OfIsHad(before, kind);
    case Answered(before, _) => OfIsHad(before, kind);
  }

  /** Every message pulled, in order. */
  function Pulled(log: Log): Messages {
    match log
    case Nothing => []
    case Then(before, _) => Pulled(before)
    case Answered(before, messages) => Pulled(before) + messages
  }

  /** What the last pull answered. */
  function LastAnswer(log: Log): Option<Messages> {
    match log
    case Nothing => None
    case Then(before, _) => LastAnswer(before)
    case Answered(_, messages) => Some(messages)
  }

  /** Every message has an id. */
  predicate AllThere(messages: Messages) {
    forall i :: 0 <= i < |messages| ==> messages[i].Some?
  }

  /** The last answer, if one of its messages has no id. */
  function Unheld(log: Log): Messages {
    match log
    case Nothing => []
    case Then(before, _) => Unheld(before)
    case Answered(_, messages) => if AllThere(messages) then [] else messages
  }

  /** All but what the keeper did. */
  function Own(log: Log): Log {
    match log
    case Nothing => Nothing
    case Then(before, e) => if e.kind == Keep then Own(before) else Then(Own(before), e)
    case Answered(before, messages) => Answered(Own(before), messages)
  }

  /** Only the keeper did something in between. */
  predicate Kept(was: Log, now: Log) {
    now == was || (now.Then? && now.event.kind == Keep && Kept(was, now.before))
  }

  lemma {:induction false} KeptKeeps(was: Log, now: Log)
    requires Kept(was, now)
    ensures Own(now) == Own(was)
    ensures forall kind :: kind != Keep ==> Of(now, kind) == Of(was, kind) && Has(now, kind) == Has(was, kind)
  {
    if now != was { KeptKeeps(was, now.before); }
  }

  lemma {:induction false} KeptJoins(a: Log, b: Log, c: Log)
    requires Kept(a, b) && Kept(b, c)
    ensures Kept(a, c)
  {
    if c != b { KeptJoins(a, b, c.before); }
  }

  lemma {:induction false} OwnKeeps(log: Log, kind: Kind)
    requires kind != Keep
    ensures Of(Own(log), kind) == Of(log, kind) && Has(Own(log), kind) == Has(log, kind)
    ensures Pulled(Own(log)) == Pulled(log) && Unheld(Own(log)) == Unheld(log) && LastAnswer(Own(log)) == LastAnswer(log)
  {
    if log != Nothing { OwnKeeps(log.before, kind); }
  }

  /** The keeper could not always extend. */
  predicate Trouble(log: Log) {
    match log
    case Nothing => false
    case Then(before, e) => (e.kind == Keep && !e.ok) || Trouble(before)
    case Answered(before, _) => Trouble(before)
  }

  /** After one call for each of the first `n` chunks, in order; all but perhaps the
      last succeed. */
  function Calls(log: Log, kind: Kind, chunks: seq<Ids>, n: nat, failed: bool): Log
    requires n <= |chunks|
  {
    if n == 0 then log else Then(Calls(log, kind, chunks, n - 1, false), Event(kind, chunks[n - 1], !failed))
  }

  /** After the rows of the first `n` of some messages. */
  function Rows(log: Log, ids: Ids, n: nat): Log
    requires n <= |ids|
  {
    if n == 0 then log else Then(Rows(log, ids, n - 1), Event(Row, [ids[n - 1]], true))
  }

  // -------------------------------------------------------------------------
  // Held before written
  // -------------------------------------------------------------------------

  /** A row was written only once its message was held, and its hold extended to
      the receipt's own deadline; and nothing is settled yet. */
  predicate Proper(own: Log) {
    match own
    case Nothing => true
    case Then(before, e) =>
      && Proper(before) && e.kind in {Hold, Extend, Row}
      && (e.kind == Row ==> forall id :: id in e.ids ==> id in Of(before, Hold) && id in Of(before, Extend))
    case Answered(before, _) => Proper(before)
  }

  /** Messages with these ids. */
  function WithIds(ids: Ids): Messages {
    seq(|ids|, i requires 0 <= i < |ids| => Some(ids[i]))
  }

  lemma WithMore(a: Ids, b: Ids)
    ensures WithIds(a + b) == WithIds(a) + WithIds(b)
  {
  }

  /** What was done until now to hold `ids`: all that was pulled, but for an
      answer with a message that has no id, of which nothing is held. */
  predicate Held(own: Log, ids: Ids) {
    Proper(own) && Of(own, Hold) == ids && Of(own, Row) <= ids && Pulled(own) == WithIds(ids) + Unheld(own)
  }

  lemma {:induction false} HeldExtends(own: Log, ids: Ids, chunks: seq<Ids>, n: nat, failed: bool)
    requires Held(own, ids) && n <= |chunks|
    ensures var more := Calls(own, Extend, chunks, n, failed);
      && Held(more, ids) && Of(more, Row) == Of(own, Row) && Unheld(more) == Unheld(own)
      && (!failed ==> Of(more, Extend) == Of(own, Extend) + Joined(chunks[..n]))
  {
    if n == 0 {
      assert Of(own, Extend) + Joined(chunks[..0]) == Of(own, Extend);
    } else {
      HeldExtends(own, ids, chunks, n - 1, false);
      assert chunks[..n] == chunks[..n - 1] + [chunks[n - 1]];
      JoinedMore(chunks[..n - 1], chunks[n - 1]);
      Assoc(Of(own, Extend), Joined(chunks[..n - 1]), chunks[n - 1]);
    }
  }

  lemma {:induction false} HeldRows(own: Log, ids: Ids, pulled: Ids, n: nat)
    requires Held(own, ids) && n <= |pulled| && Of(own, Row) + pulled == ids
    requires forall id :: id in pulled ==> id in Of(own, Extend)
    ensures var more := Rows(own, pulled, n);
      && Held(more, ids) && Of(more, Row) == Of(own, Row) + pulled[..n] && Unheld(more) == Unheld(own) && Of(more, Extend) == Of(own, Extend)
  {
    if n == 0 {
      assert Of(own, Row) + pulled[..0] == Of(own, Row);
    } else {
      HeldRows(own, ids, pulled, n - 1);
      NextRow(Of(own, Row), pulled, n);
      assert pulled[n - 1] in pulled && pulled[n - 1] in ids;
    }
  }

  lemma NextRow(was: Ids, pulled: Ids, n: nat)
    requires 0 < n <= |pulled|
    ensures was + pulled[..n - 1] + [pulled[n - 1]] == was + pulled[..n] <= was + pulled
    ensures forall id :: id in pulled ==> id in was + pulled
  {
    assert pulled[..n] == pulled[..n - 1] + [pulled[n - 1]];
  }

  // -------------------------------------------------------------------------
  // The receipt
  // -------------------------------------------------------------------------

  /** Why pulling stopped. */
  datatype Stop = Cap | Empty | Waited

  datatype Keeper = Waiting | Extending(left: seq<Ids>) | Gone

  /** The steps to its end, once its channel is closed. */
  function StepsLeft(keeper: Keeper): nat {
    match keeper
    case Gone => 0
    case Waiting => 1
    case Extending(left) => 2 + |left|
  }

  /** One step of the keeper; a round begins when its wait has timed out, and goes
      over all ids held then. */
  predicate KeeperMoves(was: Keeper, now: Keeper, ids: Ids, stopping: bool, timeout: bool, before: Log, after: Log) {
    match was
    case Gone => now.Gone? && after == before
    case Waiting => after == before && now == if stopping then Gone else if timeout then Extending(Chunks(ID_LIMITS, ids)) else Waiting
    case Extending(left) =>
      if left == [] then now.Waiting? && after == before
      else
        && after.Then? && after.before == before && after.event.kind == Keep && after.event.ids == left[0]
        && now == if after.event.ok then Extending(left[1..]) else Waiting
  }

  /** The ids that are there. */
  function Present(messages: Messages): (ids: Ids)
    ensures |ids| <= |messages|
    ensures |ids| == |messages| <==> AllThere(messages)
    ensures AllThere(messages) <==> WithIds(ids) == messages
  {
    if messages == [] then []
    else
      var n := |messages| - 1;
      var ids := Present(messages[..n]);
      if messages[n].Some? then
        WithMore(ids, [messages[n].value]);
        assert messages == messages[..n] + [messages[n]] && WithIds([messages[n].value]) == [messages[n]];
        assert WithIds(ids) == messages[..n] ==> WithIds(ids + [messages[n].value]) == messages;
        ids + [messages[n].value]
      else ids
  }

  function Verb(acknowledge: bool): Kind {
    if acknowledge then Acknowledge else Release
  }

  /** `stopping` is the keeper's channel closed, `trouble` what it notes, and `log`
      what the subscription and the output saw of this receipt. */
  class Receipt {
    var ids: Ids
    var keeper: Keeper
    var stopping: bool
    var trouble: bool
    var settled: bool
    var log: Log
    ghost var asked: nat    // pulls made
    ghost var faults: nat   // of those, of its own calls and of its rows: those that failed

    constructor ()
      ensures Receiving() && CaughtUp() && ids == [] && asked == faults == 0
    {
      ids, keeper, stopping, trouble, settled, log := [], Waiting, false, false, false, Nothing;
      asked, faults := 0, 0;
    }

    /** A call, or a row to decode and write. */
    method Try() returns (ok: bool)
      modifies this`faults
      ensures faults == old(faults) + if ok then 0 else 1
    {
      ok := *;
      if !ok { faults := faults + 1; }
    }

    /** Some answer to a pull, at most as many messages as asked for, which may be
        1000. */
    method Ask(want: nat) returns (r: Option<Messages>)
      requires 0 < want <= 1000
      modifies this`asked, this`faults
      ensures r.Some? ==> |r.value| <= want
      ensures asked == old(asked) + 1 && faults == old(faults) + if r.Some? then 0 else 1
    {
      asked := asked + 1;
      var messages: Messages := *;
      if |messages| <= want { return Some(messages); }
      faults := faults + 1;
      r := None;
    }

    /** What the keeper notes is what happened, and it does not end by itself. */
    ghost predicate Noted()
      reads this
    {
      (trouble <==> Trouble(log)) && (keeper.Gone? ==> stopping)
    }

    /** One step of the keeper's thread, while it is there: its wait times out and
        it copies the ids, or ends as the channel is closed; or it extends some. */
    method KeeperStep(timeout: bool)
      requires Noted()
      modifies this`keeper, this`trouble, this`log
      ensures Noted() && Kept(old(log), log)
      ensures KeeperMoves(old(keeper), keeper, ids, stopping, timeout, old(log), log)
      ensures stopping && !old(keeper).Gone? ==> StepsLeft(keeper) < StepsLeft(old(keeper))
    {
      match keeper
      case Gone =>
      case Waiting =>
        if stopping { keeper := Gone; return; }
        if timeout {
          var chunks := IdChunks(ids);
          keeper := Extending(chunks);
        }
      case Extending(left) =>
        if left == [] { keeper := Waiting; return; }
        var ok: bool := *;
        log := Then(log, Event(Keep, left[0], ok));
        if ok {
          keeper := Extending(left[1..]);
        } else {
          // The first failure ends this round.
          trouble := true;
          keeper := Waiting;
        }
    }

    /** The keeper's thread runs on while another step is taken. */
    method Meanwhile()
      requires Noted()
      modifies this`keeper, this`trouble, this`log
      ensures Noted() && Kept(old(log), log)
      ensures old(keeper).Gone? ==> keeper.Gone? && log == old(log)
      ensures keeper.Gone? ==> old(keeper).Gone? || stopping
    {
      var steps: int := *;
      for k := 0 to Max(0, steps)
        invariant Noted() && Kept(old(log), log)
        invariant old(keeper).Gone? ==> keeper.Gone? && log == old(log)
      {
        ghost var was := log;
        var timeout: bool := *;
        KeeperStep(timeout);
        KeptJoins(old(log), was, log);
      }
    }

    /** Stop the keeper and wait for its thread: it finishes the round it is in. */
    method StopKeeper()
      requires Noted()
      modifies this`keeper, this`trouble, this`log, this`stopping
      ensures Noted() && Kept(old(log), log) && keeper.Gone?
    {
      stopping := true;
      while !keeper.Gone?
        invariant stopping && Noted() && Kept(old(log), log)
        decreases StepsLeft(keeper)
      {
        ghost var was := log;
        KeeperStep(false);
        KeptJoins(old(log), was, log);
      }
    }

    /** Something the receipt itself does, and what the keeper does meanwhile. */
    method Note(kind: Kind, some: Ids, ok: bool)
      requires kind != Keep && Noted()
      modifies this`keeper, this`trouble, this`log
      ensures Noted() && Own(log) == Then(Own(old(log)), Event(kind, some, ok))
      ensures old(keeper).Gone? ==> keeper.Gone? && log == Then(old(log), Event(kind, some, ok))
    {
      log := Then(log, Event(kind, some, ok));
      ghost var was := log;
      Meanwhile();
      KeptKeeps(was, log);
    }

    /** A call for each of some chunks, until one fails. */
    method CallEach(kind: Kind, chunks: seq<Ids>) returns (ok: bool, n: nat)
      requires kind != Keep && Noted() && forall c :: 0 <= c < |chunks| ==> chunks[c] != [] && Fits(ID_LIMITS, chunks[c])
      modifies this`keeper, this`trouble, this`log, this`faults
      ensures faults == old(faults) + if ok then 0 else 1
      ensures Noted() && n <= |chunks| && (if ok then n == |chunks| else n > 0)
      ensures Own(log) == Calls(Own(old(log)), kind, chunks, n, !ok)
      ensures old(keeper).Gone? ==> keeper.Gone? && log == Calls(old(log), kind, chunks, n, !ok)
    {
      ok, n := true, 0;
      for c := 0 to |chunks|
        invariant n == c && ok && faults == old(faults) && Noted() && Own(log) == Calls(Own(old(log)), kind, chunks, c, false)
        invariant old(keeper).Gone? ==> keeper.Gone? && log == Calls(old(log), kind, chunks, c, false)
      {
        if kind == Release {
          // Setting a deadline cuts the ids again, which changes nothing.
          var again := IdChunks(chunks[c]);
          OneChunk(ID_LIMITS, chunks[c]);
          assert again == [chunks[c]];
        }
        ok := Try();
        Note(kind, chunks[c], ok);
        n := c + 1;
        if !ok { return; }
      }
    }

    // -----------------------------------------------------------------------
    // Pulling
    // -----------------------------------------------------------------------

    /** While pulling: what is held, and that rows came after. */
    ghost predicate Receiving()
      reads this
    {
      !settled && !stopping && Noted() && Held(Own(log), ids)
    }

    /** Every message pulled is held and its row is written. */
    ghost predicate CaughtUp()
      reads this
    {
      Of(Own(log), Row) == ids && Unheld(Own(log)) == []
    }

    /** A pull answers, and the keeper goes on meanwhile. */
    method Pull(messages: Messages)
      requires Noted()
      modifies this`keeper, this`trouble, this`log
      ensures Noted() && Own(log) == Answered(Own(old(log)), messages)
    {
      log := Answered(log, messages);
      ghost var was := log;
      Meanwhile();
      KeptKeeps(was, log);
    }

    /** Take what was pulled in. */
    method HoldAll(messages: Messages, pulled: Ids)
      requires Receiving() && CaughtUp() && WithIds(pulled) == messages
      modifies this`keeper, this`trouble, this`log, this`ids
      ensures Receiving() && ids == old(ids) + pulled && Unheld(Own(log)) == [] && Of(Own(log), Row) == old(ids)
    {
      Pull(messages);
      WithMore(ids, pulled);
      ids := ids + pulled;
      Note(Hold, pulled, true);
    }

    /** Extend the deadlines to the receipt's own. */
    method ExtendAll(pulled: Ids) returns (ok: bool)
      requires Receiving()
      modifies this`keeper, this`trouble, this`log, this`faults
      ensures faults == old(faults) + if ok then 0 else 1
      ensures Receiving() && Unheld(Own(log)) == old(Unheld(Own(log))) && Of(Own(log), Row) == old(Of(Own(log), Row))
      ensures ok ==> forall id :: id in pulled ==> id in Of(Own(log), Extend)
    {
      var chunks := IdChunks(pulled);
      ChunksCarryAll(ID_LIMITS, pulled);
      var n;
      ok, n := CallEach(Extend, chunks);
      HeldExtends(Own(old(log)), ids, chunks, n, !ok);
      assert chunks[..|chunks|] == chunks;
    }

    /** Write the rows of what was pulled, until one will not decode or be
        written. */
    method WriteAll(pulled: Ids) returns (ok: bool)
      requires Receiving() && Of(Own(log), Row) + pulled == ids && Unheld(Own(log)) == []
      requires forall id :: id in pulled ==> id in Of(Own(log), Extend)
      modifies this`keeper, this`trouble, this`log, this`faults
      ensures faults == old(faults) + if ok then 0 else 1
      ensures Receiving() && Unheld(Own(log)) == [] && (ok ==> CaughtUp())
    {
      for n := 0 to |pulled|
        invariant Noted() && Own(log) == Rows(Own(old(log)), pulled, n) && faults == old(faults)
      {
        ok := Try();
        if !ok {
          HeldRows(Own(old(log)), ids, pulled, n);
          return;
        }
        Note(Row, [pulled[n]], true);
      }
      HeldRows(Own(old(log)), ids, pulled, |pulled|);
      assert pulled[..|pulled|] == pulled;
      ok := true;
    }

    /** One pull. A message without an id fails the run, and none of its answer is
        held. */
    method PullOnce(max: nat) returns (ok: bool, empty: bool)
      requires Receiving() && CaughtUp() && |ids| < max
      modifies this`keeper, this`trouble, this`log, this`ids, this`asked, this`faults
      ensures asked == old(asked) + 1 && faults <= old(faults) + 1 && (ok ==> faults == old(faults))
      ensures !ok ==> faults > old(faults) || Unheld(Own(log)) != []
      ensures Receiving() && |ids| <= max
      ensures Unheld(Own(log)) != [] ==> ids == old(ids) && !ok
      ensures ok ==> CaughtUp() && (if empty then ids == old(ids) else |ids| > |old(ids)|)
      ensures ok && empty ==> LastAnswer(Own(log)) == Some([])
    {
      ok, empty := false, false;
      var messages := Ask(Min(max - |ids|, 1000));
      if messages.None? { return; }
      if messages.value == [] {
        Pull([]);
        return true, true;
      }
      var pulled := Present(messages.value);
      if |pulled| < |messages.value| {
        Pull(messages.value);
        return;
      }
      HoldAll(messages.value, pulled);
      ok := ExtendAll(pulled);
      if !ok { return; }
      ok := WriteAll(pulled);
    }

    /** Pull until there is nothing more, the cap, or the time is up, which is enough
        for `time` pulls. */
    method Receive(max: nat, time: nat) returns (ok: bool, stop: Stop)
      requires Receiving() && CaughtUp() && ids == []
      modifies this`keeper, this`trouble, this`log, this`ids, this`asked, this`faults
      ensures Receiving() && |ids| <= max && asked <= old(asked) + time
      ensures ok ==> CaughtUp() && faults == old(faults)
      ensures !ok ==> faults > old(faults) || Unheld(Own(log)) != []
      ensures ok && stop.Cap? ==> |ids| == max
      ensures ok && stop.Empty? ==> LastAnswer(Own(log)) == Some([]) && |ids| < max
      ensures ok && stop.Waited? ==> |ids| < max && asked == old(asked) + time
    {
      ok, stop := true, Cap;
      var pulls: nat := 0;
      while |ids| < max
        invariant Receiving() && CaughtUp() && |ids| <= max && ok
        invariant asked == old(asked) + pulls && pulls <= time && faults == old(faults)
        decreases max - |ids|
      {
        if pulls == time { return true, Waited; }
        pulls := pulls + 1;
        var empty;
        ok, empty := PullOnce(max);
        if !ok || empty { return ok, Empty; }
      }
    }

    // -----------------------------------------------------------------------
    // Settling
    // -----------------------------------------------------------------------

    /** Stop the keeper, then settle all that is held one way, a call at a
        time, until one fails. `kept` is the log when the keeper was gone. */
    method Settling(acknowledge: bool) returns (ok: bool, kept: Log, n: nat)
      requires Noted()
      modifies this
      ensures settled && keeper.Gone? && ids == [] && Noted()
      ensures Kept(old(log), kept) && n <= |Chunks(ID_LIMITS, old(ids))|
      ensures if ok then n == |Chunks(ID_LIMITS, old(ids))| else n > 0
      ensures log == Calls(Then(kept, Event(Settle, [], true)), Verb(acknowledge), Chunks(ID_LIMITS, old(ids)), n, !ok)
    {
      settled := true;
      StopKeeper();
      kept := log;
      log := Then(log, Event(Settle, [], true));
      var left := ids;
      ids := [];
      var chunks := IdChunks(left);
      ChunksCarryAll(ID_LIMITS, left);
      ok, n := CallEach(Verb(acknowledge), chunks);
    }

    /** Dropped without being settled, a receipt gives everything back. */
    method Drop() returns (ok: bool, kept: Log, n: nat)
      requires Noted()
      modifies this
      ensures settled && Noted()
      ensures old(settled) ==> ok && n == 0 && log == old(log)
      ensures !old(settled) ==>
                && keeper.Gone? && Kept(old(log), kept) && n <= |Chunks(ID_LIMITS, old(ids))|
                && (if ok then n == |Chunks(ID_LIMITS, old(ids))| else n > 0)
                && log == Calls(Then(kept, Event(Settle, [], true)), Release, Chunks(ID_LIMITS, old(ids)), n, !ok)
    {
      ok, kept, n := true, log, 0;
      if !settled { ok, kept, n := Settling(false); }
    }
  }

  // -------------------------------------------------------------------------
  // A whole run
  // -------------------------------------------------------------------------

  /** How a run ends, once it has pulled: its receipt is settled either way, or
      dropped. */
  datatype Finish = Succeeds | GivesUp | Breaks

  /** Everything a run does: what came before its receipt was settled, and the
      calls that settled it. */
  datatype Trace = Trace(before: Log, verb: Kind, calls: nat, failed: bool)

  function HeldIn(t: Trace): Ids {
    Of(t.before, Hold)
  }

  /** Pulled messages are held, all but an answer with one that has no id; then
      extended, then written; only then is the receipt settled, once, with calls
      for what is held. */
  predicate Sound(t: Trace) {
    && Proper(Own(t.before)) && Of(t.before, Row) <= HeldIn(t)
    && Pulled(t.before) == WithIds(HeldIn(t)) + Unheld(t.before)
    && (t.verb == Acknowledge || t.verb == Release)
    && t.calls <= |Chunks(ID_LIMITS, HeldIn(t))|
    && (if t.failed then t.calls > 0 else t.calls == |Chunks(ID_LIMITS, HeldIn(t))|)
  }

  function Events(t: Trace): Log
    requires t.calls <= |Chunks(ID_LIMITS, HeldIn(t))|
  {
    Calls(Then(t.before, Event(Settle, [], true)), t.verb, Chunks(ID_LIMITS, HeldIn(t)), t.calls, t.failed)
  }

  /** The engine's part of the run. */
  method RestOfRun(r: Receipt)
    requires r.Receiving()
    modifies r
    ensures r.Receiving() && r.ids == old(r.ids) && Own(r.log) == old(Own(r.log))
  {
    r.Meanwhile();
    KeptKeeps(old(r.log), r.log);
  }

  /** The receipt settled, or dropped. */
  method Close(r: Receipt, finish: Finish) returns (ok: bool, t: Trace)
    requires r.Receiving()
    modifies r
    ensures Sound(t) && r.log == Events(t) && t.failed == !ok && HeldIn(t) == old(r.ids)
    ensures t.verb == Acknowledge <==> finish.Succeeds?
    ensures Of(t.before, Row) == old(Of(Own(r.log), Row)) && Unheld(t.before) == old(Unheld(Own(r.log)))
    ensures LastAnswer(t.before) == old(LastAnswer(Own(r.log)))
  {
    var kept, n;
    if finish.Breaks? {
      ok, kept, n := r.Drop();
    } else {
      ok, kept, n := r.Settling(finish.Succeeds?);
    }
    KeptKeeps(old(r.log), kept);
    OwnKeeps(kept, Hold);
    OwnKeeps(kept, Row);
    t := Trace(kept, Verb(finish.Succeeds?), n, !ok);
  }

  /** A run, to the end. One that fails while it pulls drops the receipt, as does
      one that breaks later. */
  method Run(max: nat, time: nat, finish: Finish)
    returns (received: bool, stop: Stop, ok: bool, t: Trace, log: Log, ghost asked: nat, ghost faults: nat)
    ensures Sound(t) && log == Events(t) && t.failed == !ok && |HeldIn(t)| <= max
    ensures t.verb == Acknowledge <==> received && finish.Succeeds?
    ensures received ==> Of(t.before, Row) == HeldIn(t) && Pulled(t.before) == WithIds(HeldIn(t))
    ensures received && stop.Cap? ==> |HeldIn(t)| == max
    ensures received && stop.Empty? ==> LastAnswer(t.before) == Some([])
    ensures received && stop.Waited? ==> asked == time
    ensures if received then faults == 0 else faults > 0 || Unheld(t.before) != []
  {
    var r := new Receipt();
    received, stop := r.Receive(max, time);
    asked, faults := r.asked, r.faults;
    RestOfRun(r);
    ok, t := Close(r, if received then finish else Breaks);
    log := r.log;
  }

  // -------------------------------------------------------------------------
  // What is not held
  // -------------------------------------------------------------------------

  lemma {:induction false} UnheldLacks(log: Log)
    ensures Unheld(log) != [] ==> !AllThere(Unheld(log))
  {
    if log.Then? { UnheldLacks(log.before); }
  }

  /** Everything a run pulled is held exactly when every message of every answer
      had an id. If not, the last answer is not held at all: its messages that
      have an id are neither acknowledged nor given back. */
  lemma HeldIffAllThere(t: Trace)
    requires Sound(t)
    ensures Pulled(t.before) == WithIds(HeldIn(t)) <==> AllThere(Pulled(t.before))
    ensures !AllThere(Pulled(t.before)) ==> Pulled(t.before) == WithIds(HeldIn(t)) + Unheld(t.before) && !AllThere(Unheld(t.before))
  {
    UnheldLacks(t.before);
    var n := |HeldIn(t)|;
    if Unheld(t.before) == [] {
      assert Pulled(t.before) == WithIds(HeldIn(t));
    } else {
      var i :| 0 <= i < |Unheld(t.before)| && Unheld(t.before)[i].None?;
      assert Pulled(t.before)[n + i].None?;
    }
  }

  /** One answer of two messages, the second without an id: the first, which has
      one, is not held. */
  lemma OneLacks(item: Item)
    ensures var t := Trace(Answered(Nothing, [Some(item), None]), Release, 0, false);
      Sound(t) && HeldIn(t) == [] && Some(item) in Pulled(t.before) && Events(t) == Then(t.before, Event(Settle, [], true))
  {
    var messages: Messages := [Some(item), None];
    assert !AllThere(messages) by { assert messages[1].None?; }
    AfterAnswer(Nothing, messages);
    LastLacks(Nothing, messages);
    assert messages[0] == Some(item) && [] + messages == messages && WithIds([]) + messages == messages;
    assert Chunks(ID_LIMITS, []) == [];
  }

  // -------------------------------------------------------------------------
  // What settling comes to
  // -------------------------------------------------------------------------

  lemma {:induction false} OfCalls(log: Log, kind: Kind, chunks: seq<Ids>, n: nat, failed: bool)
    requires n <= |chunks| && (failed ==> n > 0)
    ensures Of(Calls(log, kind, chunks, n, failed), kind) == Of(log, kind) + Joined(chunks[..if failed then n - 1 else n])
    ensures forall other :: other != kind ==>
              Of(Calls(log, kind, chunks, n, failed), other) == Of(log, other) && Has(Calls(log, kind, chunks, n, failed), other) == Has(log, other)
  {
    if n == 0 {
      assert Of(log, kind) + [] == Of(log, kind);
    } else {
      OfCalls(log, kind, chunks, n - 1, false);
      if !failed {
        assert chunks[..n] == chunks[..n - 1] + [chunks[n - 1]];
        JoinedMore(chunks[..n - 1], chunks[n - 1]);
        Assoc(Of(log, kind), Joined(chunks[..n - 1]), chunks[n - 1]);
      }
    }
  }

  lemma {:induction false} NothingSettled(own: Log)
    requires Proper(own)
    ensures !Has(own, Settle) && Of(own, Acknowledge) == [] && Of(own, Release) == []
  {
    if own != Nothing { NothingSettled(own.before); }
  }

  lemma {:induction false} JoinedPrefix(chunks: seq<Ids>, n: nat)
    requires n <= |chunks| && forall c :: 0 <= c < |chunks| ==> chunks[c] != []
    ensures Joined(chunks[..n]) <= Joined(chunks)
    ensures n < |chunks| ==> |Joined(chunks[..n])| < |Joined(chunks)|
  {
    if n > 0 {
      assert chunks[..n][1..] == chunks[1..][..n - 1];
      JoinedPrefix(chunks[1..], n - 1);
    }
  }

  /** Messages are acknowledged only in a run that succeeded, in order and at most
      once each; all of them, if settling says so. */
  lemma AcknowledgedOnce(t: Trace)
    requires Sound(t)
    ensures Of(Events(t), Acknowledge) <= HeldIn(t)
    ensures t.verb != Acknowledge ==> Of(Events(t), Acknowledge) == []
    ensures t.verb == Acknowledge && !t.failed ==> Of(Events(t), Acknowledge) == HeldIn(t)
  {
    var chunks := Chunks(ID_LIMITS, HeldIn(t));
    ChunksCarryAll(ID_LIMITS, HeldIn(t));
    NothingSettled(Own(t.before));
    OwnKeeps(t.before, Acknowledge);
    OfCalls(Then(t.before, Event(Settle, [], true)), t.verb, chunks, t.calls, t.failed);
    var n := if t.failed then t.calls - 1 else t.calls;
    JoinedPrefix(chunks, n);
    assert chunks[..|chunks|] == chunks && [] + Joined(chunks[..n]) == Joined(chunks[..n]);
  }

  /** What settling tried, whether or not the last call succeeded. */
  function Tried(t: Trace): Ids
    requires t.calls <= |Chunks(ID_LIMITS, HeldIn(t))|
  {
    Joined(Chunks(ID_LIMITS, HeldIn(t))[..t.calls])
  }

  /** A run that does not succeed gives back what it holds in as many calls as
      it takes, but a call that fails is the last: giving back is tried for
      everything held exactly when no call before the last one fails. */
  lemma AllTried(t: Trace)
    requires Sound(t)
    ensures Tried(t) <= HeldIn(t)
    ensures Tried(t) == HeldIn(t) <==> !(t.failed && t.calls < |Chunks(ID_LIMITS, HeldIn(t))|)
  {
    var chunks := Chunks(ID_LIMITS, HeldIn(t));
    ChunksCarryAll(ID_LIMITS, HeldIn(t));
    JoinedPrefix(chunks, t.calls);
    assert chunks[..|chunks|] == chunks;
  }

  /** A run that pulled and held these, and whose first call to give them back
      fails. */
  function FailsAtOnce(ids: Ids): Trace {
    Trace(Then(Answered(Nothing, WithIds(ids)), Event(Hold, ids, true)), Release, 1, true)
  }

  lemma {:induction false} FailsAtOnceIsSound(ids: Ids)
    requires ids != []
    ensures Sound(FailsAtOnce(ids)) && HeldIn(FailsAtOnce(ids)) == ids
  {
    var t := FailsAtOnce(ids);
    AfterAnswer(Nothing, WithIds(ids));
    AfterHold(Answered(Nothing, WithIds(ids)), ids);
    assert [] + ids == ids && [] + WithIds(ids) == WithIds(ids) && WithIds(ids) + [] == WithIds(ids);
    ChunksCarryAll(ID_LIMITS, ids);
  }

  lemma {:induction false} AfterAnswer(before: Log, messages: Messages)
    ensures var log := Answered(before, messages);
      && Own(log) == Answered(Own(before), messages) && Pulled(log) == Pulled(before) + messages
      && (AllThere(messages) ==> Unheld(log) == [])
      && (forall kind :: Of(log, kind) == Of(before, kind)) && (Proper(Own(log)) <==> Proper(Own(before)))
  {
  }

  lemma {:induction false} LastLacks(before: Log, messages: Messages)
    ensures !AllThere(messages) ==> Unheld(Answered(before, messages)) == messages
  {
  }

  lemma {:induction false} AfterHold(before: Log, ids: Ids)
    ensures var log := Then(before, Event(Hold, ids, true));
      && Pulled(log) == Pulled(before) && Unheld(log) == Unheld(before) && (Proper(Own(log)) <==> Proper(Own(before)))
      && Of(log, Hold) == Of(before, Hold) + ids && Of(log, Row) == Of(before, Row)
  {
  }

  /** So everything held is sure to be tried exactly when it fits in one call. */
  lemma {:induction false} SureToBeTried(ids: Ids)
    ensures (forall t :: Sound(t) && HeldIn(t) == ids ==> Tried(t) == ids) <==> Fits(ID_LIMITS, ids)
  {
    ChunksCarryAll(ID_LIMITS, ids);
    if Fits(ID_LIMITS, ids) {
      if ids != [] { OneChunk(ID_LIMITS, ids); }
      forall t | Sound(t) && HeldIn(t) == ids ensures Tried(t) == ids {
        AllTried(t);
      }
    } else {
      var t := FailsAtOnce(ids);
      FailsAtOnceIsSound(ids);
      AllTried(t);
      MoreChunks(ids);
      assert Tried(t) != ids;
    }
  }

  lemma {:induction false} MoreChunks(ids: Ids)
    requires !Fits(ID_LIMITS, ids)
    ensures |Chunks(ID_LIMITS, ids)| > 1
  {
    ChunksCarryAll(ID_LIMITS, ids);
    JoinedOne(Chunks(ID_LIMITS, ids));
  }

  lemma {:induction false} JoinedOne(chunks: seq<Ids>)
    ensures |chunks| == 1 ==> Joined(chunks) == chunks[0]
  {
    if |chunks| == 1 { assert Joined(chunks[1..]) == []; }
  }

  /** Settled once, and the keeper does nothing after that. */
  predicate SettledOnce(log: Log, settled: bool) {
    match log
    case Nothing => !settled
    case Then(before, e) =>
      if e.kind == Settle then settled && SettledOnce(before, false)
      else if e.kind == Acknowledge || e.kind == Release then settled && SettledOnce(before, true)
      else if e.kind == Keep then !settled && SettledOnce(before, false)
      else SettledOnce(before, settled)
    case Answered(before, _) => SettledOnce(before, settled)
  }

  lemma {:induction false} NotSettled(log: Log)
    requires Proper(Own(log))
    ensures SettledOnce(log, false)
  {
    if log != Nothing { NotSettled(log.before); }
  }

  lemma {:induction false} SettlesOnce(t: Trace, n: nat, failed: bool)
    requires Sound(t) && n <= t.calls
    ensures SettledOnce(Calls(Then(t.before, Event(Settle, [], true)), t.verb, Chunks(ID_LIMITS, HeldIn(t)), n, failed), true)
  {
    NotSettled(t.before);
    if n > 0 { SettlesOnce(t, n - 1, false); }
  }
}
