/** How Pub/Sub requests are filled: ack ids and messages go out in order, in
    calls of bounded count and size. */
module PubsubCalls {
  import opened Common

  /** An ack id or a message, and the bytes it adds to a request. */
  datatype Item = Item(text: string, size: nat)

  datatype Limits = Limits(count: nat, bytes: nat)

  const ID_LIMITS := Limits(1000, 400_000)

  const PUBLISH_LIMITS := Limits(1000, 10_000_000)

  function Bytes(items: seq<Item>): nat {
    if items == [] then 0 else Bytes(items[..|items| - 1]) + items[|items| - 1].size
  }

  /** One call takes these: a single item always goes. */
  predicate Fits(limits: Limits, items: seq<Item>) {
    |items| <= 1 || (|items| <= limits.count && Bytes(items) <= limits.bytes)
  }

  /** The calls that `chunk`, begun, and the `rest` go in. */
  function Cut(limits: Limits, chunk: seq<Item>, rest: seq<Item>): seq<seq<Item>>
    decreases |rest|
  {
    if rest == [] then if chunk == [] then [] else [chunk]
    else if chunk != [] && !Fits(limits, chunk + [rest[0]]) then [chunk] + Cut(limits, [rest[0]], rest[1..])
    else Cut(limits, chunk + [rest[0]], rest[1..])
  }

  function Chunks(limits: Limits, items: seq<Item>): seq<seq<Item>> {
    Cut(limits, [], items)
  }

  function Joined(chunks: seq<seq<Item>>): seq<Item> {
    if chunks == [] then [] else chunks[0] + Joined(chunks[1..])
  }

  /** One call after another could not have taken one item more. */
  ghost predicate Full(limits: Limits, chunks: seq<seq<Item>>) {
    forall c :: 0 < c < |chunks| ==> chunks[c] != [] && !Fits(limits, chunks[c - 1] + [chunks[c][0]])
  }

  lemma {:induction false} CutCarriesAll(limits: Limits, chunk: seq<Item>, rest: seq<Item>)
    requires Fits(limits, chunk)
    ensures var chunks := Cut(limits, chunk, rest);
      && Joined(chunks) == chunk + rest
      && (forall c :: 0 <= c < |chunks| ==> chunks[c] != [] && Fits(limits, chunks[c]))
      && (chunk != [] ==> chunks != [] && chunk <= chunks[0])
      && Full(limits, chunks)
    decreases |rest|
  {
    if rest == [] {
      assert chunk + rest == chunk;
    } else if chunk != [] && !Fits(limits, chunk + [rest[0]]) {
      CutCarriesAll(limits, [rest[0]], rest[1..]);
      assert [rest[0]] + rest[1..] == rest;
    } else {
      CutCarriesAll(limits, chunk + [rest[0]], rest[1..]);
      assert chunk + [rest[0]] + rest[1..] == chunk + rest;
    }
  }

  /** Nothing is left out, reordered or sent twice; every call is within the
      limits, none is empty, and each is as full as it can be. */
  lemma ChunksCarryAll(limits: Limits, items: seq<Item>)
    ensures var chunks := Chunks(limits, items);
      && Joined(chunks) == items
      && (forall c :: 0 <= c < |chunks| ==> chunks[c] != [] && Fits(limits, chunks[c]))
      && Full(limits, chunks)
  {
    CutCarriesAll(limits, [], items);
    assert [] + items == items;
  }

  lemma {:induction false} FewerFit(limits: Limits, items: seq<Item>, more: seq<Item>)
    requires Fits(limits, items + more)
    ensures Fits(limits, items) && Bytes(items) <= Bytes(items + more)
    decreases |more|
  {
    if more == [] {
      assert items + more == items;
    } else {
      var fewer := more[..|more| - 1];
      assert (items + more)[..|items + more| - 1] == items + fewer;
      if |items + fewer| == 0 { assert items == []; } else { FewerFit(limits, items, fewer); }
    }
  }

  lemma {:induction false} CutNothing(limits: Limits, chunk: seq<Item>, rest: seq<Item>)
    requires chunk + rest != [] && Fits(limits, chunk + rest)
    ensures Cut(limits, chunk, rest) == [chunk + rest]
    decreases |rest|
  {
    if rest == [] {
      assert chunk + rest == chunk;
    } else {
      assert chunk + [rest[0]] + rest[1..] == chunk + rest;
      FewerFit(limits, chunk + [rest[0]], rest[1..]);
      CutNothing(limits, chunk + [rest[0]], rest[1..]);
    }
  }

  /** An id call takes 1000 ids and 400,000 bytes at most, or one id. */
  lemma IdCalls(items: seq<Item>, c: nat)
    requires c < |Chunks(ID_LIMITS, items)| && |Chunks(ID_LIMITS, items)[c]| > 1
    ensures |Chunks(ID_LIMITS, items)[c]| <= 1000 && Bytes(Chunks(ID_LIMITS, items)[c]) <= 400_000
  {
    ChunksCarryAll(ID_LIMITS, items);
  }

  /** What goes in one call is not cut again. */
  lemma OneChunk(limits: Limits, items: seq<Item>)
    requires items != [] && Fits(limits, items)
    ensures Chunks(limits, items) == [items]
  {
    assert [] + items == items;
    CutNothing(limits, [], items);
  }

  lemma {:induction false} FitsMore(limits: Limits, chunk: seq<Item>, item: Item)
    ensures Bytes(chunk + [item]) == Bytes(chunk) + item.size
    ensures Fits(limits, chunk + [item]) <==> chunk == [] || (|chunk| < limits.count && Bytes(chunk) + item.size <= limits.bytes)
  {
    assert (chunk + [item])[..|chunk|] == chunk;
  }

  /** What a pass over the items has cut so far, and what it has yet to cut. */
  ghost predicate CutTo(limits: Limits, items: seq<Item>, index: nat, chunks: seq<seq<Item>>, chunk: seq<Item>) {
    index <= |items| && Chunks(limits, items) == chunks + Cut(limits, chunk, items[index..])
  }

  lemma CutNext(limits: Limits, items: seq<Item>, index: nat, chunks: seq<seq<Item>>, chunk: seq<Item>)
    requires index < |items| && CutTo(limits, items, index, chunks, chunk)
    ensures if chunk != [] && !Fits(limits, chunk + [items[index]]) then CutTo(limits, items, index + 1, chunks + [chunk], [items[index]])
            else CutTo(limits, items, index + 1, chunks, chunk + [items[index]])
  {
    var rest := items[index..];
    assert rest[1..] == items[index + 1..] && rest[0] == items[index];
    assert chunks + ([chunk] + Cut(limits, [rest[0]], rest[1..])) == chunks + [chunk] + Cut(limits, [rest[0]], rest[1..]);
  }

  lemma CutStarts(limits: Limits, items: seq<Item>)
    ensures CutTo(limits, items, 0, [], [])
  {
    assert items[0..] == items && [] + Chunks(limits, items) == Chunks(limits, items);
  }

  lemma CutEnds(limits: Limits, items: seq<Item>, chunks: seq<seq<Item>>, chunk: seq<Item>)
    requires CutTo(limits, items, |items|, chunks, chunk)
    ensures Chunks(limits, items) == if chunk == [] then chunks else chunks + [chunk]
  {
    assert items[|items|..] == [] && chunks + [] == chunks;
  }

  /** A pass over the ids that has come to `index`. */
  ghost predicate Passed(ids: seq<Item>, start: nat, index: nat, chunks: seq<seq<Item>>, bytes: nat) {
    && start <= index <= |ids| && index <= start + ID_LIMITS.count && (index > 0 ==> start < index)
    && bytes == Bytes(ids[start..index]) && CutTo(ID_LIMITS, ids, index, chunks, ids[start..index])
  }

  lemma PassNext(ids: seq<Item>, start: nat, index: nat, chunks: seq<seq<Item>>, bytes: nat)
    requires Passed(ids, start, index, chunks, bytes) && index < |ids|
    ensures var size := ids[index].size;
      if index > start && (index - start == ID_LIMITS.count || bytes + size > ID_LIMITS.bytes)
      then Passed(ids, index, index + 1, chunks + [ids[start..index]], size)
      else Passed(ids, start, index + 1, chunks, bytes + size)
  {
    var chunk := ids[start..index];
    CutNext(ID_LIMITS, ids, index, chunks, chunk);
    FitsMore(ID_LIMITS, chunk, ids[index]);
    FitsMore(ID_LIMITS, [], ids[index]);
    assert [] + [ids[index]] == [ids[index]] == ids[index..index + 1];
    Slices(ids, start, index);
  }

  /** Cut ids into calls, in one pass. */
  method IdChunks(ids: seq<Item>) returns (chunks: seq<seq<Item>>)
    ensures chunks == Chunks(ID_LIMITS, ids)
  {
    chunks := [];
    var start, bytes: nat := 0, 0;
    CutStarts(ID_LIMITS, ids);
    assert ids[0..0] == [];
    for index := 0 to |ids|
      invariant Passed(ids, start, index, chunks, bytes)
    {
      var size := ids[index].size;
      PassNext(ids, start, index, chunks, bytes);
      if index > start && (index - start == ID_LIMITS.count || bytes + size > ID_LIMITS.bytes) {
        chunks := chunks + [ids[start..index]];
        start, bytes := index, 0;
      }
      bytes := bytes + size;
    }
    assert ids[start..] == ids[start..|ids|];
    CutEnds(ID_LIMITS, ids, chunks, ids[start..]);
    if start < |ids| { chunks := chunks + [ids[start..]]; }
  }

  // -------------------------------------------------------------------------
  // Publishing
  // -------------------------------------------------------------------------

  type Call = seq<Item>

  function Copies(call: Call, times: nat): seq<Call> {
    if times == 0 then [] else Copies(call, times - 1) + [call]
  }

  /** Each call as often as it landed, in order. */
  function Repeated(calls: seq<Call>, times: seq<nat>): seq<Call>
    requires |calls| == |times|
  {
    if calls == [] then []
    else
      var n := |calls| - 1;
      Repeated(calls[..n], times[..n]) + Copies(calls[n], times[n])
  }

  /** A topic: the calls that landed, each whole. */
  class Topic {
    var calls: seq<Call>
    ghost var faults: nat   // calls that failed
    const retries: nat

    constructor (retries: nat)
      ensures calls == [] && faults == 0 && this.retries == retries
    {
      calls, faults := [], 0;
      this.retries := retries;
    }

    /** A publish, tried again while it fails. A try may have landed though it
        failed, and a whole call may fail though it landed. */
    method Publish(messages: Call) returns (ok: bool, ghost times: nat)
      requires messages != [] && |messages| <= 1000 && Bytes(messages) <= 10_000_000
      modifies this
      ensures faults == old(faults) + if ok then 0 else 1
      ensures calls == old(calls) + Copies(messages, times)
      ensures times <= retries + 1 && (ok ==> times > 0)
    {
      ok, times := false, 0;
      for attempt := 0 to retries + 1
        invariant times <= attempt && calls == old(calls) + Copies(messages, times) && !ok
        invariant faults == old(faults)
      {
        var landed: bool := *;
        if landed {
          calls := calls + [messages];
          times := times + 1;
        }
        var again: bool := *;
        ok := *;
        ok := ok && landed;
        if ok { return; }
        if !again { break; }
      }
      faults := faults + 1;
    }
  }

  /** One message alone is more than a call takes. */
  predicate Oversize(message: Item) {
    message.size > PUBLISH_LIMITS.bytes
  }

  lemma {:induction false} JoinedMore(chunks: seq<seq<Item>>, chunk: seq<Item>)
    ensures Joined(chunks + [chunk]) == Joined(chunks) + chunk
  {
    if chunks == [] {
      assert [] + [chunk] == [chunk] && [chunk][1..] == [];
    } else {
      assert (chunks + [chunk])[1..] == chunks[1..] + [chunk];
      JoinedMore(chunks[1..], chunk);
    }
  }

  /** What the topic took, after what it had: each call at least once. */
  ghost predicate Took(was: seq<Call>, now: seq<Call>, calls: seq<Call>, times: seq<nat>, messages: seq<Item>) {
    && |calls| == |times| && now == was + Repeated(calls, times) && Joined(calls) == messages
    && forall i :: 0 <= i < |times| ==> times[i] > 0
  }

  lemma {:induction false} RepeatedMore(calls: seq<Call>, times: seq<nat>, call: Call, n: nat)
    requires |calls| == |times|
    ensures Repeated(calls + [call], times + [n]) == Repeated(calls, times) + Copies(call, n)
  {
    assert (calls + [call])[..|calls|] == calls && (times + [n])[..|times|] == times;
  }

  /** One publish. */
  method Send(topic: Topic, batch: Call, ghost was: seq<Call>, ghost calls: seq<Call>, ghost times: seq<nat>, ghost sent: seq<Item>)
    returns (ok: bool, ghost now: seq<nat>)
    requires batch != [] && |batch| <= PUBLISH_LIMITS.count && Bytes(batch) <= PUBLISH_LIMITS.bytes
    requires Took(was, topic.calls, calls, times, sent)
    modifies topic
    ensures topic.faults == old(topic.faults) + if ok then 0 else 1
    ensures |now| == |times| + 1 && times <= now && topic.calls == was + Repeated(calls + [batch], now)
    ensures ok ==> Took(was, topic.calls, calls + [batch], now, sent + batch)
  {
    ghost var landed;
    ok, landed := topic.Publish(batch);
    now := times + [landed];
    RepeatedMore(calls, times, batch, landed);
    JoinedMore(calls, batch);
    Assoc(was, Repeated(calls, times), Copies(batch, landed));
  }

  /** A batch begun after `published` rows, with the first `index` looked at. */
  ghost predicate Batched(rows: seq<Item>, published: nat, index: nat, calls: seq<seq<Item>>, batch: seq<Item>, bytes: nat) {
    && published <= index <= |rows| && (index > 0 ==> batch != [])
    && batch == rows[published..index] && bytes == Bytes(batch) && |batch| <= PUBLISH_LIMITS.count && bytes <= PUBLISH_LIMITS.bytes
    && CutTo(PUBLISH_LIMITS, rows, index, calls, batch)
    && forall i :: 0 <= i < index ==> !Oversize(rows[i])
  }

  lemma BatchNext(rows: seq<Item>, published: nat, index: nat, calls: seq<seq<Item>>, batch: seq<Item>, bytes: nat)
    requires index < |rows| && !Oversize(rows[index]) && Batched(rows, published, index, calls, batch, bytes)
    ensures var size := rows[index].size;
      if |batch| == PUBLISH_LIMITS.count || bytes + size > PUBLISH_LIMITS.bytes
      then batch != [] && rows[..published] + batch == rows[..index] && Batched(rows, index, index + 1, calls + [batch], [rows[index]], size)
      else Batched(rows, published, index + 1, calls, batch + [rows[index]], bytes + size)
  {
    CutNext(PUBLISH_LIMITS, rows, index, calls, batch);
    FitsMore(PUBLISH_LIMITS, batch, rows[index]);
    FitsMore(PUBLISH_LIMITS, [], rows[index]);
    assert [] + [rows[index]] == [rows[index]] == rows[index..index + 1];
    Slices(rows, published, index);
  }

  /** The calls a publish made, the first `done` of them answered, and how often
      each landed. At most one more was made than answered, and then the publish
      failed with it. */
  ghost predicate Sends(rows: seq<Item>, was: seq<Call>, now: seq<Call>, times: seq<nat>, done: nat) {
    var calls := Chunks(PUBLISH_LIMITS, rows);
    && done <= |times| <= done + 1 && |times| <= |calls|
    && now == was + Repeated(calls[..|times|], times)
    && forall i :: 0 <= i < done ==> times[i] > 0
  }

  /** All that was sent has been answered. */
  lemma AllAnswered(rows: seq<Item>, was: seq<Call>, now: seq<Call>, calls: seq<Call>, times: seq<nat>, messages: seq<Item>)
    requires Took(was, now, calls, times, messages) && calls <= Chunks(PUBLISH_LIMITS, rows)
    ensures Sends(rows, was, now, times, |calls|) && Joined(Chunks(PUBLISH_LIMITS, rows)[..|calls|]) == messages
  {
    assert Chunks(PUBLISH_LIMITS, rows)[..|calls|] == calls;
  }

  lemma SomeAnswered(rows: seq<Item>, published: nat, index: nat, was: seq<Call>, now: seq<Call>, calls: seq<Call>, times: seq<nat>,
                     batch: Call, bytes: nat)
    requires Batched(rows, published, index, calls, batch, bytes) && Took(was, now, calls, times, rows[..published])
    ensures Sends(rows, was, now, times, |calls|) && Joined(Chunks(PUBLISH_LIMITS, rows)[..|calls|]) == rows[..published]
  {
    AllAnswered(rows, was, now, calls, times, rows[..published]);
  }

  lemma LastAnswered(rows: seq<Item>, published: nat, was: seq<Call>, now: seq<Call>, calls: seq<Call>, batch: Call, times: seq<nat>)
    requires published <= |rows| && batch == rows[published..|rows|] && Chunks(PUBLISH_LIMITS, rows) == calls + [batch]
    requires Took(was, now, calls + [batch], times, rows[..published] + batch)
    ensures Sends(rows, was, now, times, |calls| + 1) && Joined(Chunks(PUBLISH_LIMITS, rows)[..|calls| + 1]) == rows[..|rows|]
    ensures |times| == |calls| + 1
  {
    Slices(rows, published, |rows|);
    AllAnswered(rows, was, now, calls + [batch], times, rows[..|rows|]);
  }

  /** All but the last call. */
  lemma {:induction false} LastUnanswered(rows: seq<Item>, was: seq<Call>, now: seq<Call>, calls: seq<Call>, batch: Call, times: seq<nat>, messages: seq<Item>)
    requires calls + [batch] <= Chunks(PUBLISH_LIMITS, rows) && |times| == |calls| + 1 && now == was + Repeated(calls + [batch], times)
    requires Joined(calls) == messages && forall i :: 0 <= i < |calls| ==> times[i] > 0
    ensures Sends(rows, was, now, times, |calls|) && Joined(Chunks(PUBLISH_LIMITS, rows)[..|calls|]) == messages
  {
    var all := Chunks(PUBLISH_LIMITS, rows);
    assert all[..|times|] == calls + [batch] && all[..|calls|] == calls;
  }

  /** One more row; the batch goes out first if it would be too much for it. */
  method Add(topic: Topic, rows: seq<Item>, published: nat, index: nat, batch: Call, bytes: nat, ghost calls: seq<Call>, ghost times: seq<nat>, ghost was: seq<Call>)
    returns (ok: bool, now: nat, more: Call, size: nat, ghost done: seq<Call>, ghost landed: seq<nat>)
    requires index < |rows| && !Oversize(rows[index]) && Batched(rows, published, index, calls, batch, bytes)
    requires Took(was, topic.calls, calls, times, rows[..published])
    modifies topic
    ensures topic.faults == old(topic.faults) + if ok then 0 else 1
    ensures now <= |rows| && (ok ==> Took(was, topic.calls, done, landed, rows[..now]))
    ensures ok ==> Batched(rows, now, index + 1, done, more, size)
    ensures !ok ==> |landed| == |calls| + 1
    ensures !ok ==> now == published && Sends(rows, was, topic.calls, landed, |calls|) && Joined(Chunks(PUBLISH_LIMITS, rows)[..|calls|]) == rows[..now]
  {
    ok, now, more, done, landed := true, published, batch, calls, times;
    size := bytes;
    BatchNext(rows, published, index, calls, batch, bytes);
    if |batch| == PUBLISH_LIMITS.count || bytes + rows[index].size > PUBLISH_LIMITS.bytes {
      ok, landed := Send(topic, batch, was, calls, times, rows[..published]);
      if !ok {
        LastUnanswered(rows, was, topic.calls, calls, batch, landed, rows[..published]);
        return;
      }
      done, now, more, size := calls + [batch], index, [], 0;
      Assoc([rows[index]], [], []);
    }
    more, size := more + [rows[index]], size + rows[index].size;
  }

  /** Why a publish ended: all rows are sent, the row after them is no message,
      row `row` is too large for any call, or a call failed. */
  datatype Why = Sent | NoMessage | TooLarge(row: nat) | Unanswered

  /** One more row, unless it is too large for any call. */
  method TakeRow(topic: Topic, rows: seq<Item>, published: nat, index: nat, batch: Call, bytes: nat, ghost calls: seq<Call>, ghost times: seq<nat>, ghost was: seq<Call>)
    returns (failed: Option<Why>, now: nat, more: Call, size: nat, ghost done: seq<Call>, ghost landed: seq<nat>)
    requires index < |rows| && Batched(rows, published, index, calls, batch, bytes)
    requires Took(was, topic.calls, calls, times, rows[..published])
    modifies topic
    ensures now <= |rows| && topic.faults == old(topic.faults) + if failed == Some(Unanswered) then 1 else 0
    ensures if failed.None? then Took(was, topic.calls, done, landed, rows[..now]) && Batched(rows, now, index + 1, done, more, size)
            else Failed(rows, was, topic.calls, landed, |done|, now, failed.value)
  {
    if Oversize(rows[index]) {
      SomeAnswered(rows, published, index, was, topic.calls, calls, times, batch, bytes);
      return Some(TooLarge(index)), published, batch, bytes, calls, times;
    }
    var ok;
    ok, now, more, size, done, landed := Add(topic, rows, published, index, batch, bytes, calls, times, was);
    failed := None;
    if !ok { failed, done := Some(Unanswered), calls; }
  }

  /** What a publish that fails before the rows end leaves. */
  ghost predicate Failed(rows: seq<Item>, was: seq<Call>, now: seq<Call>, times: seq<nat>, done: nat, published: nat, why: Why) {
    && Sends(rows, was, now, times, done) && published <= |rows| && Joined(Chunks(PUBLISH_LIMITS, rows)[..done]) == rows[..published]
    && if why == Unanswered then |times| == done + 1 else FirstTooLarge(rows, why) && |times| == done
  }

  lemma Begins(rows: seq<Item>, was: seq<Call>)
    ensures Batched(rows, 0, 0, [], [], 0) && Took(was, was, [], [], rows[..0])
  {
    CutStarts(PUBLISH_LIMITS, rows);
    assert rows[0..0] == [] && was + [] == was;
  }

  /** The rows into batches, each sent when the next row is too much for it. */
  method SendFull(topic: Topic, rows: seq<Item>)
    returns (failed: Option<Why>, published: nat, batch: Call, ghost calls: seq<Call>, ghost times: seq<nat>)
    modifies topic
    ensures published <= |rows| && topic.faults == old(topic.faults) + if failed == Some(Unanswered) then 1 else 0
    ensures if failed.None? then
              Took(old(topic.calls), topic.calls, calls, times, rows[..published]) && Batched(rows, published, |rows|, calls, batch, Bytes(batch))
            else Failed(rows, old(topic.calls), topic.calls, times, |calls|, published, failed.value)
  {
    failed, published, batch, calls, times := None, 0, [], [], [];
    var bytes: nat := 0;
    Begins(rows, topic.calls);
    for index := 0 to |rows|
      invariant Batched(rows, published, index, calls, batch, bytes)
      invariant Took(old(topic.calls), topic.calls, calls, times, rows[..published]) && topic.faults == old(topic.faults)
    {
      failed, published, batch, bytes, calls, times := TakeRow(topic, rows, published, index, batch, bytes, calls, times, old(topic.calls));
      if failed.Some? { return; }
    }
    failed := None;
  }

  predicate FirstTooLarge(rows: seq<Item>, why: Why) {
    why.TooLarge? && why.row < |rows| && rows[why.row].size > 10_000_000 && forall i :: 0 <= i < why.row ==> rows[i].size <= 10_000_000
  }

  /** Every row to the topic, a call at a time; if `broken`, they are followed by
      one that cannot be read or made a message. The result is why it ended, and
      how many messages are reported as published. */
  method Publish(topic: Topic, rows: seq<Item>, broken: bool) returns (why: Why, published: nat, ghost times: seq<nat>, ghost done: nat)
    modifies topic
    ensures Sends(rows, old(topic.calls), topic.calls, times, done)
    ensures published <= |rows| && Joined(Chunks(PUBLISH_LIMITS, rows)[..done]) == rows[..published]
    ensures why.Sent? ==> !broken && published == |rows| && done == |times| == |Chunks(PUBLISH_LIMITS, rows)|
    ensures why.NoMessage? ==> broken && done == |times| && |Chunks(PUBLISH_LIMITS, rows)| <= done + 1
    ensures why.Sent? || why.NoMessage? ==> forall i :: 0 <= i < |rows| ==> rows[i].size <= 10_000_000
    ensures why.TooLarge? ==> FirstTooLarge(rows, why) && done == |times|
    ensures why.Unanswered? ==> |times| == done + 1
    ensures topic.faults == old(topic.faults) + if why.Unanswered? then 1 else 0
  {
    ghost var was := topic.calls;
    var failed, batch;
    ghost var calls;
    failed, published, batch, calls, times := SendFull(topic, rows);
    if failed.Some? { return failed.value, published, times, |calls|; }
    CutEnds(PUBLISH_LIMITS, rows, calls, batch);
    if broken {
      AllAnswered(rows, was, topic.calls, calls, times, rows[..published]);
      return NoMessage, published, times, |calls|;
    }
    var ok;
    ok, published, times, done := Rest(topic, rows, published, batch, was, calls, times);
    why := if ok then Sent else Unanswered;
  }

  /** The last batch, if there is one. */
  method Rest(topic: Topic, rows: seq<Item>, published: nat, batch: Call, ghost was: seq<Call>, ghost calls: seq<Call>, ghost times: seq<nat>)
    returns (ok: bool, now: nat, ghost landed: seq<nat>, ghost done: nat)
    requires |batch| <= PUBLISH_LIMITS.count && Bytes(batch) <= PUBLISH_LIMITS.bytes
    requires Chunks(PUBLISH_LIMITS, rows) == (if batch == [] then calls else calls + [batch]) && published <= |rows| && batch == rows[published..|rows|]
    requires Took(was, topic.calls, calls, times, rows[..published])
    modifies topic
    ensures Sends(rows, was, topic.calls, landed, done)
    ensures now <= |rows| && Joined(Chunks(PUBLISH_LIMITS, rows)[..done]) == rows[..now]
    ensures ok ==> now == |rows| && done == |landed| == |Chunks(PUBLISH_LIMITS, rows)|
    ensures !ok ==> |landed| == done + 1
    ensures topic.faults == old(topic.faults) + if ok then 0 else 1
  {
    if batch == [] {
      AllAnswered(rows, was, topic.calls, calls, times, rows[..published]);
      return true, |rows|, times, |calls|;
    }
    ok, landed := Send(topic, batch, was, calls, times, rows[..published]);
    if ok {
      LastAnswered(rows, published, was, topic.calls, calls, batch, landed);
      now, done := |rows|, |calls| + 1;
    } else {
      LastUnanswered(rows, was, topic.calls, calls, batch, landed, rows[..published]);
      now, done := published, |calls|;
    }
  }

  /** The calls that landed at all, in order. */
  function Landed(calls: seq<Call>, times: seq<nat>): seq<Call>
    requires |calls| == |times|
  {
    if calls == [] then []
    else
      var n := |calls| - 1;
      Landed(calls[..n], times[..n]) + if times[n] > 0 then [calls[n]] else []
  }

  lemma {:induction false} InCopies(call: Call, times: nat, c: Call)
    ensures c in Copies(call, times) <==> times > 0 && c == call
  {
    if times > 0 { InCopies(call, times - 1, c); }
  }

  /** They are those the topic has, at least once. */
  lemma {:induction false} LandedAreThere(calls: seq<Call>, times: seq<nat>, c: Call)
    requires |calls| == |times|
    ensures c in Landed(calls, times) <==> c in Repeated(calls, times)
  {
    if calls != [] {
      var n := |calls| - 1;
      LandedAreThere(calls[..n], times[..n], c);
      InCopies(calls[n], times[n], c);
    }
  }

  lemma {:induction false} AllLanded(calls: seq<Call>, times: seq<nat>)
    requires |calls| == |times| && forall i :: 0 <= i < |times| ==> times[i] > 0
    ensures Landed(calls, times) == calls
  {
    if calls != [] {
      var n := |calls| - 1;
      AllLanded(calls[..n], times[..n]);
      assert calls == calls[..n] + [calls[n]];
    }
  }

  /** Repeats aside, the topic took all that is reported, in order, and nothing
      more but the whole call that failed. */
  lemma {:induction false} ReportedWasTaken(rows: seq<Item>, was: seq<Call>, now: seq<Call>, times: seq<nat>, done: nat)
    requires Sends(rows, was, now, times, done)
    ensures var calls := Chunks(PUBLISH_LIMITS, rows);
      || Landed(calls[..|times|], times) == calls[..done]
      || (|times| == done + 1 && Landed(calls[..|times|], times) == calls[..done + 1])
    ensures now == was + Repeated(Chunks(PUBLISH_LIMITS, rows)[..|times|], times)
    ensures forall c :: c in Landed(Chunks(PUBLISH_LIMITS, rows)[..|times|], times) <==> c in now[|was|..]
  {
    forall c ensures c in Landed(Chunks(PUBLISH_LIMITS, rows)[..|times|], times) <==> c in now[|was|..] {
      LandedAreThere(Chunks(PUBLISH_LIMITS, rows)[..|times|], times, c);
      assert now[|was|..] == Repeated(Chunks(PUBLISH_LIMITS, rows)[..|times|], times);
    }
    var calls := Chunks(PUBLISH_LIMITS, rows);
    AllLanded(calls[..done], times[..done]);
    if |times| == done + 1 {
      assert calls[..|times|][..done] == calls[..done];
      assert calls[..done + 1] == calls[..done] + [calls[done]];
    } else {
      assert times[..done] == times;
    }
  }
}
