/** `snk.stream.kinesis`: rows go out in PutRecords calls, and a record that a call
    refuses for a passing reason goes out with the next. */
module KinesisSink {
  import opened Common

  const PUT_RECORDS_LIMIT := 500
  const PUT_RECORDS_BYTES := 5 * 1024 * 1024
  const RECORD_BYTES := 1024 * 1024
  const KEY_CHARACTERS := 256

  /** A record to put; `row` is the number of its row, from 1. */
  datatype Entry = Entry(row: nat, data: string, key: string)

  /** How many bytes a character takes in UTF-8. */
  function CharBytes(c: char): nat {
    var n := c as int;
    if n < 0x80 then 1 else if n < 0x800 then 2 else if n < 0x1_0000 then 3 else 4
  }

  /** The number of characters that `n` bytes of UTF-8 have the bits for: 7 in one
      byte, else 6 in each after the first, and in the first all that its
      `n + 1` leading bits leave. */
  function Room(n: nat): nat
    requires 1 <= n <= 4
  {
    if n == 1 then Power2(7) else Power2(6 * (n - 1) + 8 - (n + 1))
  }

  function Power2(bits: nat): nat {
    if bits == 0 then 1 else 2 * Power2(bits - 1)
  }

  /** As few bytes as have room for it. */
  lemma FewestBytes(c: char)
    ensures 1 <= CharBytes(c) <= 4 && c as int < Room(CharBytes(c))
    ensures CharBytes(c) > 1 ==> c as int >= Room(CharBytes(c) - 1)
  {
    assert Power2(7) == 0x80;
    assert Power2(11) == 16 * Power2(7);
    assert Power2(16) == 32 * Power2(11);
    assert Power2(21) == 32 * Power2(16);
  }

  function TextBytes(s: string): (n: nat)
    ensures |s| <= n <= 4 * |s|
  {
    if s == "" then 0 else TextBytes(s[..|s| - 1]) + CharBytes(s[|s| - 1])
  }

  lemma {:induction false} TextBytesAdd(a: string, b: string)
    ensures TextBytes(a + b) == TextBytes(a) + TextBytes(b)
    ensures forall c :: TextBytes([c]) == CharBytes(c)
  {
    if b == "" {
      assert a + b == a;
    } else {
      var n := |b| - 1;
      assert (a + b)[..|a| + n] == a + b[..n] && (a + b)[|a| + n] == b[n];
      TextBytesAdd(a, b[..n]);
    }
    forall c ensures TextBytes([c]) == CharBytes(c) {
      assert [c][..0] == "";
    }
  }

  function Size(e: Entry): nat {
    TextBytes(e.data) + TextBytes(e.key)
  }

  function Bytes(entries: seq<Entry>): nat {
    if entries == [] then 0 else Bytes(entries[..|entries| - 1]) + Size(entries[|entries| - 1])
  }

  /** All their data and all their keys count. */
  lemma {:induction false} BytesAdd(a: seq<Entry>, b: seq<Entry>)
    ensures Bytes(a + b) == Bytes(a) + Bytes(b)
    ensures forall e :: Bytes([e]) == TextBytes(e.data + e.key)
  {
    if b == [] {
      assert a + b == a;
    } else {
      var n := |b| - 1;
      assert (a + b)[..|a| + n] == a + b[..n] && (a + b)[|a| + n] == b[n];
      BytesAdd(a, b[..n]);
    }
    forall e ensures Bytes([e]) == TextBytes(e.data + e.key) {
      assert [e][..0] == [];
      TextBytesAdd(e.data, e.key);
    }
  }

  /** What PutRecords says of one record. */
  datatype Verdict = Put | Refused(code: string)

  predicate Resendable(code: string) {
    code == "ProvisionedThroughputExceededException" || code == "InternalFailure" || code == "KMSThrottlingException"
  }

  /** The records of a call that were put, and those that were refused. */
  function Taken(entries: seq<Entry>, verdicts: seq<Verdict>): seq<Entry>
    requires |entries| == |verdicts|
  {
    if entries == [] then []
    else
      var n := |entries| - 1;
      Taken(entries[..n], verdicts[..n]) + if verdicts[n].Put? then [entries[n]] else []
  }

  function Left(entries: seq<Entry>, verdicts: seq<Verdict>): seq<Entry>
    requires |entries| == |verdicts|
  {
    if entries == [] then []
    else
      var n := |entries| - 1;
      Left(entries[..n], verdicts[..n]) + if verdicts[n].Put? then [] else [entries[n]]
  }

  /** In the order the rows were read. */
  ghost predicate InOrder(entries: seq<Entry>) {
    forall i, j :: 0 <= i < j < |entries| ==> entries[i].row < entries[j].row
  }

  /** Each record of a call is either put or left. */
  lemma {:induction false} TakenAndLeft(entries: seq<Entry>, verdicts: seq<Verdict>)
    requires |entries| == |verdicts|
    ensures multiset(Taken(entries, verdicts)) + multiset(Left(entries, verdicts)) == multiset(entries)
  {
    if entries != [] {
      var n := |entries| - 1;
      TakenAndLeft(entries[..n], verdicts[..n]);
      assert entries == entries[..n] + [entries[n]];
    }
  }

  lemma {:induction false} LeftIsSmaller(entries: seq<Entry>, verdicts: seq<Verdict>)
    requires |entries| == |verdicts|
    ensures Bytes(Left(entries, verdicts)) <= Bytes(entries) && |Left(entries, verdicts)| <= |entries|
  {
    if entries != [] {
      var n := |entries| - 1;
      LeftIsSmaller(entries[..n], verdicts[..n]);
      var left := Left(entries[..n], verdicts[..n]);
      var longer := left + [entries[n]];
      assert longer[..|longer| - 1] == left && longer[|longer| - 1] == entries[n];
      assert left + [] == left;
    }
  }

  /** Those left keep their order. */
  lemma {:induction false} LeftInOrder(entries: seq<Entry>, verdicts: seq<Verdict>)
    requires |entries| == |verdicts| && InOrder(entries)
    ensures InOrder(Left(entries, verdicts))
    ensures forall i :: 0 <= i < |Left(entries, verdicts)| ==> Left(entries, verdicts)[i].row <= entries[|entries| - 1].row
  {
    if entries != [] {
      var n := |entries| - 1;
      LeftInOrder(entries[..n], verdicts[..n]);
      if n > 0 { assert entries[n - 1].row < entries[n].row; }
    }
  }

  /** A call that was answered. */
  datatype Call = Call(sent: seq<Entry>, verdicts: seq<Verdict>)

  lemma LandsMore(acknowledged: seq<Entry>, taken: seq<Entry>, landed: multiset<Entry>, more: multiset<Entry>)
    requires multiset(acknowledged) <= landed && multiset(taken) <= more
    ensures multiset(acknowledged + taken) <= landed + more && landed <= landed + more
    ensures acknowledged + [] == acknowledged
  {
  }

  /** Kinesis, on the other end of PutRecords. A call it did not answer, or
      answered for another number of records, may have put any part of them. */
  class Service {
    ghost var calls: seq<Call>           // the calls it answered
    ghost var acknowledged: seq<Entry>   // what it said it put
    ghost var landed: multiset<Entry>    // what it put
    ghost var faults: nat                // the calls it did not answer

    ghost predicate Valid() reads this {
      multiset(acknowledged) <= landed
    }

    constructor ()
      ensures Valid() && calls == [] && acknowledged == [] && faults == 0
    {
      calls, acknowledged, landed, faults := [], [], multiset{}, 0;
    }

    /** Its limits are demanded of every call, and that no call sends again what
        an earlier one acknowledged. */
    method PutRecords(entries: seq<Entry>) returns (answer: Option<seq<Verdict>>)
      requires Valid() && 0 < |entries| <= 500 && Bytes(entries) <= 5_242_880
      requires forall e :: e in entries ==> e !in acknowledged
      modifies this
      ensures Valid() && old(landed) <= landed && faults == old(faults) + if answer.None? then 1 else 0
      ensures calls == if answer.Some? then old(calls) + [Call(entries, answer.value)] else old(calls)
      ensures acknowledged == old(acknowledged) +
        if answer.Some? && |answer.value| == |entries| then Taken(entries, answer.value) else []
      ensures answer.Some? && |answer.value| == |entries| ==> landed == old(landed) + multiset(Taken(entries, answer.value))
    {
      var verdicts: seq<Verdict> := *;
      var answered: bool := *;
      if answered && |verdicts| == |entries| {
        ghost var taken := Taken(entries, verdicts);
        LandsMore(acknowledged, taken, landed, multiset(taken));
        acknowledged, landed := acknowledged + taken, landed + multiset(taken);
      } else {
        ghost var unknown: seq<Entry> := *;
        LandsMore(acknowledged, [], landed, multiset(unknown));
        if multiset(unknown) <= multiset(entries) { landed := landed + multiset(unknown); }
      }
      if answered {
        calls := calls + [Call(entries, verdicts)];
        answer := Some(verdicts);
      } else {
        faults := faults + 1;
        answer := None;
      }
    }
  }

  datatype Settings = Settings(keyColumn: bool, batchSize: nat, retries: nat)

  /** Why a write failed; `before` is the count its message gives. */
  datatype Failure = Failure(why: Why, before: nat)

  datatype Why = Unanswered | Miscounted | NotResendable(row: nat) | StillRefused(row: nat) | BadRow(row: nat) | NoInput

  /** Counts of what was acknowledged, of calls answered, and of records sent
      more than once. */
  datatype Delivered = Delivered(records: nat, calls: nat, resent: nat)

  /** Codes that say to come again: throttling, and a failure on the other end. */
  predicate Passing(code: string) {
    code in {"ProvisionedThroughputExceededException", "InternalFailure", "KMSThrottlingException"}
  }

  /** A record of a row was refused for good. */
  ghost predicate RefusedForGood(call: Call, row: nat) {
    |call.sent| == |call.verdicts| && exists i :: 0 <= i < |call.sent| && ForGood(call.sent[i], call.verdicts[i], row)
  }

  predicate ForGood(entry: Entry, verdict: Verdict, row: nat) {
    entry.row == row && verdict.Refused? && !Passing(verdict.code)
  }

  /** Each call sends exactly what the one before it left. */
  ghost predicate Resends(calls: seq<Call>, from: nat) {
    forall k :: from < k < |calls| ==> SendsLeft(calls[k - 1], calls[k].sent)
  }

  /** After `calls` the batch was sent, and what was left of it, up to `pending`. */
  ghost predicate Tried(calls: seq<Call>, from: seq<Call>, entries: seq<Entry>, pending: seq<Entry>) {
    || (calls == from && pending == entries)
    || (calls != [] && SendsLeft(calls[|calls| - 1], pending) && Tried(calls[..|calls| - 1], from, entries, calls[|calls| - 1].sent))
  }

  /** One batch's calls: none yet, or the batch, and what each leaves. */
  ghost predicate OneBatch(calls: seq<Call>, from: seq<Call>, entries: seq<Entry>) {
    && from <= calls && Resends(calls, |from|)
    && (|calls| > |from| ==> calls[|from|].sent == entries)
  }

  lemma {:induction false} TriedIs(calls: seq<Call>, from: seq<Call>, entries: seq<Entry>, pending: seq<Entry>)
    requires Tried(calls, from, entries, pending)
    ensures OneBatch(calls, from, entries)
    ensures if calls == from then pending == entries else |calls| > |from| && SendsLeft(calls[|calls| - 1], pending)
  {
    if !(calls == from && pending == entries) {
      var n := |calls| - 1;
      TriedIs(calls[..n], from, entries, calls[n].sent);
      assert forall k :: 0 <= k < n ==> calls[..n][k] == calls[k];
    }
  }

  /** One call more, if it was answered. */
  lemma {:induction false} NextCall(was: seq<Call>, now: seq<Call>, from: seq<Call>, entries: seq<Entry>, pending: seq<Entry>)
    requires Tried(was, from, entries, pending)
    requires now == was || (now != [] && now[..|now| - 1] == was && now[|now| - 1].sent == pending)
    ensures OneBatch(now, from, entries) && (now != was ==> |now| > |from|)
  {
    TriedIs(was, from, entries, pending);
    if now != was {
      var n := |now| - 1;
      assert now[..n] == was;
      assert forall k :: 0 <= k < n ==> now[..n][k] == now[k];
    }
  }

  predicate Silent(failed: Option<Failure>) {
    failed.Some? && failed.value.why.Unanswered?
  }

  /** What the last call says of a failure: it was answered for another number
      of records, a record of the row was refused for good, or the retries are
      used up and the row is the first that is left. */
  ghost predicate CallFailed(calls: seq<Call>, from: seq<Call>, settings: Settings, why: Why) {
    match why
    case Unanswered => true
    case Miscounted => |calls| > |from| && |calls[|calls| - 1].sent| != |calls[|calls| - 1].verdicts|
    case NotResendable(row) => |calls| > |from| && RefusedForGood(calls[|calls| - 1], row)
    case StillRefused(row) =>
      |calls| == |from| + settings.retries + 1 && exists left: seq<Entry> :: SendsLeft(calls[|calls| - 1], left) && left != [] && left[0].row == row
    case BadRow(_) => false
    case NoInput => false
  }

  predicate SendsLeft(call: Call, next: seq<Entry>) {
    |call.sent| == |call.verdicts| && next == Left(call.sent, call.verdicts)
  }

  /** The `i`th record was refused for good, and `put` of those before it were
      put. */
  predicate Fatal(entries: seq<Entry>, verdicts: seq<Verdict>, i: nat, row: nat, put: nat)
    requires i < |entries| == |verdicts|
  {
    && entries[i].row == row && verdicts[i].Refused? && !Resendable(verdicts[i].code)
    && put == |Taken(entries[..i], verdicts[..i])|
  }

  /** Every verdict of one answer, in turn: what is put is counted, what may be
      sent again is kept, and a record refused for good ends the write. */
  method Sort(entries: seq<Entry>, verdicts: seq<Verdict>) returns (put: nat, refused: seq<Entry>, fatal: Option<nat>)
    requires |entries| == |verdicts|
    ensures fatal.None? ==> put == |Taken(entries, verdicts)| && refused == Left(entries, verdicts)
    ensures fatal.None? <==> forall i :: 0 <= i < |verdicts| ==> verdicts[i].Put? || Resendable(verdicts[i].code)
    ensures put <= |Taken(entries, verdicts)|
    ensures fatal.Some? ==> exists i :: 0 <= i < |verdicts| && Fatal(entries, verdicts, i, fatal.value, put)
    ensures fatal.Some? ==> exists i :: 0 <= i < |verdicts| && ForGood(entries[i], verdicts[i], fatal.value)
    ensures fatal.None? ==> forall i :: 0 <= i < |verdicts| ==> verdicts[i].Put? || Passing(verdicts[i].code)
  {
    put, refused, fatal := 0, [], None;
    for i := 0 to |entries|
      invariant put == |Taken(entries[..i], verdicts[..i])| && refused == Left(entries[..i], verdicts[..i])
      invariant forall j :: 0 <= j < i ==> verdicts[j].Put? || (Resendable(verdicts[j].code) && Passing(verdicts[j].code))
    {
      assert entries[..i + 1][..i] == entries[..i] && verdicts[..i + 1][..i] == verdicts[..i];
      match verdicts[i] {
        case Put => put := put + 1;
        case Refused(code) =>
          if !Resendable(code) {
            TakenGrows(entries, verdicts, i);
            assert Fatal(entries, verdicts, i, entries[i].row, put);
            assert ForGood(entries[i], verdicts[i], entries[i].row);
            return put, refused, Some(entries[i].row);
          }
          refused := refused + [entries[i]];
      }
    }
    assert entries[..|entries|] == entries && verdicts[..|entries|] == verdicts;
  }

  lemma {:induction false} TakenGrows(entries: seq<Entry>, verdicts: seq<Verdict>, i: nat)
    requires |entries| == |verdicts| && i <= |entries|
    ensures |Taken(entries[..i], verdicts[..i])| <= |Taken(entries, verdicts)|
    decreases |entries|
  {
    if i < |entries| {
      var n := |entries| - 1;
      assert entries[..n][..i] == entries[..i] && verdicts[..n][..i] == verdicts[..i];
      TakenGrows(entries[..n], verdicts[..n], i);
    } else {
      assert entries[..i] == entries && verdicts[..i] == verdicts;
    }
  }

  lemma FewerThanLanded(service: Service)
    requires service.Valid()
    ensures |service.acknowledged| <= |service.landed|
  {
    var rest := service.landed - multiset(service.acknowledged);
    assert service.landed == multiset(service.acknowledged) + rest;
  }

  function SentIn(calls: seq<Call>): nat {
    if calls == [] then 0 else SentIn(calls[..|calls| - 1]) + |calls[|calls| - 1].sent|
  }

  lemma {:induction false} SentMore(calls: seq<Call>, call: Call)
    ensures SentIn(calls + [call]) == SentIn(calls) + |call.sent|
  {
    assert (calls + [call])[..|calls|] == calls;
  }

  /** The counts are those of what was acknowledged, of the calls answered, and of
      what these sent beyond the first time. */
  ghost predicate Counts(service: Service, delivered: Delivered)
    reads service
  {
    && delivered.records == |service.acknowledged| && delivered.calls == |service.calls|
    && delivered.records + delivered.resent == SentIn(service.calls)
  }

  /** What still has to be put of a batch, between two attempts: with what was
      acknowledged since, the whole batch, each record once, in its order. */
  ghost predicate Outstanding(entries: seq<Entry>, before: seq<Entry>, acknowledged: seq<Entry>, pending: seq<Entry>) {
    && multiset(acknowledged) + multiset(pending) == multiset(before) + multiset(entries)
    && InOrder(pending) && Bytes(pending) <= Bytes(entries) && |pending| <= |entries|
    && forall e :: e in pending ==> e !in acknowledged
  }

  lemma NoneLeft(entries: seq<Entry>, before: seq<Entry>, acknowledged: seq<Entry>, pending: seq<Entry>)
    requires Outstanding(entries, before, acknowledged, pending) && pending == []
    ensures multiset(acknowledged) == multiset(before) + multiset(entries)
  {
  }

  lemma {:induction false} AttemptKeeps(entries: seq<Entry>, before: seq<Entry>, acknowledged: seq<Entry>, pending: seq<Entry>, verdicts: seq<Verdict>)
    requires Outstanding(entries, before, acknowledged, pending) && |pending| == |verdicts|
    ensures Outstanding(entries, before, acknowledged + Taken(pending, verdicts), Left(pending, verdicts))
    ensures |Taken(pending, verdicts)| + |Left(pending, verdicts)| == |pending|
  {
    assert |multiset(Taken(pending, verdicts))| + |multiset(Left(pending, verdicts))| == |multiset(pending)| by { TakenAndLeft(pending, verdicts); }
    TakenAndLeft(pending, verdicts);
    LeftIsSmaller(pending, verdicts);
    LeftInOrder(pending, verdicts);
    LeftWasNotTaken(pending, verdicts);
  }

  /** One PutRecords, and what its answer leaves to put. */
  method Attempt(service: Service, settings: Settings, pending: seq<Entry>, delivered: Delivered,
                 ghost entries: seq<Entry>, ghost before: seq<Entry>, ghost from: seq<Call>)
    returns (failed: Option<Failure>, refused: seq<Entry>, now: Delivered)
    requires service.Valid() && 0 < |pending| && |entries| <= PUT_RECORDS_LIMIT && Bytes(entries) <= PUT_RECORDS_BYTES
    requires Outstanding(entries, before, service.acknowledged, pending) && Counts(service, delivered)
    requires Tried(service.calls, from, entries, pending)
    modifies service
    ensures service.Valid() && old(service.landed) <= service.landed
    ensures failed.None? ==> Outstanding(entries, before, service.acknowledged, refused) && now.records == |service.acknowledged|
    ensures failed.None? ==> now.records + now.resent + |refused| == SentIn(service.calls)
    ensures OneBatch(service.calls, from, entries)
    ensures failed.None? ==> |service.calls| == |old(service.calls)| + 1 && Tried(service.calls, from, entries, refused)
    ensures failed.Some? ==> failed.value.before == now.records <= |service.landed|
    ensures failed.Some? ==> !failed.value.why.StillRefused? && CallFailed(service.calls, from, settings, failed.value.why)
    ensures service.faults == old(service.faults) + if Silent(failed) then 1 else 0
    ensures now.calls == |service.calls| && 0 <= |service.calls| - |old(service.calls)| <= 1
  {
    failed, refused, now := None, [], delivered;
    var answer := service.PutRecords(pending);
    FewerThanLanded(service);
    NextCall(old(service.calls), service.calls, from, entries, pending);
    if answer.None? {
      failed := Some(Failure(Unanswered, now.records));
    } else {
      now := now.(calls := now.calls + 1);
      var verdicts := answer.value;
      if |verdicts| != |pending| {
        failed := Some(Failure(Miscounted, now.records));
      } else {
        AttemptKeeps(entries, before, old(service.acknowledged), pending, verdicts);
        SentMore(old(service.calls), Call(pending, verdicts));
        var put, fatal;
        put, refused, fatal := Sort(pending, verdicts);
        now := now.(records := now.records + put);
        if fatal.Some? { failed := Some(Failure(NotResendable(fatal.value), now.records)); }
      }
    }
  }

  /** Attempts until nothing is pending, or one fails, or `retries` are used up. */
  method PutBatch(service: Service, settings: Settings, entries: seq<Entry>, delivered: Delivered)
    returns (failed: Option<Failure>, now: Delivered)
    requires service.Valid() && 0 < |entries| <= PUT_RECORDS_LIMIT && Bytes(entries) <= PUT_RECORDS_BYTES && InOrder(entries)
    requires Counts(service, delivered) && forall e :: e in entries ==> e !in service.acknowledged
    modifies service
    ensures service.Valid() && old(service.landed) <= service.landed
    ensures failed.None? ==> multiset(service.acknowledged) == multiset(old(service.acknowledged)) + multiset(entries)
    ensures now.calls == |service.calls| && (failed.None? ==> Counts(service, now))
    ensures failed.Some? ==> failed.value.before == now.records <= |service.landed|
    ensures |old(service.calls)| <= |service.calls| <= |old(service.calls)| + settings.retries + 1
    ensures service.faults == old(service.faults) + if Silent(failed) then 1 else 0
    ensures OneBatch(service.calls, old(service.calls), entries)
    ensures failed.None? ==> Tried(service.calls, old(service.calls), entries, [])
    ensures failed.Some? ==> CallFailed(service.calls, old(service.calls), settings, failed.value.why)
  {
    var pending, attempt := entries, 0;
    now, failed := delivered, None;
    ghost var before := service.acknowledged;
    while true
      invariant service.Valid() && old(service.landed) <= service.landed && 0 < |pending|
      invariant Outstanding(entries, before, service.acknowledged, pending)
      invariant Counts(service, now) && |service.calls| == |old(service.calls)| + attempt && attempt <= settings.retries
      invariant Tried(service.calls, old(service.calls), entries, pending) && service.faults == old(service.faults)
      decreases settings.retries - attempt
    {
      var refused;
      failed, refused, now := Attempt(service, settings, pending, now, entries, before, old(service.calls));
      if failed.Some? { break; }
      if refused == [] {
        NoneLeft(entries, before, service.acknowledged, refused);
        break;
      }
      if attempt == settings.retries {
        FewerThanLanded(service);
        failed := Some(Failure(StillRefused(refused[0].row), now.records));
        break;
      }
      attempt := attempt + 1;
      now := now.(resent := now.resent + |refused|);
      pending := refused;
    }
  }

  /** With the rows numbered apart, nothing left was taken. */
  lemma {:induction false} LeftWasNotTaken(entries: seq<Entry>, verdicts: seq<Verdict>)
    requires |entries| == |verdicts| && InOrder(entries)
    ensures forall e :: e in Left(entries, verdicts) ==> e !in Taken(entries, verdicts) && e in entries
  {
    TakenAndLeft(entries, verdicts);
    var taken, left := multiset(Taken(entries, verdicts)), multiset(Left(entries, verdicts));
    forall e | e in Left(entries, verdicts) ensures e !in Taken(entries, verdicts) && e in entries {
      OnceOnly(entries, e);
      assert e in left && taken[e] + left[e] == multiset(entries)[e];
      assert e !in taken && e in multiset(entries);
    }
  }

  lemma {:induction false} OnceOnly(entries: seq<Entry>, e: Entry)
    requires InOrder(entries)
    ensures multiset(entries)[e] <= 1
  {
    if entries != [] {
      var n := |entries| - 1;
      OnceOnly(entries[..n], e);
      assert entries == entries[..n] + [entries[n]];
      if e in entries[..n] { assert e != entries[n]; }
    }
  }

  // -------------------------------------------------------------------------
  // The whole input
  // -------------------------------------------------------------------------

  /** What a row gives for its partition key. */
  datatype KeyValue = Unset | Missing | Null | Text(text: string)

  datatype Item = Item(data: string, key: KeyValue)

  /** The partition key of row `row`, if it has one. */
  function KeyOf(row: nat, item: Item): Option<string> {
    match item.key
    case Unset => Some(Digits(row))
    case Text(text) => Some(text)
    case _ => None
  }

  /** Row `row` as a record, unless it has no key, or its key's characters or its
      bytes are not as many as Kinesis takes. */
  function MakeEntry(row: nat, item: Item): (entry: Option<Entry>)
    ensures entry.Some? <==>
      KeyOf(row, item).Some? && 1 <= |KeyOf(row, item).value| <= KEY_CHARACTERS &&
      TextBytes(item.data) + TextBytes(KeyOf(row, item).value) <= RECORD_BYTES
    ensures entry.Some? ==> entry.value.row == row && entry.value.data == item.data && Some(entry.value.key) == KeyOf(row, item)
    ensures entry.Some? ==> Size(entry.value) <= RECORD_BYTES
  {
    var key := KeyOf(row, item);
    if key.None? || |key.value| == 0 || |key.value| > KEY_CHARACTERS then None
    else if TextBytes(item.data) + TextBytes(key.value) > RECORD_BYTES then None
    else Some(Entry(row, item.data, key.value))
  }

  /** Without a key column rows are numbered, and no two share a key; with one, a
      row's text is its key, and a row without a text is no record. */
  lemma {:induction false} KeyedBy(row: nat, data: string, text: string, other: nat)
    ensures MakeEntry(row, Item(data, Missing)).None? && MakeEntry(row, Item(data, Null)).None? && MakeEntry(row, Item(data, Text(""))).None?
    ensures MakeEntry(row, Item(data, Text(text))).Some? ==> MakeEntry(row, Item(data, Text(text))).value.key == text
    ensures MakeEntry(row, Item(data, Text(text))).Some? <==> 1 <= |text| <= 256 && TextBytes(data) + TextBytes(text) <= 1_048_576
    ensures var mine, others := MakeEntry(row, Item(data, Unset)), MakeEntry(other, Item(data, Unset));
      mine.Some? && others.Some? && row != other ==> mine.value.key != others.value.key
  {
    DigitsTell(row);
    DigitsTell(other);
  }

  /** The entries of a whole input, row by row. */
  ghost predicate Made(items: seq<Item>, entries: seq<Entry>) {
    |entries| <= |items| && forall i :: 0 <= i < |entries| ==> MakeEntry(i + 1, items[i]) == Some(entries[i])
  }

  /** Later rows are not among those put before them. */
  lemma RowsApart(items: seq<Item>, entries: seq<Entry>, flushed: nat, acknowledged: seq<Entry>)
    requires Made(items, entries) && flushed <= |entries|
    requires multiset(acknowledged) == multiset(entries[..flushed])
    ensures InOrder(entries[flushed..]) && forall e :: e in entries[flushed..] ==> e !in acknowledged
    ensures |acknowledged| == flushed
  {
    assert |multiset(acknowledged)| == |multiset(entries[..flushed])|;
    forall e | e in entries[flushed..] ensures e !in acknowledged {
      var k :| flushed <= k < |entries| && entries[k] == e;
      forall j | 0 <= j < flushed ensures entries[j] != e {
        assert entries[j].row == j + 1 && entries[k].row == k + 1;
      }
      assert e !in entries[..flushed];
      assert e !in multiset(entries[..flushed]);
      assert e !in multiset(acknowledged);
    }
    forall i, j | 0 <= i < j < |entries[flushed..]| ensures entries[flushed..][i].row < entries[flushed..][j].row {
      assert entries[flushed..][i] == entries[flushed + i] && entries[flushed..][j] == entries[flushed + j];
    }
  }

  /** How far a write is: the records made, the batches put, and how many records
      these hold. */
  datatype Progress = Progress(entries: seq<Entry>, batches: seq<seq<Entry>>, flushed: nat)

  function Flat(batches: seq<seq<Entry>>): seq<Entry> {
    if batches == [] then [] else Flat(batches[..|batches| - 1]) + batches[|batches| - 1]
  }

  /** A batch that PutRecords and the settings allow. */
  predicate Fits(settings: Settings, batch: seq<Entry>) {
    |batch| <= settings.batchSize && Bytes(batch) <= 5_242_880
  }

  /** Each within the limits, and with the next one's first record past them. */
  ghost predicate Full(settings: Settings, batches: seq<seq<Entry>>) {
    forall c :: 0 <= c < |batches| ==>
      batches[c] != [] && Fits(settings, batches[c]) && (c > 0 ==> !Fits(settings, batches[c - 1] + [batches[c][0]]))
  }

  ghost predicate BatchFrom(calls: seq<Call>, k: nat, batch: seq<Entry>) {
    k <= |calls| && Tried(calls, calls[..k], batch, [])
  }

  /** All calls made: for each batch in turn the batch, and then what each call
      left, until nothing was left. */
  ghost predicate Delivers(calls: seq<Call>, batches: seq<seq<Entry>>, retries: nat) {
    if batches == [] then calls == []
    else
      var n := |batches| - 1;
      exists k: nat :: BatchFrom(calls, k, batches[n]) && |calls| <= k + retries + 1 && Delivers(calls[..k], batches[..n], retries)
  }

  lemma {:induction false} DeliversMore(calls: seq<Call>, from: seq<Call>, batches: seq<seq<Entry>>, batch: seq<Entry>, retries: nat)
    requires Delivers(from, batches, retries) && Tried(calls, from, batch, []) && |calls| <= |from| + retries + 1
    ensures Delivers(calls, batches + [batch], retries)
  {
    TriedIs(calls, from, batch, []);
    assert calls[..|from|] == from && (batches + [batch])[..|batches|] == batches;
    assert BatchFrom(calls, |from|, batch);
  }

  /** The rows read so far: those of the batches are put, each once, and the
      others are the batch to come. */
  ghost predicate Batched(settings: Settings, items: seq<Item>, p: Progress, batch: seq<Entry>, acknowledged: seq<Entry>) {
    && Made(items, p.entries) && p.flushed <= |p.entries| && batch == p.entries[p.flushed..]
    && multiset(acknowledged) == multiset(p.entries[..p.flushed])
    && Packed(settings, p, batch)
  }

  ghost predicate Packed(settings: Settings, p: Progress, batch: seq<Entry>)
    requires p.flushed <= |p.entries|
  {
    && Flat(p.batches) == p.entries[..p.flushed] && Full(settings, if batch == [] then p.batches else p.batches + [batch])
    && (p.entries == [] || batch != [])
  }

  /** The batch goes out first if it would be too much for the record. */
  predicate TooMuch(settings: Settings, batch: seq<Entry>, e: Entry) {
    batch != [] && !Fits(settings, batch + [e])
  }

  function Next(settings: Settings, p: Progress, batch: seq<Entry>, e: Entry): Progress {
    if TooMuch(settings, batch, e) then Progress(p.entries + [e], p.batches + [batch], |p.entries|) else p.(entries := p.entries + [e])
  }

  lemma {:induction false} BytesMore(batch: seq<Entry>, e: Entry)
    ensures Bytes(batch + [e]) == Bytes(batch) + Size(e)
  {
    assert (batch + [e])[..|batch|] == batch;
  }

  lemma MadeMore(items: seq<Item>, entries: seq<Entry>, e: Entry)
    requires Made(items, entries) && |entries| < |items| && MakeEntry(|entries| + 1, items[|entries|]) == Some(e)
    ensures Made(items, entries + [e])
  {
  }

  lemma EntriesMore(entries: seq<Entry>, e: Entry, flushed: nat)
    requires flushed <= |entries|
    ensures (entries + [e])[flushed..] == entries[flushed..] + [e] && (entries + [e])[..flushed] == entries[..flushed]
    ensures (entries + [e])[|entries|..] == [e] && (entries + [e])[..|entries|] == entries == entries[..flushed] + entries[flushed..]
  {
  }

  lemma {:induction false} TooMuchIs(settings: Settings, batches: seq<seq<Entry>>, batch: seq<Entry>, e: Entry)
    requires Full(settings, if batch == [] then batches else batches + [batch]) && settings.batchSize > 0 && Size(e) <= RECORD_BYTES
    ensures TooMuch(settings, batch, e) <==> |batch| == settings.batchSize || Bytes(batch) + Size(e) > PUT_RECORDS_BYTES
    ensures Bytes(batch + [e]) == Bytes(batch) + Size(e)
  {
    BytesMore(batch, e);
    if batch != [] {
      var all := batches + [batch];
      assert all[|batches|] == batch;
      assert Fits(settings, batch);
    } else {
      assert Bytes(batch) == 0;
    }
  }

  /** The record joins the batch. */
  lemma {:induction false} Joins(settings: Settings, items: seq<Item>, p: Progress, batch: seq<Entry>, acknowledged: seq<Entry>, e: Entry)
    requires Batched(settings, items, p, batch, acknowledged) && !TooMuch(settings, batch, e) && settings.batchSize > 0
    requires |p.entries| < |items| && MakeEntry(|p.entries| + 1, items[|p.entries|]) == Some(e)
    ensures Batched(settings, items, Next(settings, p, batch, e), batch + [e], acknowledged) && Bytes(batch + [e]) == Bytes(batch) + Size(e)
  {
    MadeMore(items, p.entries, e);
    EntriesMore(p.entries, e, p.flushed);
    BytesMore(batch, e);
    PackedJoins(settings, p, batch, e);
  }

  lemma {:induction false} PackedJoins(settings: Settings, p: Progress, batch: seq<Entry>, e: Entry)
    requires p.flushed <= |p.entries| && Packed(settings, p, batch) && Fits(settings, batch + [e])
    requires batch == [] ==> p.flushed == |p.entries|
    ensures Packed(settings, p.(entries := p.entries + [e]), batch + [e])
  {
    EntriesMore(p.entries, e, p.flushed);
    if batch == [] { FlatEmpty(settings, p.batches); }
    FullGrows(settings, p.batches, batch, e);
  }

  lemma FullGrows(settings: Settings, batches: seq<seq<Entry>>, batch: seq<Entry>, e: Entry)
    requires if batch == [] then batches == [] else Full(settings, batches + [batch])
    requires Fits(settings, batch + [e])
    ensures Full(settings, batches + [batch + [e]])
  {
    var now := batches + [batch + [e]];
    if batch != [] {
      var was := batches + [batch];
      assert (batch + [e])[0] == batch[0];
      forall c | 0 <= c < |now| ensures now[c] != [] && Fits(settings, now[c]) && (c > 0 ==> !Fits(settings, now[c - 1] + [now[c][0]])) {
        assert now[c][0] == was[c][0] && (c > 0 ==> now[c - 1] == was[c - 1]);
      }
    }
  }

  lemma {:induction false} FlatEmpty(settings: Settings, batches: seq<seq<Entry>>)
    requires Full(settings, batches)
    ensures Flat(batches) == [] <==> batches == []
  {
  }

  /** The record begins a batch, after the one before it is put. */
  lemma {:induction false} Begins(settings: Settings, items: seq<Item>, p: Progress, batch: seq<Entry>, before: seq<Entry>, now: seq<Entry>, e: Entry)
    requires Batched(settings, items, p, batch, before) && multiset(now) == multiset(before) + multiset(batch)
    requires TooMuch(settings, batch, e) && settings.batchSize > 0
    requires |p.entries| < |items| && MakeEntry(|p.entries| + 1, items[|p.entries|]) == Some(e)
    ensures Batched(settings, items, Next(settings, p, batch, e), [e], now) && Bytes([e]) == Size(e)
  {
    MadeMore(items, p.entries, e);
    EntriesMore(p.entries, e, p.flushed);
    PackedBegins(settings, p, batch, e);
  }

  lemma {:induction false} PackedBegins(settings: Settings, p: Progress, batch: seq<Entry>, e: Entry)
    requires p.flushed <= |p.entries| && Packed(settings, p, batch) && batch == p.entries[p.flushed..] && batch != []
    requires !Fits(settings, batch + [e]) && Size(e) <= RECORD_BYTES && settings.batchSize > 0
    ensures Packed(settings, Progress(p.entries + [e], p.batches + [batch], |p.entries|), [e]) && Bytes([e]) == Size(e)
  {
    EntriesMore(p.entries, e, p.flushed);
    BytesMore([], e);
    assert [] + [e] == [e] && (p.batches + [batch])[..|p.batches|] == p.batches;
    FullMore(settings, p.batches + [batch], e);
  }

  lemma FullMore(settings: Settings, batches: seq<seq<Entry>>, e: Entry)
    requires Full(settings, batches) && batches != [] && !Fits(settings, batches[|batches| - 1] + [e]) && Fits(settings, [e])
    ensures Full(settings, batches + [[e]])
  {
  }

  /** Why a write ended early, and the calls it had made: those of the batches
      put, `from`, and then those of the batch that failed, if one did. */
  ghost predicate Failed(settings: Settings, items: seq<Item>, p: Progress, batch: seq<Entry>, calls: seq<Call>, from: seq<Call>, why: Why) {
    && Delivers(from, p.batches, settings.retries)
    && match why
       case NoInput => |p.entries| == |items| && calls == from
       case BadRow(row) => row == |p.entries| + 1 <= |items| && MakeEntry(row, items[row - 1]).None? && calls == from
       case _ => OneBatch(calls, from, batch) && |calls| <= |from| + settings.retries + 1 && CallFailed(calls, from, settings, why)
  }

  /** The batch goes out. */
  method Flush(service: Service, settings: Settings, ghost items: seq<Item>, ghost p: Progress, batch: seq<Entry>, delivered: Delivered)
    returns (failed: Option<Failure>, now: Delivered)
    requires service.Valid() && Batched(settings, items, p, batch, service.acknowledged) && batch != []
    requires settings.batchSize <= PUT_RECORDS_LIMIT && Counts(service, delivered)
    requires Delivers(service.calls, p.batches, settings.retries)
    modifies service
    ensures service.Valid() && now.calls == |service.calls| && service.faults == old(service.faults) + if Silent(failed) then 1 else 0
    ensures failed.None? ==> multiset(service.acknowledged) == multiset(old(service.acknowledged)) + multiset(batch)
    ensures failed.None? ==> Counts(service, now) && Delivers(service.calls, p.batches + [batch], settings.retries)
    ensures failed.Some? ==> failed.value.before <= |service.landed| && !failed.value.why.NoInput?
    ensures failed.Some? ==> Failed(settings, items, p, batch, service.calls, old(service.calls), failed.value.why)
  {
    RowsApart(items, p.entries, p.flushed, service.acknowledged);
    assert (p.batches + [batch])[|p.batches|] == batch;
    failed, now := PutBatch(service, settings, batch, delivered);
    if failed.None? { DeliversMore(service.calls, old(service.calls), p.batches, batch, settings.retries); }
  }

  /** The batch goes out, and the record begins the next. */
  method MakeRoom(service: Service, settings: Settings, ghost items: seq<Item>, ghost p: Progress, batch: seq<Entry>, ghost e: Entry, delivered: Delivered)
    returns (failed: Option<Failure>, now: Delivered)
    requires service.Valid() && Batched(settings, items, p, batch, service.acknowledged) && TooMuch(settings, batch, e)
    requires |p.entries| < |items| && MakeEntry(|p.entries| + 1, items[|p.entries|]) == Some(e)
    requires Counts(service, delivered) && 0 < settings.batchSize <= PUT_RECORDS_LIMIT
    requires Delivers(service.calls, p.batches, settings.retries)
    modifies service
    ensures service.Valid() && now.calls == |service.calls| && service.faults == old(service.faults) + if Silent(failed) then 1 else 0
    ensures failed.None? ==> Batched(settings, items, Next(settings, p, batch, e), [e], service.acknowledged) && Bytes([e]) == Size(e)
    ensures failed.None? ==> Counts(service, now) && Delivers(service.calls, Next(settings, p, batch, e).batches, settings.retries)
    ensures failed.Some? ==> failed.value.before <= |service.landed| && !failed.value.why.NoInput?
    ensures failed.Some? ==> Failed(settings, items, p, batch, service.calls, old(service.calls), failed.value.why)
  {
    failed, now := Flush(service, settings, items, p, batch, delivered);
    if failed.None? { Begins(settings, items, p, batch, old(service.acknowledged), service.acknowledged, e); }
  }

  /** One more record; the batch goes out first if it would be too much for it. */
  method AddRecord(service: Service, settings: Settings, ghost items: seq<Item>, ghost p: Progress,
                   batch: seq<Entry>, bytes: nat, e: Entry, delivered: Delivered)
    returns (failed: Option<Failure>, more: seq<Entry>, size: nat, now: Delivered, ghost next: Progress)
    requires service.Valid() && Batched(settings, items, p, batch, service.acknowledged) && bytes == Bytes(batch)
    requires |p.entries| < |items| && MakeEntry(|p.entries| + 1, items[|p.entries|]) == Some(e)
    requires Counts(service, delivered) && 0 < settings.batchSize <= PUT_RECORDS_LIMIT
    requires Delivers(service.calls, p.batches, settings.retries)
    modifies service
    ensures service.Valid() && now.calls == |service.calls| && service.faults == old(service.faults) + if Silent(failed) then 1 else 0
    ensures failed.None? ==> Batched(settings, items, next, more, service.acknowledged) && size == Bytes(more) && next.entries == p.entries + [e]
    ensures failed.None? ==> Counts(service, now) && Delivers(service.calls, next.batches, settings.retries)
    ensures failed.Some? ==> failed.value.before <= |service.landed| && !failed.value.why.NoInput? && more == batch && next == p
    ensures failed.Some? ==> Failed(settings, items, p, batch, service.calls, old(service.calls), failed.value.why)
  {
    failed, more, size, now, next := None, batch, bytes, delivered, p;
    TooMuchIs(settings, p.batches, batch, e);
    if |batch| == settings.batchSize || bytes + Size(e) > PUT_RECORDS_BYTES {
      failed, now := MakeRoom(service, settings, items, p, batch, e, delivered);
      if failed.Some? { return; }
      more, size, next := [e], Size(e), Next(settings, p, batch, e);
    } else {
      Joins(settings, items, p, batch, service.acknowledged, e);
      more, size, next := batch + [e], bytes + Size(e), Next(settings, p, batch, e);
    }
  }

  /** One more row, if it can be a record. */
  method TakeRow(service: Service, settings: Settings, items: seq<Item>, ghost p: Progress, batch: seq<Entry>, bytes: nat, row: nat, delivered: Delivered)
    returns (failed: Option<Failure>, more: seq<Entry>, size: nat, now: Delivered, ghost next: Progress)
    requires service.Valid() && Batched(settings, items, p, batch, service.acknowledged) && bytes == Bytes(batch)
    requires row == |p.entries| + 1 <= |items| && 0 < settings.batchSize <= PUT_RECORDS_LIMIT
    requires Counts(service, delivered) && Delivers(service.calls, p.batches, settings.retries)
    modifies service
    ensures service.Valid() && now.calls == |service.calls| && service.faults == old(service.faults) + if Silent(failed) then 1 else 0
    ensures failed.None? ==> Batched(settings, items, next, more, service.acknowledged) && size == Bytes(more) && |next.entries| == row
    ensures failed.None? ==> Counts(service, now) && Delivers(service.calls, next.batches, settings.retries)
    ensures failed.Some? ==> failed.value.before <= |service.landed| && !failed.value.why.NoInput? && more == batch && next == p
    ensures failed.Some? ==> Failed(settings, items, p, batch, service.calls, old(service.calls), failed.value.why)
  {
    more, size, now, next := batch, bytes, delivered, p;
    FewerThanLanded(service);
    var e := MakeEntry(row, items[row - 1]);
    if e.None? { return Some(Failure(BadRow(row), delivered.records)), more, size, now, next; }
    failed, more, size, now, next := AddRecord(service, settings, items, p, batch, bytes, e.value, delivered);
  }

  /** The whole input, batch after batch; if `broken`, its rows are followed by one
      that cannot be read. Beside what it returns: how far it came, the batch it
      was at, and the calls before that batch's. */
  method WriteRecords(service: Service, settings: Settings, items: seq<Item>, broken: bool)
    returns (failed: Option<Failure>, delivered: Delivered, ghost p: Progress, ghost batch: seq<Entry>, ghost from: seq<Call>)
    requires service.Valid() && service.acknowledged == [] && service.calls == [] && 0 < settings.batchSize <= PUT_RECORDS_LIMIT
    modifies service
    ensures service.Valid() && Made(items, p.entries) && Full(settings, p.batches) && Flat(p.batches) <= p.entries
    ensures failed.None? ==> |p.entries| == |items| && !broken && multiset(service.acknowledged) == multiset(p.entries)
    ensures failed.None? ==> Flat(p.batches) == p.entries && Delivers(service.calls, p.batches, settings.retries)
    ensures failed.None? ==> delivered.records == |items| && Counts(service, delivered)
    ensures delivered.calls == |service.calls| && service.faults == old(service.faults) + if Silent(failed) then 1 else 0
    ensures failed.Some? ==> failed.value.before <= |service.landed| && (failed.value.why.NoInput? ==> broken)
    ensures failed.Some? ==> Failed(settings, items, p, batch, service.calls, from, failed.value.why)
  {
    var pending;
    failed, delivered, pending, p, from := TakeRows(service, settings, items);
    batch := pending;
    ghost var acknowledged :| Batched(settings, items, p, pending, acknowledged) && (failed.None? ==> acknowledged == service.acknowledged);
    SoFar(settings, items, p, pending, acknowledged);
    if failed.None? {
      failed, delivered, p, batch, from := Finish(service, settings, items, broken, p, pending, delivered);
    }
  }

  /** Row after row, with what is left of them as the batch to come. */
  method TakeRows(service: Service, settings: Settings, items: seq<Item>)
    returns (failed: Option<Failure>, delivered: Delivered, pending: seq<Entry>, ghost p: Progress, ghost from: seq<Call>)
    requires service.Valid() && service.acknowledged == [] && service.calls == [] && 0 < settings.batchSize <= PUT_RECORDS_LIMIT
    modifies service
    ensures service.Valid() && delivered.calls == |service.calls| && service.faults == old(service.faults) + if Silent(failed) then 1 else 0
    ensures exists acknowledged :: Batched(settings, items, p, pending, acknowledged) && (failed.None? ==> acknowledged == service.acknowledged)
    ensures failed.None? ==> |p.entries| == |items| && Counts(service, delivered)
    ensures failed.None? ==> Delivers(service.calls, p.batches, settings.retries)
    ensures failed.Some? ==> failed.value.before <= |service.landed| && !failed.value.why.NoInput?
    ensures failed.Some? ==> Failed(settings, items, p, pending, service.calls, from, failed.value.why)
  {
    var bytes: nat, row := 0, 0;
    delivered, failed, pending, p, from := Delivered(0, 0, 0), None, [], Progress([], [], 0), [];
    while row < |items|
      invariant service.Valid() && Batched(settings, items, p, pending, service.acknowledged) && bytes == Bytes(pending)
      invariant |p.entries| == row <= |items| && failed.None?
      invariant Counts(service, delivered)
      invariant Delivers(service.calls, p.batches, settings.retries) && service.faults == old(service.faults)
    {
      row, from := row + 1, service.calls;
      ghost var acknowledged := service.acknowledged;
      failed, pending, bytes, delivered, p := TakeRow(service, settings, items, p, pending, bytes, row, delivered);
      if failed.Some? {
        assert Batched(settings, items, p, pending, acknowledged);
        return;
      }
    }
  }

  lemma SoFar(settings: Settings, items: seq<Item>, p: Progress, batch: seq<Entry>, acknowledged: seq<Entry>)
    requires Batched(settings, items, p, batch, acknowledged)
    ensures Made(items, p.entries) && Full(settings, p.batches) && Flat(p.batches) <= p.entries
  {
    FullBefore(settings, p.batches, batch);
  }

  lemma FullBefore(settings: Settings, batches: seq<seq<Entry>>, batch: seq<Entry>)
    requires Full(settings, if batch == [] then batches else batches + [batch])
    ensures Full(settings, batches)
  {
    if batch != [] { assert forall c :: 0 <= c < |batches| ==> (batches + [batch])[c] == batches[c]; }
  }

  /** The last batch, if there is one and the input did not break off. */
  method Finish(service: Service, settings: Settings, ghost items: seq<Item>, broken: bool, ghost p: Progress, pending: seq<Entry>, delivered: Delivered)
    returns (failed: Option<Failure>, now: Delivered, ghost last: Progress, ghost batch: seq<Entry>, ghost from: seq<Call>)
    requires service.Valid() && Batched(settings, items, p, pending, service.acknowledged) && |p.entries| == |items|
    requires 0 < settings.batchSize <= PUT_RECORDS_LIMIT
    requires Counts(service, delivered) && Delivers(service.calls, p.batches, settings.retries)
    modifies service
    ensures service.Valid() && last.entries == p.entries && Full(settings, last.batches) && Flat(last.batches) <= last.entries
    ensures failed.None? ==> !broken && multiset(service.acknowledged) == multiset(p.entries) && now.records == |items|
    ensures failed.None? ==> Counts(service, now) && Flat(last.batches) == last.entries && Delivers(service.calls, last.batches, settings.retries)
    ensures now.calls == |service.calls| && service.faults == old(service.faults) + if Silent(failed) then 1 else 0
    ensures failed.Some? ==> failed.value.before <= |service.landed| && (failed.value.why.NoInput? ==> broken)
    ensures failed.Some? ==> Failed(settings, items, last, batch, service.calls, from, failed.value.why)
  {
    failed, now, last, batch, from := None, delivered, p, pending, service.calls;
    SoFar(settings, items, p, pending, service.acknowledged);
    FewerThanLanded(service);
    if broken { return Some(Failure(NoInput, delivered.records)), now, last, batch, from; }
    if pending != [] {
      failed, now := Flush(service, settings, items, p, pending, delivered);
      if failed.Some? { return; }
      last := Progress(p.entries, p.batches + [pending], |p.entries|);
    }
    AllPut(settings, items, p, pending, old(service.acknowledged), service.acknowledged, last);
  }

  lemma {:induction false} AllPut(settings: Settings, items: seq<Item>, p: Progress, batch: seq<Entry>, before: seq<Entry>, now: seq<Entry>, last: Progress)
    requires Batched(settings, items, p, batch, before) && multiset(now) == multiset(before) + multiset(batch)
    requires last == if batch == [] then p else Progress(p.entries, p.batches + [batch], |p.entries|)
    ensures multiset(now) == multiset(p.entries) && |now| == |p.entries| && Flat(last.batches) == p.entries
  {
    EntriesAre(p.entries, p.flushed);
    assert |multiset(now)| == |multiset(p.entries)|;
    if batch != [] { assert (p.batches + [batch])[..|p.batches|] == p.batches; }
  }

  lemma EntriesAre(entries: seq<Entry>, flushed: nat)
    requires flushed <= |entries|
    ensures entries[..flushed] + entries[flushed..] == entries
  {
  }
}
