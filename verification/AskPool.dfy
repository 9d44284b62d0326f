/** `ask_rows`: workers take rows off an atomic counter, ask the model about
    each, and put the answer in the row's slot; a shared flag stops them after a
    failure. Every interleaving of their steps is a run. */
module AskPool {
  import opened Common

  type Answer = Result<string, string>

  /** How many rows, and what each worker gets when it builds its client: an
      error, or nothing. */
  datatype Config = Config(rows: nat, builds: seq<Option<string>>)

  predicate ValidConfig(c: Config) {
    1 <= |c.builds| <= c.rows
  }

  // -------------------------------------------------------------------------
  // The steps
  // -------------------------------------------------------------------------

  datatype Worker =
    | Building
    | Refused
    | Taking
    | Took(i: nat)
    | Asking(i: nat)
    | Failing(i: nat, message: string)
    | Answering(i: nat, answer: Answer)
    | Gone

  /** `asked` are the rows asked about and `got` the answers that came: what the
      model saw, which no worker reads. */
  datatype State = State(next: nat, stop: bool, slots: seq<Option<Answer>>, workers: seq<Worker>, asked: seq<nat>, got: map<nat, Answer>)

  function Init(c: Config): State {
    State(0, false, seq(c.rows, _ => None), seq(|c.builds|, _ => Building), [], map[])
  }

  /** One step of worker `w`; `answer` is the model's, if it is asked. */
  function Move(c: Config, s: State, w: nat, answer: Answer): State
    requires Shaped(c, s) && w < |s.workers|
  {
    match s.workers[w]
    case Building =>
      if c.builds[w].Some? then s.(stop := true, workers := s.workers[w := Refused])
      else s.(workers := s.workers[w := Taking])
    case Refused => s.(slots := s.slots[0 := Some(Err(c.builds[w].value))], workers := s.workers[w := Gone])
    case Taking => s.(next := s.next + 1, workers := s.workers[w := Took(s.next)])
    case Took(i) =>
      if i >= c.rows || s.stop then s.(workers := s.workers[w := Gone])
      else s.(asked := s.asked + [i], workers := s.workers[w := Asking(i)])
    case Asking(i) =>
      s.(got := s.got[i := answer],
         workers := s.workers[w := if answer.Err? then Failing(i, answer.error) else Answering(i, answer)])
    case Failing(i, message) => s.(stop := true, workers := s.workers[w := Answering(i, Err(message))])
    case Answering(i, a) => s.(slots := s.slots[i := Some(a)], workers := s.workers[w := Taking])
    case Gone => s
  }

  /** Slots and workers are as many as they should be, and what is held is a row. */
  predicate Shaped(c: Config, s: State) {
    && ValidConfig(c) && |s.slots| == c.rows && |s.workers| == |c.builds|
    && forall w :: 0 <= w < |s.workers| ==> WorkerShaped(c, w, s.workers[w])
  }

  predicate WorkerShaped(c: Config, w: nat, worker: Worker)
    requires w < |c.builds|
  {
    match worker
    case Refused => c.builds[w].Some?
    case Asking(i) => i < c.rows
    case Failing(i, _) => i < c.rows
    case Answering(i, _) => i < c.rows
    case _ => true
  }

  predicate Done(s: State) {
    forall w :: 0 <= w < |s.workers| ==> s.workers[w].Gone?
  }

  ghost predicate Step(c: Config, s: State, t: State) {
    Shaped(c, s) && exists w, answer :: 0 <= w < |s.workers| && !s.workers[w].Gone? && t == Move(c, s, w, answer)
  }

  ghost predicate Run(c: Config, run: seq<State>) {
    && ValidConfig(c) && |run| > 0 && run[0] == Init(c)
    && forall k :: 0 < k < |run| ==> Step(c, run[k - 1], run[k])
  }

  // -------------------------------------------------------------------------
  // What every step keeps
  // -------------------------------------------------------------------------

  function Held(worker: Worker): Option<nat> {
    match worker
    case Took(i) => Some(i)
    case Asking(i) => Some(i)
    case Failing(i, _) => Some(i)
    case Answering(i, _) => Some(i)
    case _ => None
  }

  /** A row is taken once, asked about at most once, and known to have been. */
  ghost predicate WorkerFits(s: State, worker: Worker) {
    && (Held(worker).Some? ==> Held(worker).value < s.next)
    && match worker
       case Refused => s.stop
       case Took(i) => i !in s.asked
       case Asking(i) => i in s.asked && i !in s.got
       case Failing(i, message) => i in s.asked && i in s.got && s.got[i] == Err(message)
       case Answering(i, a) => i in s.asked && i in s.got && s.got[i] == a && (a.Err? ==> s.stop)
       case _ => true
  }

  ghost predicate Apart(s: State) {
    forall v, w :: 0 <= v < w < |s.workers| && Held(s.workers[v]).Some? ==> Held(s.workers[v]) != Held(s.workers[w])
  }

  ghost predicate HeldBy(s: State, i: nat) {
    exists w :: 0 <= w < |s.workers| && Held(s.workers[w]) == Some(i)
  }

  /** A row asked about is in a worker's hands or its slot is filled, with its
      answer unless it is slot 0, where a worker that was refused writes too. */
  ghost predicate RowFits(c: Config, s: State, i: nat)
    requires i < |s.slots|
  {
    && (i in s.asked && !HeldBy(s, i) ==> s.slots[i].Some? && i in s.got)
    && (s.slots[i].Some? ==> (i in s.got && s.slots[i].value == s.got[i]) || (i == 0 && AnyRefused(c)))
    && (i < s.next && i !in s.asked && !s.stop ==> HeldBy(s, i))
  }

  predicate AnyRefused(c: Config) {
    exists w :: 0 <= w < |c.builds| && c.builds[w].Some?
  }

  ghost predicate AnyError(got: map<nat, Answer>) {
    exists i :: i in got && got[i].Err?
  }

  ghost predicate Inv(c: Config, s: State) {
    && Shaped(c, s) && Apart(s) && Distinct(s.asked)
    && (forall w :: 0 <= w < |s.workers| ==> WorkerFits(s, s.workers[w]))
    && (forall i :: 0 <= i < c.rows ==> RowFits(c, s, i))
    && (forall i :: i in s.asked ==> i < s.next && i < c.rows)
    && (forall i :: i in s.got ==> i in s.asked)
    && (s.stop ==> AnyError(s.got) || AnyRefused(c))
    && (forall w :: 0 <= w < |s.workers| && s.workers[w].Gone? ==> s.stop || s.next >= c.rows)
  }

  lemma InitInv(c: Config)
    requires ValidConfig(c)
    ensures Inv(c, Init(c))
  {
  }

  /** Only the worker that moves takes up a row or lets go of one. */
  lemma HoldersKeep(c: Config, s: State, w: nat, answer: Answer, i: nat)
    requires Shaped(c, s) && w < |s.workers|
    ensures var t := Move(c, s, w, answer);
      && (HeldBy(s, i) && Held(s.workers[w]) != Some(i) ==> HeldBy(t, i))
      && (Held(t.workers[w]) == Some(i) ==> HeldBy(t, i))
  {
    var t := Move(c, s, w, answer);
    if HeldBy(s, i) && Held(s.workers[w]) != Some(i) {
      var v :| 0 <= v < |s.workers| && Held(s.workers[v]) == Some(i);
      assert t.workers[v] == s.workers[v];
    }
  }

  lemma RowKeeps(c: Config, s: State, w: nat, answer: Answer, i: nat)
    requires Shaped(c, s) && w < |s.workers| && WorkerFits(s, s.workers[w]) && i < c.rows && RowFits(c, s, i)
    ensures RowFits(c, Move(c, s, w, answer), i)
  {
    HoldersKeep(c, s, w, answer, i);
    assert WorkerShaped(c, w, s.workers[w]);
  }

  lemma WorkersKeep(c: Config, s: State, w: nat, answer: Answer, v: nat)
    requires Inv(c, s) && w < |s.workers| && v < |s.workers|
    ensures var t := Move(c, s, w, answer);
      WorkerShaped(c, v, t.workers[v]) && WorkerFits(t, t.workers[v])
  {
    assert WorkerFits(s, s.workers[w]) && WorkerFits(s, s.workers[v]);
    assert WorkerShaped(c, v, s.workers[v]);
  }

  lemma ApartKeeps(c: Config, s: State, w: nat, answer: Answer)
    requires Inv(c, s) && w < |s.workers|
    ensures Apart(Move(c, s, w, answer))
  {
    var t := Move(c, s, w, answer);
    forall u, v | 0 <= u < v < |t.workers| && Held(t.workers[u]).Some? ensures Held(t.workers[u]) != Held(t.workers[v]) {
      assert WorkerFits(s, s.workers[u]) && WorkerFits(s, s.workers[v]);
    }
  }

  lemma ErrorsKeep(got: map<nat, Answer>, i: nat, answer: Answer)
    requires i !in got
    ensures AnyError(got) || answer.Err? ==> AnyError(got[i := answer])
  {
    if AnyError(got) {
      var j :| j in got && got[j].Err?;
      assert got[i := answer][j].Err?;
    } else if answer.Err? {
      assert got[i := answer][i].Err?;
    }
  }

  lemma StopKeeps(c: Config, s: State, w: nat, answer: Answer)
    requires Shaped(c, s) && w < |s.workers| && WorkerFits(s, s.workers[w]) && (s.stop ==> AnyError(s.got) || AnyRefused(c))
    ensures var t := Move(c, s, w, answer); t.stop ==> AnyError(t.got) || AnyRefused(c)
  {
    assert WorkerShaped(c, w, s.workers[w]);
    match s.workers[w]
    case Asking(i) => ErrorsKeep(s.got, i, answer);
    case Failing(i, message) => assert s.got[i].Err?;
    case _ =>
  }

  lemma GoneKeeps(c: Config, s: State, w: nat, answer: Answer, v: nat)
    requires Inv(c, s) && w < |s.workers| && v < |s.workers| && Move(c, s, w, answer).workers[v].Gone?
    ensures var t := Move(c, s, w, answer); t.stop || t.next >= c.rows
  {
    assert WorkerShaped(c, w, s.workers[w]) && WorkerFits(s, s.workers[w]);
    if v != w { assert s.workers[v].Gone?; }
  }

  lemma StepKeeps(c: Config, s: State, w: nat, answer: Answer)
    requires Inv(c, s) && w < |s.workers|
    ensures Inv(c, Move(c, s, w, answer))
  {
    var t := Move(c, s, w, answer);
    forall v | 0 <= v < |t.workers| ensures WorkerShaped(c, v, t.workers[v]) && WorkerFits(t, t.workers[v]) {
      WorkersKeep(c, s, w, answer, v);
    }
    forall v | 0 <= v < |t.workers| && t.workers[v].Gone? ensures t.stop || t.next >= c.rows {
      GoneKeeps(c, s, w, answer, v);
    }
    ApartKeeps(c, s, w, answer);
    StopKeeps(c, s, w, answer);
    assert WorkerFits(s, s.workers[w]);
    forall i | 0 <= i < c.rows ensures RowFits(c, t, i) {
      RowKeeps(c, s, w, answer, i);
    }
  }

  /** The state a run is left in. */
  function Last(run: seq<State>): State
    requires run != []
  {
    run[|run| - 1]
  }

  lemma {:induction false} RunKeeps(c: Config, run: seq<State>)
    requires Run(c, run)
    ensures Inv(c, Last(run))
  {
    if |run| == 1 {
      InitInv(c);
    } else {
      var before := run[..|run| - 1];
      RunKeeps(c, before);
      assert Step(c, run[|run| - 2], run[|run| - 1]);
      var w, answer :| 0 <= w < |Last(before).workers| && Last(run) == Move(c, Last(before), w, answer);
      StepKeeps(c, Last(before), w, answer);
    }
  }

  /** Each row is asked about at most once, in every state of every run; there
      are never more calls in the air than workers. */
  lemma AskedOnce(c: Config, run: seq<State>, k: nat)
    requires Run(c, run) && k < |run|
    ensures Distinct(run[k].asked) && forall i :: i in run[k].asked ==> i < c.rows
    ensures |run[k].workers| == |c.builds|
  {
    RunKeeps(c, run[..k + 1]);
  }

  /** Once the flag is set no more rows are asked about: only calls in the air
      still come back. */
  lemma {:induction false} NoneAfterStop(c: Config, run: seq<State>, k: nat, j: nat)
    requires Run(c, run) && k <= j < |run| && run[k].stop
    ensures run[j].stop && run[j].asked == run[k].asked
    decreases j
  {
    if k < j {
      NoneAfterStop(c, run, k, j - 1);
      assert Step(c, run[j - 1], run[j]);
      var w, answer :| 0 <= w < |run[j - 1].workers| && run[j] == Move(c, run[j - 1], w, answer);
    }
  }

  // -------------------------------------------------------------------------
  // Every run ends
  // -------------------------------------------------------------------------

  function Rank(c: Config, worker: Worker): nat {
    match worker
    case Building => 4
    case Refused => 3
    case Taking => 2
    case Took(i) => if i < c.rows then 8 else 1
    case Asking(_) => 7
    case Failing(_, _) => 6
    case Answering(_, _) => 5
    case Gone => 0
  }

  function Ranks(c: Config, workers: seq<Worker>): nat {
    if workers == [] then 0 else Ranks(c, workers[1..]) + Rank(c, workers[0])
  }

  lemma {:induction false} RankChanges(c: Config, workers: seq<Worker>, w: nat, worker: Worker)
    requires w < |workers|
    ensures Ranks(c, workers[w := worker]) + Rank(c, workers[w]) == Ranks(c, workers) + Rank(c, worker)
  {
    if w == 0 {
      assert workers[0 := worker][1..] == workers[1..];
    } else {
      assert workers[w := worker][1..] == workers[1..][w - 1 := worker];
      RankChanges(c, workers[1..], w - 1, worker);
    }
  }

  /** What is left to do: it only gets less. */
  function Ahead(c: Config, s: State): nat {
    Ranks(c, s.workers) + 10 * (c.rows - Min(s.next, c.rows))
  }

  lemma StepAdvances(c: Config, s: State, w: nat, answer: Answer)
    requires Shaped(c, s) && w < |s.workers| && !s.workers[w].Gone?
    ensures Ahead(c, Move(c, s, w, answer)) < Ahead(c, s)
  {
    var t := Move(c, s, w, answer);
    assert WorkerShaped(c, w, s.workers[w]);
    assert t.workers == s.workers[w := t.workers[w]];
    RankChanges(c, s.workers, w, t.workers[w]);
  }

  /** However the workers interleave, a run is no longer than this; and one that
      is not done can go on. */
  lemma {:induction false} RunsEnd(c: Config, run: seq<State>)
    requires Run(c, run)
    ensures |run| - 1 + Ahead(c, Last(run)) <= Ahead(c, Init(c))
    ensures Done(Last(run)) || exists t :: Step(c, Last(run), t)
  {
    RunKeeps(c, run);
    if !Done(Last(run)) {
      var w :| 0 <= w < |Last(run).workers| && !Last(run).workers[w].Gone?;
      assert Step(c, Last(run), Move(c, Last(run), w, Ok("")));
    }
    if |run| > 1 {
      var before := run[..|run| - 1];
      RunsEnd(c, before);
      assert Step(c, run[|run| - 2], run[|run| - 1]);
      var w, answer :| 0 <= w < |Last(before).workers| && !Last(before).workers[w].Gone? && Last(run) == Move(c, Last(before), w, answer);
      StepAdvances(c, Last(before), w, answer);
    }
  }

  // -------------------------------------------------------------------------
  // What comes of a run
  // -------------------------------------------------------------------------

  datatype Row = Row(key: string, columns: string)

  datatype Failure = Failure(row: nat, message: string)

  predicate ErrorAt(slots: seq<Option<Answer>>, i: nat) {
    i < |slots| && slots[i].Some? && slots[i].value.Err?
  }

  /** What is written when no slot holds an error: each answer with its own
      row's key, and nothing for an empty slot. */
  function Answered(keys: seq<string>, slots: seq<Option<Answer>>): seq<Row>
    requires |keys| == |slots|
  {
    if slots == [] then []
    else
      var n := |slots| - 1;
      Answered(keys[..n], slots[..n]) + if slots[n].Some? && slots[n].value.Ok? then [Row(keys[n], slots[n].value.value)] else []
  }

  /** The error with the lowest row, or the answers in the order of the rows. */
  method Collect(keys: seq<string>, slots: seq<Option<Answer>>) returns (r: Result<seq<Row>, Failure>)
    requires |keys| == |slots|
    ensures r.Ok? ==> (forall i :: !ErrorAt(slots, i)) && r.value == Answered(keys, slots)
    ensures r.Err? ==> ErrorAt(slots, r.error.row) && slots[r.error.row].value.error == r.error.message
    ensures r.Err? ==> forall i: nat :: i < r.error.row ==> !ErrorAt(slots, i)
  {
    for i := 0 to |slots|
      invariant forall j: nat :: j < i ==> !ErrorAt(slots, j)
    {
      if slots[i].Some? && slots[i].value.Err? { return Err(Failure(i, slots[i].value.error)); }
    }
    var rows := [];
    for i := 0 to |slots|
      invariant rows == Answered(keys[..i], slots[..i])
    {
      assert keys[..i + 1][..i] == keys[..i] && slots[..i + 1][..i] == slots[..i];
      if slots[i].None? || slots[i].value.Err? { continue; }
      rows := rows + [Row(keys[i], slots[i].value.value)];
    }
    assert keys[..|slots|] == keys && slots[..|slots|] == slots;
    r := Ok(rows);
  }

  predicate NoneBuilds(c: Config) {
    forall w :: 0 <= w < |c.builds| ==> c.builds[w].Some?
  }

  /** Building a client comes out the same for every worker. */
  predicate Alike(c: Config) {
    !AnyRefused(c) || NoneBuilds(c)
  }

  /** When every client was built: a slot holds its row's answer, and if none
      holds an error every row was asked about. */
  lemma AllAnswered(c: Config, s: State)
    requires Inv(c, s) && Done(s) && !AnyRefused(c)
    ensures forall i :: 0 <= i < c.rows ==> (i in s.asked <==> s.slots[i].Some?) && (i in s.asked ==> i in s.got && s.slots[i].value == s.got[i])
    ensures (forall i :: !ErrorAt(s.slots, i)) ==> forall i :: 0 <= i < c.rows ==> i in s.asked
  {
    forall i | 0 <= i < c.rows
      ensures (i in s.asked <==> s.slots[i].Some?) && (i in s.asked ==> i in s.got && s.slots[i].value == s.got[i])
    {
      assert RowFits(c, s, i) && !HeldBy(s, i);
    }
    if forall i :: !ErrorAt(s.slots, i) {
      if AnyError(s.got) {
        var i :| i in s.got && s.got[i].Err?;
        assert ErrorAt(s.slots, i);
      }
      assert s.workers[0].Gone?;
      forall i | 0 <= i < c.rows ensures i in s.asked { assert RowFits(c, s, i) && !HeldBy(s, i); }
    }
  }

  /** The error some worker got when it built its client. */
  predicate IsRefusal(c: Config, answer: Answer) {
    answer.Err? && Some(answer.error) in c.builds
  }

  /** When no client was built, nothing is asked and slot 0 has such an error. */
  ghost predicate OnlyRefused(c: Config, s: State) {
    && s.asked == [] && s.next == 0 && |s.slots| == c.rows
    && (forall i :: 0 <= i < c.rows && s.slots[i].Some? ==> i == 0 && IsRefusal(c, s.slots[i].value))
    && (forall w :: 0 <= w < |s.workers| ==> s.workers[w].Building? || s.workers[w].Refused? || s.workers[w].Gone?)
    && (forall w :: 0 <= w < |s.workers| && s.workers[w].Gone? ==> ErrorAt(s.slots, 0))
  }

  lemma {:induction false} NoneBuilt(c: Config, run: seq<State>)
    requires Run(c, run) && NoneBuilds(c)
    ensures OnlyRefused(c, Last(run))
  {
    if |run| > 1 {
      var before := run[..|run| - 1];
      NoneBuilt(c, before);
      assert Step(c, run[|run| - 2], run[|run| - 1]);
      var w, answer :| 0 <= w < |Last(before).workers| && Last(run) == Move(c, Last(before), w, answer);
      if Last(before).workers[w].Refused? { assert c.builds[w] == Some(c.builds[w].value); }
    }
  }

  /** The stated intent: without an error, every row was answered. */
  ghost predicate Complete(c: Config, s: State)
    requires |s.slots| == c.rows
  {
    (forall i :: !ErrorAt(s.slots, i)) ==>
      forall i :: 0 <= i < c.rows ==> i in s.got && s.slots[i] == Some(s.got[i])
  }

  lemma AlikeIsComplete(c: Config, run: seq<State>)
    requires Run(c, run) && Done(Last(run)) && Alike(c)
    ensures |Last(run).slots| == c.rows && Complete(c, Last(run))
  {
    RunKeeps(c, run);
    var s := Last(run);
    if AnyRefused(c) {
      NoneBuilt(c, run);
      assert s.workers[0].Gone?;
    } else {
      AllAnswered(c, s);
    }
  }

  /** Every row was answered, and each answer has its own row's key. */
  ghost predicate AllRows(keys: seq<string>, got: map<nat, Answer>, rows: seq<Row>) {
    && |rows| == |keys|
    && forall i :: 0 <= i < |keys| ==> rows[i].key == keys[i] && Get(got, i) == Some(Ok(rows[i].columns))
  }

  /** Some answer. */
  method AskModel() returns (answer: Answer) {
    answer := *;
  }

  /** All rows, to the end: some order of the workers' steps, then the first
      failure or the answers. */
  method AskRows(c: Config, keys: seq<string>) returns (r: Result<seq<Row>, Failure>, s: State, ghost run: seq<State>)
    requires ValidConfig(c) && |keys| == c.rows
    ensures Run(c, run) && Last(run) == s
    ensures Done(s) && |s.slots| == c.rows && |s.workers| == |c.builds|
    ensures r.Ok? && Alike(c) ==> AllRows(keys, s.got, r.value)
    ensures r.Err? && !AnyRefused(c) ==> Get(s.got, r.error.row) == Some(Err(r.error.message))
    ensures r.Err? && !AnyRefused(c) ==> forall i :: i in s.asked && i < r.error.row ==> i in s.got && s.got[i].Ok?
    ensures NoneBuilds(c) ==> r.Err? && r.error.row == 0 && Some(r.error.message) in c.builds && s.asked == []
  {
    s := Init(c);
    run := [s];
    InitInv(c);
    while exists w :: 0 <= w < |s.workers| && !s.workers[w].Gone?
      invariant Run(c, run) && Last(run) == s && Inv(c, s)
      decreases Ahead(c, s)
    {
      var w: nat :| w < |s.workers| && !s.workers[w].Gone?;
      var answer := AskModel();
      StepKeeps(c, s, w, answer);
      StepAdvances(c, s, w, answer);
      assert Step(c, s, Move(c, s, w, answer));
      s := Move(c, s, w, answer);
      run := run + [s];
    }
    r := Collect(keys, s.slots);
    if r.Ok? && Alike(c) {
      AlikeIsComplete(c, run);
      forall i | 0 <= i < c.rows ensures s.slots[i].Some? && s.slots[i].value.Ok? {
        assert !ErrorAt(s.slots, i);
      }
      AllWritten(keys, s.slots);
    }
    if NoneBuilds(c) {
      NoneBuilt(c, run);
      assert s.workers[0].Gone?;
    }
    if !AnyRefused(c) {
      AllAnswered(c, s);
      assert r.Err? ==> forall i :: i in s.asked && i < r.error.row ==> !ErrorAt(s.slots, i) && i in s.got;
    }
  }

  lemma {:induction false} AllWritten(keys: seq<string>, slots: seq<Option<Answer>>)
    requires |keys| == |slots| && forall i :: 0 <= i < |slots| ==> slots[i].Some? && slots[i].value.Ok?
    ensures |Answered(keys, slots)| == |slots|
    ensures forall i :: 0 <= i < |slots| ==> Answered(keys, slots)[i] == Row(keys[i], slots[i].value.value)
  {
    if slots != [] { AllWritten(keys[..|slots| - 1], slots[..|slots| - 1]); }
  }

  /** No more workers than rows, each with the same outcome. */
  function SameBuild(workers: nat, build: Option<string>, rows: nat): Config {
    Config(rows, seq(Min(workers, rows), _ => build))
  }

  /** All workers build their client of the same settings, so it comes out the
      same for each. Then success is every row answered, each answer with its own
      row's key; when no client can be built, nothing is asked and the error names
      the first row and says why; otherwise it is the first failure by row. */
  method AskAll(workers: nat, build: Option<string>, keys: seq<string>) returns (r: Result<seq<Row>, Failure>, s: State, ghost run: seq<State>)
    requires 1 <= workers && keys != []
    ensures Run(SameBuild(workers, build, |keys|), run) && Last(run) == s && Done(s)
    ensures |s.workers| == if workers < |keys| then workers else |keys|
    ensures r.Ok? ==> build.None? && AllRows(keys, s.got, r.value)
    ensures build.Some? ==> r == Err(Failure(0, build.value)) && s.asked == []
    ensures r.Err? && build.None? ==> Get(s.got, r.error.row) == Some(Err(r.error.message))
    ensures r.Err? && build.None? ==> forall i :: i in s.asked && i < r.error.row ==> i in s.got && s.got[i].Ok?
  {
    var c := SameBuild(workers, build, |keys|);
    assert c.builds[0] == build;
    r, s, run := AskRows(c, keys);
  }

  // -------------------------------------------------------------------------
  // Rows skipped without a word
  // -------------------------------------------------------------------------

  lemma Extend(c: Config, run: seq<State>, w: nat, answer: Answer) returns (more: seq<State>)
    requires Run(c, run) && Shaped(c, Last(run)) && w < |Last(run).workers| && !Last(run).workers[w].Gone?
    ensures Run(c, more) && Last(more) == Move(c, Last(run), w, answer) && Shaped(c, Last(more))
  {
    more := run + [Move(c, Last(run), w, answer)];
    assert Step(c, Last(run), Last(more));
    RunKeeps(c, more);
  }

  /** Worker `a` asks about row 0, and those of `gone` have stopped. */
  ghost predicate Midway(c: Config, s: State, a: nat, gone: set<nat>) {
    && Shaped(c, s) && s.next == 1 && a < |s.workers| && a !in gone
    && s.workers[a] == Asking(0) && s.got == map[] && (forall i :: 0 < i < c.rows ==> s.slots[i] == None)
    && forall w :: 0 <= w < |s.workers| && w != a ==> s.workers[w] == if w in gone then Gone else Building
  }

  /** The workers from `k` on whose client is refused stop, each having written
      slot 0. */
  lemma {:induction false} RefusedGo(c: Config, run: seq<State>, a: nat, k: nat, gone: set<nat>) returns (more: seq<State>, left: set<nat>)
    requires Run(c, run) && Midway(c, Last(run), a, gone) && c.builds[a].None? && k <= |c.builds|
    requires forall w :: w in gone <==> 0 <= w < k && c.builds[w].Some?
    requires Last(run).stop <==> gone != {}
    ensures Run(c, more) && Midway(c, Last(more), a, left)
    ensures forall w :: w in left <==> 0 <= w < |c.builds| && c.builds[w].Some?
    ensures Last(more).stop <==> left != {}
    decreases |c.builds| - k
  {
    if k == |c.builds| { return run, gone; }
    if c.builds[k].None? {
      more, left := RefusedGo(c, run, a, k + 1, gone);
    } else {
      more := Extend(c, run, k, Ok(""));
      more := Extend(c, more, k, Ok(""));
      more, left := RefusedGo(c, more, a, k + 1, gone + {k});
    }
  }

  /** Row 0 was answered and no other, and the workers left have yet to start. */
  ghost predicate Stopped(c: Config, s: State, k: nat) {
    && Shaped(c, s) && s.stop && Get(s.got, 0).Some? && Get(s.got, 0).value.Ok? && s.slots[0] == Get(s.got, 0)
    && (forall i :: 0 < i < c.rows ==> s.slots[i] == None)
    && (forall w :: 0 <= w < |s.workers| ==> s.workers[w].Gone? || (s.workers[w].Building? && c.builds[w].None? && w >= k))
  }

  lemma {:induction false} RestGo(c: Config, run: seq<State>, k: nat) returns (more: seq<State>)
    requires Run(c, run) && Stopped(c, Last(run), k) && k <= |c.builds|
    ensures Run(c, more) && Stopped(c, Last(more), |c.builds|)
    decreases |c.builds| - k
  {
    if k == |c.builds| { return run; }
    if Last(run).workers[k].Gone? {
      more := RestGo(c, run, k + 1);
    } else {
      more := Extend(c, run, k, Ok(""));
      more := Extend(c, more, k, Ok(""));
      more := Extend(c, more, k, Ok(""));
      more := RestGo(c, more, k + 1);
    }
  }

  /** One worker's client is built and another's refused: the refusal is put in
      slot 0, the answer about row 0 goes over it, and the flag keeps the other
      rows from being asked about. */
  lemma Overwritten(c: Config, a: nat, b: nat) returns (run: seq<State>)
    requires ValidConfig(c) && a < |c.builds| && b < |c.builds| && c.builds[a].None? && c.builds[b].Some?
    ensures Run(c, run) && Done(Last(run)) && |Last(run).slots| == c.rows
    ensures (forall i :: !ErrorAt(Last(run).slots, i)) && c.rows > 1 && Last(run).slots[1] == None
  {
    run := [Init(c)];
    InitInv(c);
    run := Extend(c, run, a, Ok(""));
    run := Extend(c, run, a, Ok(""));
    run := Extend(c, run, a, Ok(""));
    var gone;
    run, gone := RefusedGo(c, run, a, 0, {});
    assert b in gone;
    run := Extend(c, run, a, Ok(""));
    run := Extend(c, run, a, Ok(""));
    run := Extend(c, run, a, Ok(""));
    run := Extend(c, run, a, Ok(""));
    run := RestGo(c, run, 0);
  }

  /** The intent holds over every run exactly when building a client comes out
      the same for every worker. */
  lemma CompleteIffAlike(c: Config)
    requires ValidConfig(c)
    ensures Alike(c) <==> forall run :: Run(c, run) && Done(Last(run)) && |Last(run).slots| == c.rows ==> Complete(c, Last(run))
  {
    if Alike(c) {
      forall run | Run(c, run) && Done(Last(run)) ensures |Last(run).slots| == c.rows ==> Complete(c, Last(run)) {
        AlikeIsComplete(c, run);
      }
    } else {
      var a: nat, b: nat :| a < |c.builds| && b < |c.builds| && c.builds[a].None? && c.builds[b].Some?;
      var run := Overwritten(c, a, b);
      assert !Complete(c, Last(run));
    }
  }
}
