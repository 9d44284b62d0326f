/** Which components the assistant offers for a request: the eight likeliest, with
    sources and sinks of its own if the request names none. */
module ComponentPick {
  import opened Common

  datatype Namespace = Source | Transform | Sink | Quality | Control | Code

  datatype Spec = Spec(id: string, namespace: Namespace)

  const MAX_PICKED := 8
  const FALLBACK_SOURCES := {"src.file.csv", "src.file.parquet"}
  const FALLBACK_SINKS := {"snk.file.parquet", "snk.file.csv"}

  predicate Offered(namespace: Namespace) {
    !namespace.Control? && !namespace.Code?
  }

  // -------------------------------------------------------------------------
  // The likeliest
  // -------------------------------------------------------------------------

  /** Whether `a` ranks above `b`: by score, and by place where scores are equal. */
  predicate Before(scores: seq<nat>, a: nat, b: nat)
    requires a < |scores| && b < |scores|
  {
    scores[a] > scores[b] || (scores[a] == scores[b] && a < b)
  }

  predicate Candidate(specs: seq<Spec>, scores: seq<nat>, i: nat)
    requires |specs| == |scores|
  {
    i < |specs| && Offered(specs[i].namespace) && scores[i] >= 2
  }

  ghost predicate Ranked(scores: seq<nat>, picked: seq<nat>) {
    && (forall i :: 0 <= i < |picked| ==> picked[i] < |scores|)
    && (forall i, j :: 0 <= i < j < |picked| ==> Before(scores, picked[i], picked[j]))
  }

  function Insert(scores: seq<nat>, x: nat, ranked: seq<nat>): (r: seq<nat>)
    requires x < |scores| && forall y :: y in ranked ==> y < |scores|
    ensures forall y :: y in r <==> y == x || y in ranked
  {
    if ranked == [] then [x]
    else
      assert ranked == [ranked[0]] + ranked[1..] && ranked[0] in ranked && forall y :: y in ranked[1..] ==> y in ranked;
      if Before(scores, x, ranked[0]) then [x] + ranked else [ranked[0]] + Insert(scores, x, ranked[1..])
  }

  lemma {:induction false} InsertRanks(scores: seq<nat>, x: nat, ranked: seq<nat>)
    requires x < |scores| && Ranked(scores, ranked) && x !in ranked
    ensures Ranked(scores, Insert(scores, x, ranked))
  {
    if ranked != [] && !Before(scores, x, ranked[0]) {
      assert ranked == [ranked[0]] + ranked[1..];
      InsertRanks(scores, x, ranked[1..]);
      var rest := Insert(scores, x, ranked[1..]);
      forall j | 0 <= j < |rest| ensures Before(scores, ranked[0], rest[j]) { assert rest[j] in rest; }
    }
  }

  /** The candidates among the first `n`, ranked. */
  function Rank(specs: seq<Spec>, scores: seq<nat>, n: nat): (ranked: seq<nat>)
    requires |specs| == |scores| && n <= |specs|
    ensures forall i: nat :: i in ranked <==> i < n && Candidate(specs, scores, i)
  {
    if n == 0 then []
    else
      var ranked := Rank(specs, scores, n - 1);
      if Candidate(specs, scores, n - 1) then Insert(scores, n - 1, ranked) else ranked
  }

  lemma {:induction false} RankRanks(specs: seq<Spec>, scores: seq<nat>, n: nat)
    requires |specs| == |scores| && n <= |specs|
    ensures Ranked(scores, Rank(specs, scores, n))
  {
    if n > 0 {
      RankRanks(specs, scores, n - 1);
      if Candidate(specs, scores, n - 1) { InsertRanks(scores, n - 1, Rank(specs, scores, n - 1)); }
    }
  }

  function Top(specs: seq<Spec>, scores: seq<nat>): (top: seq<nat>)
    requires |specs| == |scores|
    ensures |top| <= MAX_PICKED && forall i :: 0 <= i < |top| ==> top[i] < |specs|
  {
    var ranked := Rank(specs, scores, |specs|);
    assert forall i :: 0 <= i < |ranked| ==> ranked[i] in ranked;
    ranked[..Min(|ranked|, MAX_PICKED)]
  }

  /** They are candidates, ranked. */
  lemma TopIsRanked(specs: seq<Spec>, scores: seq<nat>)
    requires |specs| == |scores|
    ensures Ranked(scores, Top(specs, scores)) && forall i :: i in Top(specs, scores) ==> Candidate(specs, scores, i)
  {
    RankRanks(specs, scores, |specs|);
  }

  /** A component of a kind that is offered, whose score is two or more, is left
      out only for eight of a higher score, or of its own and further up. */
  lemma TopIsBest(specs: seq<Spec>, scores: seq<nat>, i: nat, k: nat)
    requires |specs| == |scores| && i < |specs| && i !in Top(specs, scores) && k < |Top(specs, scores)|
    requires !specs[i].namespace.Control? && !specs[i].namespace.Code? && scores[i] >= 2
    ensures |Top(specs, scores)| == 8
    ensures var t := Top(specs, scores)[k]; scores[t] > scores[i] || (scores[t] == scores[i] && t < i)
  {
    var ranked, top := Rank(specs, scores, |specs|), Top(specs, scores);
    RankRanks(specs, scores, |specs|);
    assert i in ranked;
    var j :| 0 <= j < |ranked| && ranked[j] == i;
    assert forall m :: 0 <= m < |top| ==> ranked[m] == top[m] && top[m] in top;
  }

  // -------------------------------------------------------------------------
  // Sources and sinks of its own
  // -------------------------------------------------------------------------

  predicate Any(specs: seq<Spec>, picked: seq<nat>, namespace: Namespace) {
    exists i :: 0 <= i < |picked| && picked[i] < |specs| && specs[picked[i]].namespace == namespace
  }

  /** The components with some ids, in the registry's order. */
  function WithIds(specs: seq<Spec>, ids: set<string>, n: nat): (found: seq<nat>)
    requires n <= |specs|
    ensures forall i :: 0 <= i < |found| ==> found[i] < n && specs[found[i]].id in ids
    ensures forall i: nat :: i < n && specs[i].id in ids ==> i in found
    ensures forall i, j :: 0 <= i < j < |found| ==> found[i] < found[j]
  {
    if n == 0 then []
    else
      var found := WithIds(specs, ids, n - 1);
      if specs[n - 1].id in ids then found + [n - 1] else found
  }

  /** No id names two components, and what a component is follows from its id. A
      registry may lack the fallbacks. */
  predicate Registry(specs: seq<Spec>) {
    && (forall i, j :: 0 <= i < j < |specs| ==> specs[i].id != specs[j].id)
    && forall i :: 0 <= i < |specs| ==>
         && (specs[i].id in FALLBACK_SOURCES ==> specs[i].namespace == Source)
         && (specs[i].id in FALLBACK_SINKS ==> specs[i].namespace == Sink)
  }

  function Sources(specs: seq<Spec>): seq<nat> {
    WithIds(specs, FALLBACK_SOURCES, |specs|)
  }

  function Sinks(specs: seq<Spec>): seq<nat> {
    WithIds(specs, FALLBACK_SINKS, |specs|)
  }

  /** There are no more of them than ids. */
  lemma FewFound(specs: seq<Spec>, ids: set<string>, found: seq<nat>)
    requires Registry(specs) && forall i :: 0 <= i < |found| ==> found[i] < |specs| && specs[found[i]].id in ids
    requires forall i, j :: 0 <= i < j < |found| ==> found[i] < found[j]
    ensures |found| <= |ids|
    decreases |found|
  {
    if found != [] {
      var n := |found| - 1;
      forall i | 0 <= i < n ensures specs[found[..n][i]].id in ids - {specs[found[n]].id} {
        assert found[..n][i] == found[i];
      }
      FewFound(specs, ids - {specs[found[n]].id}, found[..n]);
    }
  }

  lemma Fallbacks(specs: seq<Spec>)
    requires Registry(specs)
    ensures |Sources(specs)| <= 2 && |Sinks(specs)| <= 2
  {
    FewFound(specs, FALLBACK_SOURCES, Sources(specs));
    FewFound(specs, FALLBACK_SINKS, Sinks(specs));
  }

  ghost predicate Picks(specs: seq<Spec>, picked: seq<nat>) {
    && |picked| <= MAX_PICKED && Distinct(picked)
    && forall i :: 0 <= i < |picked| ==> picked[i] < |specs| && Offered(specs[picked[i]].namespace)
  }

  /** What is picked once a kind is there: the fallbacks at the end, after making
      room for them. */
  function WithKind(specs: seq<Spec>, picked: seq<nat>, kind: Namespace, fallback: set<string>): seq<nat> {
    if Any(specs, picked, kind) then picked
    else (if |picked| + 2 > MAX_PICKED then picked[..MAX_PICKED - 2] else picked) + WithIds(specs, fallback, |specs|)
  }

  lemma {:induction false} KindIsThere(specs: seq<Spec>, picked: seq<nat>, kind: Namespace, fallback: set<string>)
    requires Picks(specs, picked) && Offered(kind) && |WithIds(specs, fallback, |specs|)| <= 2
    requires forall i :: 0 <= i < |specs| && specs[i].id in fallback ==> specs[i].namespace == kind
    ensures Picks(specs, WithKind(specs, picked, kind, fallback))
    ensures Any(specs, WithKind(specs, picked, kind, fallback), kind) <==> Any(specs, picked, kind) || WithIds(specs, fallback, |specs|) != []
  {
    if !Any(specs, picked, kind) {
      var found := WithIds(specs, fallback, |specs|);
      var kept := if |picked| + 2 > MAX_PICKED then picked[..MAX_PICKED - 2] else picked;
      AnyJoins(specs, kept, found, kind);
      FoundIs(specs, found, kind);
      PicksMore(specs, picked, kept, found, kind);
    }
  }

  /** It adds fallbacks only. */
  lemma KindEarned(specs: seq<Spec>, scores: seq<nat>, picked: seq<nat>, kind: Namespace, fallback: set<string>)
    requires |specs| == |scores| && fallback <= FALLBACK_SOURCES + FALLBACK_SINKS
    requires forall i :: 0 <= i < |picked| ==> picked[i] < |specs| && Earned(specs[picked[i]], scores[picked[i]])
    ensures forall x :: x in WithKind(specs, picked, kind, fallback) ==> x < |specs| && Earned(specs[x], scores[x])
  {
    var kept := if |picked| > 6 then picked[..6] else picked;
    forall x | x in kept ensures x in picked {
    }
    forall x | x in WithIds(specs, fallback, |specs|) ensures x < |specs| && Earned(specs[x], scores[x]) {
      assert specs[x].id in fallback;
    }
  }

  lemma SixStay(specs: seq<Spec>, picked: seq<nat>, kind: Namespace, fallback: set<string>)
    ensures |WithKind(specs, picked, kind, fallback)| >= Min(|picked|, 6)
    ensures picked[..Min(|picked|, 6)] == WithKind(specs, picked, kind, fallback)[..Min(|picked|, 6)]
  {
  }

  lemma FoundIs(specs: seq<Spec>, found: seq<nat>, kind: Namespace)
    requires forall i :: 0 <= i < |found| ==> found[i] < |specs| && specs[found[i]].namespace == kind
    ensures Any(specs, found, kind) <==> found != []
  {
    assert found != [] ==> found[0] < |specs| && specs[found[0]].namespace == kind;
  }

  lemma PicksMore(specs: seq<Spec>, picked: seq<nat>, kept: seq<nat>, found: seq<nat>, kind: Namespace)
    requires Picks(specs, picked) && kept <= picked && |kept| + |found| <= MAX_PICKED && !Any(specs, picked, kind)
    requires Distinct(found) && Offered(kind)
    requires forall i :: 0 <= i < |found| ==> found[i] < |specs| && specs[found[i]].namespace == kind
    ensures Picks(specs, kept + found)
  {
    forall x | x in kept ensures x !in found {
      var i :| 0 <= i < |kept| && kept[i] == x;
      assert picked[i] == x;
    }
    DistinctJoins(kept, found);
  }

  function Key(namespace: Namespace): nat {
    match namespace
    case Source => 0
    case Sink => 2
    case _ => 1
  }

  /** Those of one key, in order. */
  function OfKey(specs: seq<Spec>, picked: seq<nat>, key: nat): (r: seq<nat>)
    requires forall i :: 0 <= i < |picked| ==> picked[i] < |specs|
  {
    if picked == [] then []
    else
      var n := |picked| - 1;
      OfKey(specs, picked[..n], key) + if Key(specs[picked[n]].namespace) == key then [picked[n]] else []
  }

  /** Sources first, sinks last, each kind in order. */
  function ByKey(specs: seq<Spec>, picked: seq<nat>): seq<nat>
    requires forall i :: 0 <= i < |picked| ==> picked[i] < |specs|
  {
    OfKey(specs, picked, 0) + OfKey(specs, picked, 1) + OfKey(specs, picked, 2)
  }

  lemma {:induction false} OfKeyIs(specs: seq<Spec>, picked: seq<nat>, key: nat)
    requires forall i :: 0 <= i < |picked| ==> picked[i] < |specs|
    ensures forall x :: x in OfKey(specs, picked, key) <==> x in picked && Key(specs[x].namespace) == key
  {
    if picked != [] {
      OfKeyIs(specs, picked[..|picked| - 1], key);
      assert picked == picked[..|picked| - 1] + [picked[|picked| - 1]];
    }
  }

  lemma {:induction false} EachHasAKey(specs: seq<Spec>, picked: seq<nat>)
    requires forall i :: 0 <= i < |picked| ==> picked[i] < |specs|
    ensures |OfKey(specs, picked, 0)| + |OfKey(specs, picked, 1)| + |OfKey(specs, picked, 2)| == |picked|
  {
    if picked != [] { EachHasAKey(specs, picked[..|picked| - 1]); }
  }

  lemma {:induction false} OfKeyDistinct(specs: seq<Spec>, picked: seq<nat>, key: nat)
    requires Distinct(picked) && forall i :: 0 <= i < |picked| ==> picked[i] < |specs|
    ensures Distinct(OfKey(specs, picked, key))
  {
    if picked != [] {
      var before := picked[..|picked| - 1];
      OfKeyDistinct(specs, before, key);
      OfKeyIs(specs, before, key);
      assert forall i :: 0 <= i < |OfKey(specs, before, key)| ==> OfKey(specs, before, key)[i] in before;
    }
  }

  /** Sources first, sinks last. */
  predicate InOrder(specs: seq<Spec>, picked: seq<nat>)
    requires forall i :: 0 <= i < |picked| ==> picked[i] < |specs|
  {
    forall i, j :: 0 <= i < j < |picked| ==>
      && (specs[picked[j]].namespace.Source? ==> specs[picked[i]].namespace.Source?)
      && (specs[picked[i]].namespace.Sink? ==> specs[picked[j]].namespace.Sink?)
  }

  lemma ByKeySorts(specs: seq<Spec>, picked: seq<nat>)
    requires forall i :: 0 <= i < |picked| ==> picked[i] < |specs|
    ensures forall i :: 0 <= i < |ByKey(specs, picked)| ==> ByKey(specs, picked)[i] < |specs|
    ensures InOrder(specs, ByKey(specs, picked))
  {
    var sorted := ByKey(specs, picked);
    OfKeyIs(specs, picked, 0);
    OfKeyIs(specs, picked, 1);
    OfKeyIs(specs, picked, 2);
    var a, b := OfKey(specs, picked, 0), OfKey(specs, picked, 1);
    forall i | 0 <= i < |sorted|
      ensures sorted[i] in picked && Key(specs[sorted[i]].namespace) == if i < |a| then 0 else if i < |a| + |b| then 1 else 2
    {
      assert i < |a| ==> sorted[i] in a;
      assert |a| <= i < |a| + |b| ==> sorted[i] in b;
      assert i >= |a| + |b| ==> sorted[i] in OfKey(specs, picked, 2);
    }
  }

  lemma ByKeySame(specs: seq<Spec>, picked: seq<nat>)
    requires Picks(specs, picked)
    ensures Picks(specs, ByKey(specs, picked)) && forall x :: x in ByKey(specs, picked) <==> x in picked
    ensures forall namespace :: Any(specs, ByKey(specs, picked), namespace) <==> Any(specs, picked, namespace)
  {
    var sorted := ByKey(specs, picked);
    EachHasAKey(specs, picked);
    ByKeyIs(specs, picked);
    forall i | 0 <= i < |sorted| ensures sorted[i] in picked {
    }
    forall i | 0 <= i < |picked| ensures picked[i] in sorted {
    }
  }

  lemma ByKeyIs(specs: seq<Spec>, picked: seq<nat>)
    requires Distinct(picked) && forall i :: 0 <= i < |picked| ==> picked[i] < |specs|
    ensures Distinct(ByKey(specs, picked)) && forall x :: x in ByKey(specs, picked) <==> x in picked
  {
    var a, b, c := OfKey(specs, picked, 0), OfKey(specs, picked, 1), OfKey(specs, picked, 2);
    OfKeyIs(specs, picked, 0);
    OfKeyIs(specs, picked, 1);
    OfKeyIs(specs, picked, 2);
    OfKeyDistinct(specs, picked, 0);
    OfKeyDistinct(specs, picked, 1);
    OfKeyDistinct(specs, picked, 2);
    DistinctJoins(a, b);
    DistinctJoins(a + b, c);
  }

  lemma DistinctJoins(a: seq<nat>, b: seq<nat>)
    requires Distinct(a) && Distinct(b) && forall x :: x in a ==> x !in b
    ensures Distinct(a + b)
  {
    forall i, j | 0 <= i < j < |a + b| ensures (a + b)[i] != (a + b)[j] {
      if i < |a| <= j { assert a[i] in a && b[j - |a|] in b; }
    }
  }

  // -------------------------------------------------------------------------
  // The pick
  // -------------------------------------------------------------------------

  function AllPicked(specs: seq<Spec>, scores: seq<nat>): seq<nat>
    requires |specs| == |scores|
  {
    WithKind(specs, WithKind(specs, Top(specs, scores), Source, FALLBACK_SOURCES), Sink, FALLBACK_SINKS)
  }

  /** When there is a source in the end: one of the likeliest, or a fallback, that
      making room for sinks leaves in. */
  predicate KeepsSource(specs: seq<Spec>, top: seq<nat>) {
    if Any(specs, top, Source) then Any(specs, top, Sink) || |top| <= 6 || Any(specs, top[..6], Source)
    else Sources(specs) != [] && (|top| <= 5 || Any(specs, top[..Min(|top|, 6)], Sink))
  }

  /** When there is a sink: a fallback, or one of the likeliest that making room
      for sources leaves in. */
  predicate KeepsSink(specs: seq<Spec>, top: seq<nat>) {
    || Sinks(specs) != []
    || Any(specs, if Any(specs, top, Source) then top else top[..Min(|top|, 6)], Sink)
  }

  /** The request named it and its kind is offered, or it is one of the four that
      are offered without being named. */
  predicate Earned(spec: Spec, score: nat) {
    || (spec.namespace != Control && spec.namespace != Code && score >= 2)
    || spec.id in {"src.file.csv", "src.file.parquet", "snk.file.csv", "snk.file.parquet"}
  }

  /** At most eight components, none twice, sources first and sinks last; each
      earned its place, the six likeliest keep theirs, and all eight do if a
      source and a sink are among them; and exactly when there is a source, and
      a sink. */
  method Pick(specs: seq<Spec>, scores: seq<nat>) returns (picked: seq<nat>)
    requires |specs| == |scores| && Registry(specs)
    ensures Picks(specs, picked) && InOrder(specs, picked) && |picked| <= 8
    ensures forall x :: x in picked ==> Earned(specs[x], scores[x])
    ensures forall k :: 0 <= k < Min(|Top(specs, scores)|, 6) ==> Top(specs, scores)[k] in picked
    ensures Any(specs, Top(specs, scores), Source) && Any(specs, Top(specs, scores), Sink) ==>
      forall x :: x in picked <==> x in Top(specs, scores)
    ensures forall x :: x in picked <==> x in AllPicked(specs, scores)
    ensures Any(specs, picked, Sink) <==> KeepsSink(specs, Top(specs, scores))
    ensures Any(specs, picked, Source) <==> KeepsSource(specs, Top(specs, scores))
  {
    picked := Top(specs, scores);
    TopPicks(specs, scores);
    Fallbacks(specs);
    if !Any(specs, picked, Source) {
      if |picked| + 2 > MAX_PICKED { picked := picked[..MAX_PICKED - 2]; }
      picked := picked + WithIds(specs, FALLBACK_SOURCES, |specs|);
    }
    KindIsThere(specs, Top(specs, scores), Source, FALLBACK_SOURCES);
    ghost var withSources := picked;
    if !Any(specs, picked, Sink) {
      if |picked| + 2 > MAX_PICKED { picked := picked[..MAX_PICKED - 2]; }
      picked := picked + WithIds(specs, FALLBACK_SINKS, |specs|);
    }
    KindIsThere(specs, withSources, Sink, FALLBACK_SINKS);
    SourceStays(specs, Top(specs, scores));
    SinkStays(specs, Top(specs, scores));
    AllEarned(specs, scores);
    ByKeySorts(specs, picked);
    ByKeySame(specs, picked);
    picked := ByKey(specs, picked);
  }

  lemma AllEarned(specs: seq<Spec>, scores: seq<nat>)
    requires |specs| == |scores|
    ensures forall x :: x in AllPicked(specs, scores) ==> x < |specs| && Earned(specs[x], scores[x])
    ensures forall k :: 0 <= k < Min(|Top(specs, scores)|, 6) ==> Top(specs, scores)[k] in AllPicked(specs, scores)
  {
    var top := Top(specs, scores);
    var withSources := WithKind(specs, top, Source, FALLBACK_SOURCES);
    var all := WithKind(specs, withSources, Sink, FALLBACK_SINKS);
    TopIsRanked(specs, scores);
    assert forall i :: 0 <= i < |top| ==> top[i] in top;
    KindEarned(specs, scores, top, Source, FALLBACK_SOURCES);
    assert forall i :: 0 <= i < |withSources| ==> withSources[i] in withSources;
    KindEarned(specs, scores, withSources, Sink, FALLBACK_SINKS);
    SixStay(specs, top, Source, FALLBACK_SOURCES);
    SixStay(specs, withSources, Sink, FALLBACK_SINKS);
    forall k | 0 <= k < Min(|top|, 6) ensures top[k] in all {
      assert top[k] == top[..Min(|top|, 6)][k] == withSources[k] == withSources[..Min(|withSources|, 6)][k] == all[k];
    }
  }

  /** Making room for sources takes what is beyond six. */
  lemma SinkStays(specs: seq<Spec>, top: seq<nat>)
    requires Picks(specs, top) && Registry(specs)
    ensures Sinks(specs) != [] || Any(specs, WithKind(specs, top, Source, FALLBACK_SOURCES), Sink) <==> KeepsSink(specs, top)
  {
    var kept := if |top| > 6 then top[..6] else top;
    assert kept == top[..Min(|top|, 6)];
    NoSinks(specs);
    AnyJoins(specs, kept, Sources(specs), Sink);
  }

  lemma NoSinks(specs: seq<Spec>)
    requires Registry(specs)
    ensures !Any(specs, Sources(specs), Sink) && !Any(specs, Sinks(specs), Source)
  {
  }

  lemma TopPicks(specs: seq<Spec>, scores: seq<nat>)
    requires |specs| == |scores|
    ensures Picks(specs, Top(specs, scores))
  {
    var top := Top(specs, scores);
    TopIsRanked(specs, scores);
    assert forall i :: 0 <= i < |top| ==> top[i] in top;
  }

  lemma SourceStays(specs: seq<Spec>, top: seq<nat>)
    requires Picks(specs, top) && Registry(specs)
    ensures Any(specs, WithKind(specs, WithKind(specs, top, Source, FALLBACK_SOURCES), Sink, FALLBACK_SINKS), Source) <==> KeepsSource(specs, top)
  {
    NoSinks(specs);
    Fallbacks(specs);
    if Any(specs, top, Source) {
      AnyJoins(specs, if |top| > 6 then top[..6] else top, Sinks(specs), Source);
    } else {
      FallbackStays(specs, top, Sources(specs), Sinks(specs));
    }
  }

  /** The fallback sources come last, where room for sinks is made. */
  lemma FallbackStays(specs: seq<Spec>, top: seq<nat>, sources: seq<nat>, sinks: seq<nat>)
    requires |sources| <= 2 && !Any(specs, top, Source) && !Any(specs, sources, Sink) && !Any(specs, sinks, Source)
    requires sources != [] ==> sources[0] < |specs| && specs[sources[0]].namespace == Source
    ensures var all := (if |top| > 6 then top[..6] else top) + sources;
      && (Any(specs, all, Sink) <==> Any(specs, top[..Min(|top|, 6)], Sink))
      && (Any(specs, all, Source) <==> sources != [])
      && (Any(specs, (if |all| > 6 then all[..6] else all) + sinks, Source) <==> sources != [] && |top| <= 5)
  {
    var kept := if |top| > 6 then top[..6] else top;
    var all := kept + sources;
    assert top[..Min(|top|, 6)] == kept;
    AnyJoins(specs, kept, sources, Source);
    AnyJoins(specs, kept, sources, Sink);
    AnyJoins(specs, if |all| > 6 then all[..6] else all, sinks, Source);
    if sources != [] {
      if |kept| == 6 { assert all[..6] == kept; } else { FirstIsIn(specs, kept, sources, sinks); }
    } else {
      assert all == kept;
    }
  }

  lemma FirstIsIn(specs: seq<Spec>, kept: seq<nat>, sources: seq<nat>, sinks: seq<nat>)
    requires |kept| <= 5 && 0 < |sources| <= 2 && sources[0] < |specs| && specs[sources[0]].namespace == Source
    ensures var all := kept + sources; Any(specs, if |all| > 6 then all[..6] else all, Source)
  {
    var all := kept + sources;
    var some := if |all| > 6 then all[..6] else all;
    assert some[|kept|] == sources[0];
  }

  lemma AnyJoins(specs: seq<Spec>, a: seq<nat>, b: seq<nat>, namespace: Namespace)
    ensures Any(specs, a + b, namespace) <==> Any(specs, a, namespace) || Any(specs, b, namespace)
  {
    assert forall i :: 0 <= i < |a| ==> (a + b)[i] == a[i];
    assert forall i :: 0 <= i < |b| ==> (a + b)[|a| + i] == b[i];
  }

  /** So a request that names six transforms, and neither a source nor a sink of
      its own, is offered no source at all. */
  lemma {:induction false} TransformsCrowdOut(specs: seq<Spec>, scores: seq<nat>)
    requires |specs| == |scores| && Registry(specs) && |Rank(specs, scores, |specs|)| >= 6
    requires forall i: nat :: Candidate(specs, scores, i) ==> specs[i].namespace == Transform
    ensures !Any(specs, AllPicked(specs, scores), Source)
  {
    var top := Top(specs, scores);
    TopPicks(specs, scores);
    TopIsRanked(specs, scores);
    forall i | 0 <= i < |top| ensures specs[top[i]].namespace == Transform {
      assert top[i] in top && Candidate(specs, scores, top[i]);
    }
    CrowdedOut(specs, top);
  }

  lemma CrowdedOut(specs: seq<Spec>, top: seq<nat>)
    requires Picks(specs, top) && Registry(specs) && |top| >= 6 && forall i :: 0 <= i < |top| ==> specs[top[i]].namespace == Transform
    ensures !Any(specs, WithKind(specs, WithKind(specs, top, Source, FALLBACK_SOURCES), Sink, FALLBACK_SINKS), Source)
  {
    SourceStays(specs, top);
  }
}
