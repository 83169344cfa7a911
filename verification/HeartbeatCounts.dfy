/** What is due every so many heartbeats is due exactly once in as many, in every run. */
module HeartbeatCounts {
  import opened Types
  import opened Seqs
  import opened RouterModel

  /** How many heartbeats there have been up to step `k`, the first state not counted. */
  function Beats(run: seq<Moment>, k: nat): nat
    requires k < |run|
  {
    if k == 0 then 0 else Beats(run, k - 1) + if run[k].event.Heartbeat? then 1 else 0
  }

  /** The tick counter counts the heartbeats, and nothing else. */
  lemma {:induction false} TicksCountBeats(c: Config, run: seq<Moment>, k: nat)
    requires IsRun(c, run) && k < |run|
    ensures run[k].state.ticks == run[0].state.ticks + Beats(run, k)
  {
    if k > 0 {
      TicksCountBeats(c, run, k - 1);
      assert Step(c, run[k - 1].state, run[k].event, run[k].now, run[k].state);
      hide Step;
      TicksStep(c, run[k - 1].state, run[k].event, run[k].now, run[k].state);
    }
  }

  lemma TicksStep(c: Config, s: State, e: Event, now: int, s': State)
    requires Step(c, s, e, now, s')
    ensures s'.ticks == s.ticks + if e.Heartbeat? then 1 else 0
  {
    hide GraftAll, MakePrunes, PruneList, Beaten, Joined, Published, Left, AddBackoff;
    match e
    case Graft(id, score, graft) =>
      var start := GraftEffect(s, [], c.doPX, 0);
      GraftTicks(c, id, score, now, start, graft);
      var r := GraftAll(c, id, score, now, start, graft);
      PrunesTicks(c, r.s, id, r.prune, now);
    case Prune(id, prune) => PruneTicks(c, s, id, prune, now);
    case Heartbeat(score, passes) => BeatTicks(c, s, score, passes, now, s');
    case Subscribe(t, score) => JoinTicks(c, s.(subscriptions := s.subscriptions + {t}), t, score, s');
    case Unsubscribe(t) => LeaveTicks(c, s.(subscriptions := s.subscriptions - {t}), t, now);
    case Publish(t, score) => PublishTicks(c, s, t, score, now, s');
    case _ =>
  }

  lemma {:induction false} GraftTicks(c: Config, id: PeerId, score: real, now: int, e: GraftEffect,
                                      graft: seq<Option<Topic>>)
    ensures GraftAll(c, id, score, now, e, graft).s.ticks == e.s.ticks
  {
    if graft != [] {
      GraftTicks(c, id, score, now, e, graft[..|graft| - 1]);
      hide AddBackoff, AnswerTo;
    }
  }

  lemma {:induction false} PrunesTicks(c: Config, s: State, id: PeerId, topics: seq<Topic>, now: int)
    ensures MakePrunes(c, s, id, topics, now).ticks == s.ticks
  {
    if topics != [] {
      PrunesTicks(c, s, id, topics[..|topics| - 1], now);
      hide AddBackoff;
    }
  }

  lemma {:induction false} PruneTicks(c: Config, s: State, id: PeerId, prune: seq<PruneEntry>, now: int)
    ensures PruneList(c, s, id, prune, now).ticks == s.ticks
    decreases |prune|
  {
    if prune != [] && !PruneStops(s, prune[0]) {
      PruneTicks(c, PruneOne(c, s, id, prune[0], now), id, prune[1..], now);
      hide AddBackoff;
    }
  }

  lemma BeatTicks(c: Config, s: State, score: PeerId -> real, passes: map<Topic, Pass>, now: int, s': State)
    requires Beaten(c, s, score, passes, now, s')
    ensures s'.ticks == s.ticks + 1
  {
    hide MeshesMaintained, PrunesBacked, FanoutMaintained, ClearBackoff;
  }

  lemma JoinTicks(c: Config, s: State, t: Topic, score: PeerId -> real, s': State)
    requires Joined(c, s, t, score, s')
    ensures s'.ticks == s.ticks
  {
    hide JoinChoice;
  }

  lemma LeaveTicks(c: Config, s: State, t: Topic, now: int)
    ensures Left(c, s, t, now).ticks == s.ticks
  {
    hide AddBackoff;
  }

  lemma PublishTicks(c: Config, s: State, t: Topic, score: PeerId -> real, now: int, s': State)
    requires Published(c, s, t, score, now, s')
    ensures s'.ticks == s.ticks
  {
    hide RandomPick, PublishPool;
  }

  /** Step `k` is a heartbeat whose number is a multiple of `n`. */
  ghost predicate IsRound(run: seq<Moment>, n: nat, k: nat) {
    0 < n && 0 < k < |run| && run[k].event.Heartbeat? && (run[k - 1].state.ticks + 1) % n == 0
  }

  /** A round among the `n` heartbeats after the first `lo`. */
  ghost predicate RoundAmong(run: seq<Moment>, n: nat, lo: nat, k: nat) {
    IsRound(run, n, k) && lo < Beats(run, k) <= lo + n
  }

  /** The step of the heartbeat with a given number. */
  lemma {:induction false} BeatAt(run: seq<Moment>, last: nat, b: nat) returns (k: nat)
    requires last < |run| && 0 < b <= Beats(run, last)
    ensures 0 < k <= last && run[k].event.Heartbeat? && Beats(run, k) == b
  {
    if run[last].event.Heartbeat? && Beats(run, last) == b {
      k := last;
    } else {
      k := BeatAt(run, last - 1, b);
    }
  }

  lemma {:induction false} BeatsGrow(run: seq<Moment>, i: nat, j: nat)
    requires i <= j < |run|
    ensures Beats(run, i) <= Beats(run, j)
    ensures i < j && run[j].event.Heartbeat? ==> Beats(run, i) < Beats(run, j)
  {
    if i < j {
      BeatsGrow(run, i, j - 1);
    }
  }

  /** Of any `n` consecutive heartbeats of a run exactly one is a round: the one whose number is a multiple of `n`. */
  lemma OneRoundInN(c: Config, run: seq<Moment>, n: nat, lo: nat)
    requires IsRun(c, run) && run != [] && n > 0 && lo + n <= Beats(run, |run| - 1)
    ensures exists k: nat :: RoundAmong(run, n, lo, k)
    ensures forall j: nat, k: nat :: RoundAmong(run, n, lo, j) && RoundAmong(run, n, lo, k) ==> j == k
  {
    hide *;
    var first := run[0].state.ticks;
    var b := NextMultiple(first + lo, n);
    var k := BeatAt(run, |run| - 1, b - first);
    RoundNumber(c, run, k);
    Among(run, n, lo, k);
    forall j: nat, k: nat | RoundAmong(run, n, lo, j) && RoundAmong(run, n, lo, k) ensures j == k {
      SameRound(c, run, n, lo, j, k);
    }
  }

  lemma Among(run: seq<Moment>, n: nat, lo: nat, k: nat)
    requires 0 < n && 0 < k < |run| && run[k].event.Heartbeat?
    requires (run[k - 1].state.ticks + 1) % n == 0 && lo < Beats(run, k) <= lo + n
    ensures RoundAmong(run, n, lo, k)
  {
  }

  lemma SameRound(c: Config, run: seq<Moment>, n: nat, lo: nat, j: nat, k: nat)
    requires IsRun(c, run) && RoundAmong(run, n, lo, j) && RoundAmong(run, n, lo, k)
    ensures j == k
  {
    hide IsRun, Beats;
    RoundNumber(c, run, j);
    RoundNumber(c, run, k);
    MultiplesApart(run[0].state.ticks + Beats(run, j), run[0].state.ticks + Beats(run, k), n);
    if j < k {
      BeatsGrow(run, j, k);
    } else if k < j {
      BeatsGrow(run, k, j);
    }
  }

  lemma RoundNumber(c: Config, run: seq<Moment>, k: nat)
    requires IsRun(c, run) && 0 < k < |run| && run[k].event.Heartbeat?
    ensures run[k - 1].state.ticks + 1 == run[0].state.ticks + Beats(run, k)
  {
    TicksCountBeats(c, run, k - 1);
  }

  lemma NextMultiple(a: nat, n: nat) returns (b: nat)
    requires n > 0
    ensures a < b <= a + n && b % n == 0
  {
    b := a + n - a % n;
    Divided(a, n);
    assert (a / n + 1) * n == a / n * n + n;
    NoRemainder(b, n, a / n + 1);
  }

  lemma MultiplesApart(a: nat, b: nat, n: nat)
    requires n > 0 && a % n == 0 && b % n == 0 && a - b < n && b - a < n
    ensures a == b
  {
    Divided(a, n);
    Divided(b, n);
    assert (a / n - b / n) * n == a / n * n - b / n * n;
    SmallMultiple(a / n - b / n, n);
  }

  lemma Divided(a: int, n: nat)
    requires n > 0
    ensures a == a / n * n + a % n
  {
  }

  lemma SmallMultiple(k: int, n: int)
    requires -n < k * n < n
    ensures k == 0
  {
    assert k >= 1 ==> (k - 1) * n >= 0;
    assert k <= -1 ==> (-1 - k) * n >= 0;
  }

  lemma NoRemainder(a: int, n: nat, q: int)
    requires n > 0 && a == q * n
    ensures a % n == 0
  {
    Divided(a, n);
    assert (q - a / n) * n == q * n - a / n * n;
    SmallMultiple(q - a / n, n);
  }
}
