/** What a message's record says, read off the events since it was made, and how long it is kept. */
module RecordRules {
  import opened Types
  import opened Seqs
  import opened ComputeScore
  import opened Deliveries
  import opened PeerScoreModel

  // ----- the verdict

  predicate Decides(e: RecordEvent) { e.Deliver? || (e.Rejected? && (e.reason == Ignore || e.reason == Reject)) }

  /** The first event that decides about the message. */
  function Verdict(events: seq<RecordEvent>): Option<RecordEvent> {
    if events == [] then None
    else
      var before, e := Verdict(events[..|events| - 1]), events[|events| - 1];
      if before == None && Decides(e) then Some(e) else before
  }

  /** Those who sent a copy. */
  function Senders(events: seq<RecordEvent>): set<PeerId> {
    if events == [] then {}
    else
      var e := events[|events| - 1];
      Senders(events[..|events| - 1]) + if e.Duplicate? then {e.from} else {}
  }

  /**
   * The first delivery, or rejection for being invalid or ignored, decides the status for good. The record names all
   * who sent a copy, unless the message was rejected: then it names nobody.
   */
  lemma {:induction false} VerdictRule(r: Record, events: seq<RecordEvent>)
    requires r.status == Unknown && r.peers == {}
    ensures var now := RunRecord(r, events);
            match Verdict(events)
            case None => now.status == Unknown && now.peers == Senders(events)
            case Some(Deliver(_, time)) => now.status == Valid && now.validated == time && now.peers == Senders(events)
            case Some(Rejected(_, reason)) =>
              now.status == (if reason == Ignore then Ignored else Invalid) && now.peers == {}
            case _ => false
  {
    if events != [] {
      VerdictRule(r, events[..|events| - 1]);
    }
  }

  // ----- how long it is kept

  ghost predicate FirstSeenAt(s: State, msg: MsgId, f: int) { msg in s.records && s.records[msg].firstSeen == f }

  /**
   * Two minutes after the message was first seen, its record goes with the next collection; nothing else takes it
   * away.
   */
  lemma KeptIff(c: Config, s: State, e: Event, now: int, msg: MsgId, f: int)
    requires Scorable(c.params) && FirstSeenAt(s, msg, f)
    ensures e.Collect? && now > f + 120000 ==> msg !in Next(c, s, e, now).records
    ensures !(e.Collect? && now > f + 120000) ==> FirstSeenAt(Next(c, s, e, now), msg, f)
  {
    hide Scorable, MessageStats, MarkAll, Unlist, ScoreRead, ScoreNow, RefreshedStats;
  }

  /** The first event about a message makes its record. */
  predicate About(e: Event, msg: MsgId) {
    || (e.ValidateMessage? && e.msg == msg) || (e.DeliverMessage? && e.msg == msg)
    || (e.DuplicateMessage? && e.msg == msg)
    || (e.RejectMessage? && e.msg == msg && e.reason != Error && e.reason != Blacklisted)
  }

  lemma MadeIff(c: Config, s: State, e: Event, now: int, msg: MsgId)
    requires Scorable(c.params) && msg !in s.records
    ensures About(e, msg) ==> FirstSeenAt(Next(c, s, e, now), msg, now)
    ensures !About(e, msg) ==> msg !in Next(c, s, e, now).records
  {
    hide Scorable, MessageStats, MarkAll, Unlist, ScoreRead, ScoreNow, RefreshedStats;
  }

  /** When the record there is was made, read off the run. */
  function MadeAt(steps: seq<Timed>, msg: MsgId): Option<int> {
    if steps == [] then None
    else
      var before, last := MadeAt(steps[..|steps| - 1], msg), steps[|steps| - 1];
      if before.None? then (if About(last.e, msg) then Some(last.now) else None)
      else if last.e.Collect? && last.now > before.value + 120000 then None
      else before
  }

  /**
   * In every run a record is there from the first event about its message to the first collection after two minutes.
   */
  lemma {:induction false} RecordKeptIff(c: Config, steps: seq<Timed>, msg: MsgId)
    requires Scorable(c.params)
    ensures msg in Run(c, steps).records <==> MadeAt(steps, msg).Some?
    ensures msg in Run(c, steps).records ==> Run(c, steps).records[msg].firstSeen == MadeAt(steps, msg).value
  {
    if steps != [] {
      var before, last := steps[..|steps| - 1], steps[|steps| - 1];
      RecordKeptIff(c, before, msg);
      var s := Run(c, before);
      assert Run(c, steps) == Next(c, s, last.e, last.now);
      hide Next, Scorable, About;
      if msg in s.records {
        KeptIff(c, s, last.e, last.now, msg, s.records[msg].firstSeen);
      } else {
        MadeIff(c, s, last.e, last.now, msg);
      }
    }
  }
}
