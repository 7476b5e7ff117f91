/** The health and load poller (bbblb/services/poller.py): one poll of one
    server folds the back-end's getMeetings answer into a meeting count, a
    user count and a load figure, forgets the meetings the back-end no
    longer runs, and moves the server's health state machine. The clock and
    the back-end answer are parameters. */
module Poller {
  import opened Base
  import opened Model

  /** One <meeting> of a getMeetings answer. A None count is a missing or
      empty element, which the source reads as 0. */
  datatype MeetingReport = MeetingReport(
    endTime: Option<int>, internalId: Option<string>,
    participants: Option<int>, voice: Option<int>, video: Option<int>, createTime: Option<int>)

  /** The load factors and thresholds of the poller's configuration. */
  datatype PollConfig = PollConfig(
    base: real, user: real, voice: real, video: real, prediction: real, cooldown: real,
    maxError: int, minSuccess: int)

  function Count(v: Option<int>): int {
    match v
    case None => 0
    case Some(n) => n
  }

  predicate Ended(m: MeetingReport) {
    Count(m.endTime) > 0
  }

  /** Seconds since the meeting was created, clamped at zero. */
  function Age(m: MeetingReport, now: real): (a: real)
    ensures a >= 0.0
  {
    var a := now - Count(m.createTime) as real;
    if a < 0.0 then 0.0 else a
  }

  /** The extra load a young meeting gets: it decays linearly from the full
      prediction at age 0 to nothing at the cooldown age. */
  function Penalty(age: real, cfg: PollConfig): (p: real)
    requires age >= 0.0
    ensures age >= cfg.cooldown ==> p == 0.0
    ensures age < cfg.cooldown && cfg.prediction > 0.0 ==> 0.0 < p <= cfg.prediction
    ensures age < cfg.cooldown && cfg.prediction <= 0.0 ==> cfg.prediction <= p <= 0.0
  {
    if age < cfg.cooldown then
      assert 0.0 <= age / cfg.cooldown < 1.0;
      cfg.prediction * (1.0 - age / cfg.cooldown)
    else 0.0
  }

  /** The load one running meeting contributes. */
  function MeetingLoad(m: MeetingReport, cfg: PollConfig, now: real): real
  {
    cfg.base
    + Count(m.participants) as real * cfg.user
    + Count(m.voice) as real * cfg.voice
    + Count(m.video) as real * cfg.video
    + Penalty(Age(m, now), cfg)
  }

  /** Internal ids of the reported meetings that have not ended. */
  function Running(reports: seq<MeetingReport>): (r: set<Option<string>>)
    ensures forall id :: id in r ==> exists i :: 0 <= i < |reports| && reports[i].internalId == id
    decreases |reports|
  {
    if reports == [] then {}
    else
      var last := reports[|reports| - 1];
      Running(reports[..|reports| - 1]) + (if Ended(last) then {} else {last.internalId})
  }

  /** Participants over the meetings that have not ended. */
  function Users(reports: seq<MeetingReport>): (r: int)
    ensures (forall i :: 0 <= i < |reports| ==> Count(reports[i].participants) >= 0) ==> r >= 0
    decreases |reports|
  {
    if reports == [] then 0
    else
      var last := reports[|reports| - 1];
      Users(reports[..|reports| - 1]) + (if Ended(last) then 0 else Count(last.participants))
  }

  /** Summed load over the meetings that have not ended, known to the
      database or not. */
  function TotalLoad(reports: seq<MeetingReport>, cfg: PollConfig, now: real): real
    decreases |reports|
  {
    if reports == [] then 0.0
    else
      var last := reports[|reports| - 1];
      TotalLoad(reports[..|reports| - 1], cfg, now) + (if Ended(last) then 0.0 else MeetingLoad(last, cfg, now))
  }

  /** An id is running exactly when some report that has not ended carries it. */
  lemma {:induction false} RunningIsLive(reports: seq<MeetingReport>, id: Option<string>)
    ensures id in Running(reports) <==> exists i :: 0 <= i < |reports| && !Ended(reports[i]) && reports[i].internalId == id
    decreases |reports|
  {
    if reports != [] {
      var init := reports[..|reports| - 1];
      RunningIsLive(init, id);
      if id in Running(init) {
        var i :| 0 <= i < |init| && !Ended(init[i]) && init[i].internalId == id;
        assert reports[i] == init[i];
      }
      if exists i :: 0 <= i < |reports| && !Ended(reports[i]) && reports[i].internalId == id {
        var i :| 0 <= i < |reports| && !Ended(reports[i]) && reports[i].internalId == id;
        if i < |init| {
          assert init[i] == reports[i];
        }
      }
    }
  }

  /** The load of a concatenation of answers is the sum of their loads: each
      meeting contributes on its own. */
  lemma {:induction false} LoadAdditive(a: seq<MeetingReport>, b: seq<MeetingReport>, cfg: PollConfig, now: real)
    ensures TotalLoad(a + b, cfg, now) == TotalLoad(a, cfg, now) + TotalLoad(b, cfg, now)
    decreases |b|
  {
    if b == [] {
      assert a + b == a;
    } else {
      var c := a + b;
      assert c[..|c| - 1] == a + b[..|b| - 1];
      assert c[|c| - 1] == b[|b| - 1];
      LoadAdditive(a, b[..|b| - 1], cfg, now);
    }
  }

  /** How many reported meetings have not ended. */
  function LiveCount(reports: seq<MeetingReport>): (n: nat)
    ensures n <= |reports|
    decreases |reports|
  {
    if reports == [] then 0
    else LiveCount(reports[..|reports| - 1]) + (if Ended(reports[|reports| - 1]) then 0 else 1)
  }

  lemma ProductNonNegative(n: int, x: real)
    requires n >= 0 && x >= 0.0
    ensures n as real * x >= 0.0
  {
  }

  /** A meeting past the cooldown age carries no start-up penalty: only the
      base load and the per-participant, per-voice and per-video weights. */
  lemma SettledMeetingLoad(m: MeetingReport, cfg: PollConfig, now: real)
    requires Age(m, now) >= cfg.cooldown
    ensures MeetingLoad(m, cfg, now) ==
      cfg.base + Count(m.participants) as real * cfg.user + Count(m.voice) as real * cfg.voice + Count(m.video) as real * cfg.video
  {
    assert Penalty(Age(m, now), cfg) == 0.0;
  }

  /** With non-negative factors and counts, a running meeting adds at least the base load. */
  lemma MeetingLoadAtLeastBase(m: MeetingReport, cfg: PollConfig, now: real)
    requires cfg.user >= 0.0 && cfg.voice >= 0.0 && cfg.video >= 0.0 && cfg.prediction >= 0.0
    requires Count(m.participants) >= 0 && Count(m.voice) >= 0 && Count(m.video) >= 0
    ensures MeetingLoad(m, cfg, now) >= cfg.base
  {
    ProductNonNegative(Count(m.participants), cfg.user);
    ProductNonNegative(Count(m.voice), cfg.voice);
    ProductNonNegative(Count(m.video), cfg.video);
    var p := Penalty(Age(m, now), cfg);
    assert p >= 0.0;
  }

  /** An answer whose meetings have all ended leaves nothing running, no
      users and no load. */
  lemma {:induction false} AllEndedIsIdle(reports: seq<MeetingReport>, cfg: PollConfig, now: real)
    requires LiveCount(reports) == 0
    ensures Running(reports) == {} && Users(reports) == 0 && TotalLoad(reports, cfg, now) == 0.0
    decreases |reports|
  {
    if reports != [] {
      AllEndedIsIdle(reports[..|reports| - 1], cfg, now);
    }
  }

  /** With non-negative factors and counts, every meeting that has not ended
      adds at least the base load. */
  lemma {:induction false} LoadAtLeastBase(reports: seq<MeetingReport>, cfg: PollConfig, now: real)
    requires cfg.user >= 0.0 && cfg.voice >= 0.0 && cfg.video >= 0.0 && cfg.prediction >= 0.0
    requires forall i :: 0 <= i < |reports| ==>
      Count(reports[i].participants) >= 0 && Count(reports[i].voice) >= 0 && Count(reports[i].video) >= 0
    ensures TotalLoad(reports, cfg, now) >= LiveCount(reports) as real * cfg.base
    decreases |reports|
  {
    if reports != [] {
      var init := reports[..|reports| - 1];
      var last := reports[|reports| - 1];
      assert forall i :: 0 <= i < |init| ==> init[i] == reports[i];
      LoadAtLeastBase(init, cfg, now);
      var n := LiveCount(init);
      if !Ended(last) {
        MeetingLoadAtLeastBase(last, cfg, now);
        assert (n + 1) as real * cfg.base == n as real * cfg.base + cfg.base;
      }
    }
  }

  /** What one poll of one server did. */
  datatype PollOutcome =
    | Skipped
    | Polled(running: set<Option<string>>, users: int, load: real, forget: set<Option<string>>, success: bool)

  /** The internal ids of the meetings the database places on `domain`. */
  function KnownIds(meetings: map<MeetingKey, Meeting>, domain: string): (r: set<Option<string>>)
    ensures forall k :: k in meetings && meetings[k].server == domain ==> meetings[k].internalId in r
    ensures forall id :: id in r ==> exists k :: k in meetings && meetings[k].server == domain && meetings[k].internalId == id
  {
    set k | k in meetings && meetings[k].server == domain :: meetings[k].internalId
  }

  /** The outcome of `poll_one`: a disabled server without meetings is not
      polled; an error answer leaves nothing running, so every known meeting
      is forgotten. */
  function PollResult(enabled: bool, known: set<Option<string>>, response: Result<seq<MeetingReport>, string>, cfg: PollConfig, now: real): (r: PollOutcome)
    ensures r.Skipped? <==> !enabled && known == {}
    ensures r.Polled? ==> (r.success <==> response.Ok?) && r.forget <= known && r.forget == known - r.running
    ensures r.Polled? && response.Err? ==> r.running == {} && r.users == 0 && r.load == 0.0
  {
    if !enabled && known == {} then Skipped
    else
      match response
      case Err(_) => Polled({}, 0, 0.0, known, false)
      case Ok(reports) =>
        var running := Running(reports);
        Polled(running, Users(reports), TotalLoad(reports, cfg, now), known - running, true)
  }

  /** The meetings table after deleting the rows whose internal id is in
      `forget`; a NULL internal id never matches SQL's IN. */
  function Forgotten(meetings: map<MeetingKey, Meeting>, forget: set<Option<string>>): (r: map<MeetingKey, Meeting>)
    ensures forall k :: k in r <==> k in meetings && !(meetings[k].internalId.Some? && meetings[k].internalId in forget)
    ensures forall k :: k in r ==> r[k] == meetings[k]
  {
    map k | k in meetings && !(meetings[k].internalId.Some? && meetings[k].internalId in forget) :: meetings[k]
  }

  /** A poll is skipped exactly for a disabled server without meetings. */
  lemma SkippedExactly(enabled: bool, meetings: map<MeetingKey, Meeting>, domain: string, response: Result<seq<MeetingReport>, string>, cfg: PollConfig, now: real)
    ensures PollResult(enabled, KnownIds(meetings, domain), response, cfg, now).Skipped? <==>
      !enabled && forall k :: k in meetings ==> meetings[k].server != domain
  {
    if exists k :: k in meetings && meetings[k].server == domain {
      var k :| k in meetings && meetings[k].server == domain;
      assert meetings[k].internalId in KnownIds(meetings, domain);
    }
  }

  /** An id is forgotten exactly when the database knows it on this server
      and no report that has not ended carries it; after an error answer
      that is every known id. */
  lemma ForgetExactly(enabled: bool, known: set<Option<string>>, response: Result<seq<MeetingReport>, string>, cfg: PollConfig, now: real, id: Option<string>)
    requires PollResult(enabled, known, response, cfg, now).Polled?
    ensures var o := PollResult(enabled, known, response, cfg, now);
      (response.Err? ==> o.forget == known && !o.success && o.running == {}) &&
      (response.Ok? ==> (o.success &&
        (id in o.forget <==> id in known && !exists i :: 0 <= i < |response.value| && !Ended(response.value[i]) && response.value[i].internalId == id)))
  {
    if response.Ok? {
      RunningIsLive(response.value, id);
    }
  }

  /** Meetings whose internal id is still NULL survive every poll. */
  lemma NullIdsSurvive(meetings: map<MeetingKey, Meeting>, forget: set<Option<string>>, k: MeetingKey)
    requires k in meetings && meetings[k].internalId.None?
    ensures k in Forgotten(meetings, forget) && Forgotten(meetings, forget)[k] == meetings[k]
  {
  }

  /** The loop over the <meeting> elements of a getMeetings answer. */
  method Tally(reports: seq<MeetingReport>, cfg: PollConfig, now: real) returns (running: set<Option<string>>, users: int, load: real)
    ensures running == Running(reports) && users == Users(reports) && load == TotalLoad(reports, cfg, now)
  {
    running, users, load := {}, 0, 0.0;
    var i := 0;
    while i < |reports|
      invariant 0 <= i <= |reports|
      invariant running == Running(reports[..i]) && users == Users(reports[..i]) && load == TotalLoad(reports[..i], cfg, now)
    {
      var m := reports[i];
      TallyStep(reports, i, cfg, now);
      if Count(m.endTime) > 0 {
        i := i + 1;
        continue;
      }
      running := running + {m.internalId};
      users := users + Count(m.participants);
      load := AddMeetingLoad(load, m, cfg, now);
      i := i + 1;
    }
    assert reports[..|reports|] == reports;
  }

  /** The load updates for one running meeting, in the order `poll_one`
      makes them. */
  method AddMeetingLoad(load0: real, m: MeetingReport, cfg: PollConfig, now: real) returns (load: real)
    ensures load == load0 + MeetingLoad(m, cfg, now)
  {
    load := load0 + cfg.base;
    load := load + Count(m.participants) as real * cfg.user;
    load := load + Count(m.voice) as real * cfg.voice;
    load := load + Count(m.video) as real * cfg.video;
    var age := Age(m, now);
    if age < cfg.cooldown {
      load := load + cfg.prediction * (1.0 - age / cfg.cooldown);
    }
  }

  /** The tallies over one more report. */
  lemma TallyStep(reports: seq<MeetingReport>, i: nat, cfg: PollConfig, now: real)
    requires i < |reports|
    ensures var m, a, b := reports[i], reports[..i], reports[..i + 1];
      && Running(b) == Running(a) + (if Ended(m) then {} else {m.internalId})
      && Users(b) == Users(a) + (if Ended(m) then 0 else Count(m.participants))
      && TotalLoad(b, cfg, now) == TotalLoad(a, cfg, now) + (if Ended(m) then 0.0 else MeetingLoad(m, cfg, now))
  {
    assert reports[..i + 1][..i] == reports[..i];
  }

  /** `Poller.poll_one` for `server`, whose meetings are the rows of `store`
      placed on its domain. */
  method PollOne(server: Server, store: Store, response: Result<seq<MeetingReport>, string>, cfg: PollConfig, now: real)
    returns (outcome: PollOutcome)
    modifies server`health, server`errors, server`recover, server`load, store`meetings
    ensures outcome == PollResult(server.enabled, KnownIds(old(store.meetings), server.domain), response, cfg, now)
    ensures outcome.Skipped? ==>
      store.meetings == old(store.meetings) && server.State() == old(server.State()) && server.load == old(server.load)
    ensures outcome.Polled? ==> store.meetings == Forgotten(old(store.meetings), outcome.forget)
    ensures outcome.Polled? && outcome.success ==>
      server.load == outcome.load && server.State() == OnSuccess(old(server.State()), cfg.minSuccess)
    ensures outcome.Polled? && !outcome.success ==>
      server.load == old(server.load) && server.State() == OnError(old(server.State()), cfg.maxError)
  {
    var known := KnownIds(store.meetings, server.domain);
    if !server.enabled && known == {} {
      return Skipped;
    }
    var running: set<Option<string>> := {};
    var users := 0;
    var load := 0.0;
    var success := true;
    match response {
      case Err(_) =>
        success := false;
      case Ok(reports) =>
        running, users, load := Tally(reports, cfg, now);
    }
    var forget := known - running;
    if forget != {} {
      store.meetings := Forgotten(store.meetings, forget);
    } else {
      assert Forgotten(store.meetings, forget) == store.meetings;
    }
    if success {
      server.load := load;
      server.MarkSuccess(cfg.minSuccess);
    } else {
      server.MarkError(cfg.maxError);
    }
    outcome := Polled(running, users, load, forget, success);
  }

  /** How long the poll loop sleeps after a round that took `elapsed` seconds. */
  function SleepSeconds(interval: real, elapsed: real): (r: real)
    ensures r >= 1.0 && r >= interval - elapsed
    ensures r == 1.0 || r == interval - elapsed
  {
    var sleep := interval - elapsed;
    if 1.0 >= sleep then 1.0 else sleep
  }
}
