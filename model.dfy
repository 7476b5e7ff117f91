/** The persistent entities of the load balancer (bbblb/model.py): the server
    health state machine, load-based server selection, the named lock table,
    get-or-create on the meeting table, and the two column codecs. Database
    tables are maps or sequences of rows; an ORM object whose fields the
    source assigns is a class. */
module Model {
  import opened Base

  // ---------------------------------------------------------------------
  // Server health

  /** ServerHealth, stored as 0, 1, 2. */
  datatype Health = Available | Unstable | Offline

  /** The three columns the health state machine reads and writes. */
  datatype HealthState = HealthState(health: Health, errors: int, recover: int)

  /** What the default column values give a newly inserted server. */
  const NewServerState := HealthState(Offline, 0, 0)

  /** `Server.mark_error(fail_threshold)` on the health columns. */
  function OnError(s: HealthState, failThreshold: int): (r: HealthState)
    ensures r.health == Offline <==> s.health == Offline || s.errors >= failThreshold
    ensures r.health == Offline ==> r.errors == s.errors && r.recover == s.recover
    ensures r.health != Offline ==> r == HealthState(Unstable, s.errors + 1, 0)
  {
    if s.health == Offline then s
    else if s.errors < failThreshold then HealthState(Unstable, s.errors + 1, 0)
    else s.(health := Offline)
  }

  /** `Server.mark_success(recover_threshold)` on the health columns. */
  function OnSuccess(s: HealthState, recoverThreshold: int): (r: HealthState)
    ensures r.health == Available <==> s.health == Available || s.recover >= recoverThreshold
    ensures r.health == Available && s.health != Available ==> r.errors == 0 && r.recover == 0
    ensures s.health == Available ==> r == s
    ensures r.health != Available ==> r == s.(health := Unstable, recover := s.recover + 1)
  {
    if s.health == Available then s
    else if s.recover < recoverThreshold then s.(health := Unstable, recover := s.recover + 1)
    else HealthState(Available, 0, 0)
  }

  datatype PollEvent = Failed | Succeeded

  function Step(s: HealthState, e: PollEvent, failThreshold: int, recoverThreshold: int): HealthState {
    match e
    case Failed => OnError(s, failThreshold)
    case Succeeded => OnSuccess(s, recoverThreshold)
  }

  /** The health columns after a sequence of poll outcomes. */
  function Run(s: HealthState, events: seq<PollEvent>, failThreshold: int, recoverThreshold: int): (r: HealthState)
    ensures s.health == Available && (forall i :: 0 <= i < |events| ==> events[i] == Succeeded) ==> r == s
    ensures s.health == Offline && (forall i :: 0 <= i < |events| ==> events[i] == Failed) ==> r == s
    decreases |events|
  {
    if events == [] then s
    else Run(Step(s, events[0], failThreshold, recoverThreshold), events[1..], failThreshold, recoverThreshold)
  }

  function Repeat(e: PollEvent, k: nat): (r: seq<PollEvent>)
    ensures |r| == k && forall i :: 0 <= i < k ==> r[i] == e
  {
    seq(k, _ => e)
  }

  ghost predicate CountersWithin(s: HealthState, failThreshold: int, recoverThreshold: int) {
    0 <= s.errors <= failThreshold && 0 <= s.recover <= recoverThreshold
  }

  /** The error counter never passes the failure threshold and the recovery
      counter never passes the recovery threshold, whatever the polls report. */
  lemma {:induction false} RunKeepsCounters(s: HealthState, events: seq<PollEvent>, failThreshold: int, recoverThreshold: int)
    requires CountersWithin(s, failThreshold, recoverThreshold)
    ensures CountersWithin(Run(s, events, failThreshold, recoverThreshold), failThreshold, recoverThreshold)
    decreases |events|
  {
    if events != [] {
      RunKeepsCounters(Step(s, events[0], failThreshold, recoverThreshold), events[1..], failThreshold, recoverThreshold);
    }
  }

  lemma {:induction false} RunAppend(s: HealthState, a: seq<PollEvent>, b: seq<PollEvent>, failThreshold: int, recoverThreshold: int)
    ensures Run(s, a + b, failThreshold, recoverThreshold) == Run(Run(s, a, failThreshold, recoverThreshold), b, failThreshold, recoverThreshold)
    decreases |a|
  {
    if a == [] {
      assert a + b == b;
    } else {
      assert (a + b)[0] == a[0] && (a + b)[1..] == a[1..] + b;
      RunAppend(Step(s, a[0], failThreshold, recoverThreshold), a[1..], b, failThreshold, recoverThreshold);
    }
  }

  /** k consecutive failures of a server that is not OFFLINE, while the error
      counter stays within the threshold, leave it UNSTABLE with k more errors
      and its recovery progress reset. */
  lemma {:induction false} FailuresAccumulate(s: HealthState, k: nat, failThreshold: int, recoverThreshold: int)
    requires s.health != Offline && 1 <= k && s.errors + k <= failThreshold
    ensures Run(s, Repeat(Failed, k), failThreshold, recoverThreshold) == HealthState(Unstable, s.errors + k, 0)
  {
    if k == 1 {
      assert Repeat(Failed, 1)[1..] == [];
    } else {
      assert Repeat(Failed, k) == Repeat(Failed, k - 1) + [Failed];
      RunAppend(s, Repeat(Failed, k - 1), [Failed], failThreshold, recoverThreshold);
      FailuresAccumulate(s, k - 1, failThreshold, recoverThreshold);
      assert [Failed][1..] == [];
    }
  }

  /** An AVAILABLE server without errors goes OFFLINE after exactly
      failThreshold + 1 consecutive failed polls, and not before. */
  lemma OfflineAfterThresholdPlusOne(s: HealthState, failThreshold: nat, recoverThreshold: int)
    requires s.health == Available && s.errors == 0
    ensures Run(s, Repeat(Failed, failThreshold + 1), failThreshold, recoverThreshold).health == Offline
    ensures forall k: nat :: k <= failThreshold ==> Run(s, Repeat(Failed, k), failThreshold, recoverThreshold).health != Offline
  {
    forall k: nat | k <= failThreshold
      ensures Run(s, Repeat(Failed, k), failThreshold, recoverThreshold).health != Offline
    {
      if k == 0 {
        assert Repeat(Failed, 0) == [];
      } else {
        FailuresAccumulate(s, k, failThreshold, recoverThreshold);
      }
    }
    assert Repeat(Failed, failThreshold + 1) == Repeat(Failed, failThreshold) + [Failed];
    RunAppend(s, Repeat(Failed, failThreshold), [Failed], failThreshold, recoverThreshold);
    var before := Run(s, Repeat(Failed, failThreshold), failThreshold, recoverThreshold);
    if failThreshold == 0 {
      assert Repeat(Failed, 0) == [];
      assert before == s;
    } else {
      FailuresAccumulate(s, failThreshold, failThreshold, recoverThreshold);
    }
    assert [Failed][1..] == [];
  }

  /** k consecutive successes of a server that is not AVAILABLE, while the
      recovery counter stays within the threshold, leave it UNSTABLE with k
      more recovery steps and its error count untouched. */
  lemma {:induction false} SuccessesAccumulate(s: HealthState, k: nat, failThreshold: int, recoverThreshold: int)
    requires s.health != Available && 1 <= k && s.recover + k <= recoverThreshold
    ensures Run(s, Repeat(Succeeded, k), failThreshold, recoverThreshold) == HealthState(Unstable, s.errors, s.recover + k)
  {
    if k == 1 {
      assert Repeat(Succeeded, 1)[1..] == [];
    } else {
      assert Repeat(Succeeded, k) == Repeat(Succeeded, k - 1) + [Succeeded];
      RunAppend(s, Repeat(Succeeded, k - 1), [Succeeded], failThreshold, recoverThreshold);
      SuccessesAccumulate(s, k - 1, failThreshold, recoverThreshold);
      assert [Succeeded][1..] == [];
    }
  }

  /** A newly created server (OFFLINE, no errors, no recovery) becomes
      AVAILABLE after exactly recoverThreshold + 1 successful polls, and not before. */
  lemma NewServerAvailableAfterThresholdPlusOne(failThreshold: int, recoverThreshold: nat)
    ensures Run(NewServerState, Repeat(Succeeded, recoverThreshold + 1), failThreshold, recoverThreshold) == HealthState(Available, 0, 0)
    ensures forall k: nat :: k <= recoverThreshold ==>
      Run(NewServerState, Repeat(Succeeded, k), failThreshold, recoverThreshold).health != Available
  {
    var s := NewServerState;
    forall k: nat | k <= recoverThreshold
      ensures Run(s, Repeat(Succeeded, k), failThreshold, recoverThreshold).health != Available
    {
      if k == 0 {
        assert Repeat(Succeeded, 0) == [];
      } else {
        SuccessesAccumulate(s, k, failThreshold, recoverThreshold);
      }
    }
    assert Repeat(Succeeded, recoverThreshold + 1) == Repeat(Succeeded, recoverThreshold) + [Succeeded];
    RunAppend(s, Repeat(Succeeded, recoverThreshold), [Succeeded], failThreshold, recoverThreshold);
    if recoverThreshold == 0 {
      assert Repeat(Succeeded, 0) == [];
    } else {
      SuccessesAccumulate(s, recoverThreshold, failThreshold, recoverThreshold);
    }
    assert [Succeeded][1..] == [];
  }

  /** Failed polls never take a server out of OFFLINE. */
  lemma {:induction false} OfflineAbsorbsFailures(s: HealthState, k: nat, failThreshold: int, recoverThreshold: int)
    requires s.health == Offline
    ensures Run(s, Repeat(Failed, k), failThreshold, recoverThreshold) == s
  {
    if k > 0 {
      assert Repeat(Failed, k)[1..] == Repeat(Failed, k - 1);
      OfflineAbsorbsFailures(s, k - 1, failThreshold, recoverThreshold);
    }
  }

  /** A row of the servers table, as the health poller and the create call see it. */
  class Server {
    var domain: string
    var secret: string
    var enabled: bool
    var health: Health
    var errors: int
    var recover: int
    var load: real

    /** A server inserted with only its domain and secret: enabled, OFFLINE, no load. */
    constructor (domain: string, secret: string)
      ensures this.domain == domain && this.secret == secret
      ensures enabled && State() == NewServerState && load == 0.0
    {
      this.domain := domain;
      this.secret := secret;
      enabled := true;
      health := Offline;
      errors := 0;
      recover := 0;
      load := 0.0;
    }

    function State(): HealthState
      reads this
    {
      HealthState(health, errors, recover)
    }

    method MarkError(failThreshold: int)
      modifies this`health, this`errors, this`recover
      ensures State() == OnError(old(State()), failThreshold)
    {
      if health == Offline {
        // already dead
      } else if errors < failThreshold {
        recover := 0;
        errors := errors + 1;
        health := Unstable;
      } else {
        health := Offline;
      }
    }

    method MarkSuccess(recoverThreshold: int)
      modifies this`health, this`errors, this`recover
      ensures State() == OnSuccess(old(State()), recoverThreshold)
    {
      if health == Available {
        // already healthy
      } else if recover < recoverThreshold {
        recover := recover + 1;
        health := Unstable;
      } else {
        errors := 0;
        recover := 0;
        health := Available;
      }
    }

    /** The UPDATE built by `increment_load_stmt`: this row's load grows by x. */
    method IncrementLoad(x: real)
      modifies this`load
      ensures load == old(load) + x
    {
      load := load + x;
    }
  }

  /** `select_available`: the enabled, AVAILABLE servers, in table order. */
  function SelectAvailable(servers: seq<Server>): (r: seq<Server>)
    reads servers
    ensures forall i :: 0 <= i < |r| ==> r[i] in servers && r[i].enabled && r[i].health == Available
    ensures forall i :: 0 <= i < |servers| && servers[i].enabled && servers[i].health == Available ==> servers[i] in r
  {
    if servers == [] then []
    else
      (if servers[0].enabled && servers[0].health == Available then [servers[0]] else [])
      + SelectAvailable(servers[1..])
  }

  /** ORDER BY load DESC LIMIT 1 over the given candidates; among equal loads
      the earliest row wins. */
  function MostLoaded(candidates: seq<Server>): (r: Option<Server>)
    reads candidates
    ensures r.None? <==> candidates == []
    ensures r.Some? ==> r.value in candidates && forall i :: 0 <= i < |candidates| ==> candidates[i].load <= r.value.load
  {
    if candidates == [] then None
    else
      match MostLoaded(candidates[1..])
      case None => Some(candidates[0])
      case Some(b) => if b.load > candidates[0].load then Some(b) else Some(candidates[0])
  }

  /** `select_best`: an available server of maximal load, or none when no server is available. */
  function SelectBest(servers: seq<Server>): (r: Option<Server>)
    reads servers
    ensures r.None? <==> forall i :: 0 <= i < |servers| ==> !(servers[i].enabled && servers[i].health == Available)
    ensures r.Some? ==> r.value in servers && r.value.enabled && r.value.health == Available
    ensures r.Some? ==> forall i :: 0 <= i < |servers| && servers[i].enabled && servers[i].health == Available ==> servers[i].load <= r.value.load
  {
    var available := SelectAvailable(servers);
    var best := MostLoaded(available);
    assert best.Some? ==> forall i :: 0 <= i < |servers| && servers[i].enabled && servers[i].health == Available ==> servers[i].load <= best.value.load by {
      if best.Some? {
        forall i | 0 <= i < |servers| && servers[i].enabled && servers[i].health == Available
          ensures servers[i].load <= best.value.load
        {
          var j :| 0 <= j < |available| && available[j] == servers[i];
        }
      }
    }
    best
  }

  // ---------------------------------------------------------------------
  // Named inter-process locks

  datatype LockRow = LockRow(owner: string, ts: int)

  /** Rows of the locks table left after dropping the lock `name` when it is
      older than now - forceRelease. A zero duration is false in Python and
      drops nothing. */
  function Pruned(locks: map<string, LockRow>, name: string, forceRelease: Option<int>, now: int): (r: map<string, LockRow>)
    ensures forall n :: n in r <==> n in locks && !(n == name && forceRelease.Some? && forceRelease.value != 0 && locks[n].ts < now - forceRelease.value)
    ensures forall n :: n in r ==> r[n] == locks[n]
  {
    if name in locks && forceRelease.Some? && forceRelease.value != 0 && locks[name].ts < now - forceRelease.value
    then locks - {name}
    else locks
  }

  /** `Lock.try_acquire`: insert the lock after pruning; the insert fails on an
      existing name and then the whole transaction (the pruning too) is rolled back. */
  function Acquire(locks: map<string, LockRow>, identity: string, name: string, forceRelease: Option<int>, now: int): (r: (bool, map<string, LockRow>))
    ensures r.0 <==> name !in Pruned(locks, name, forceRelease, now)
    ensures r.0 ==> r.1 == Pruned(locks, name, forceRelease, now)[name := LockRow(identity, now)]
    ensures !r.0 ==> r.1 == locks && name in locks
  {
    var pruned := Pruned(locks, name, forceRelease, now);
    if name in pruned then (false, locks) else (true, pruned[name := LockRow(identity, now)])
  }

  /** `Lock.check`: refresh the timestamp of the lock if this process owns it. */
  function Refresh(locks: map<string, LockRow>, identity: string, name: string, now: int): (r: (bool, map<string, LockRow>))
    ensures r.0 <==> name in locks && locks[name].owner == identity
    ensures r.1.Keys == locks.Keys
    ensures forall n :: n in locks ==> r.1[n] == if r.0 && n == name then LockRow(identity, now) else locks[n]
  {
    if name in locks && locks[name].owner == identity then (true, locks[name := LockRow(identity, now)]) else (false, locks)
  }

  /** `Lock.try_release`: delete the lock if this process owns it. */
  function Release(locks: map<string, LockRow>, identity: string, name: string): (r: (bool, map<string, LockRow>))
    ensures r.0 <==> name in locks && locks[name].owner == identity
    ensures r.1 == if r.0 then locks - {name} else locks
  {
    if name in locks && locks[name].owner == identity then (true, locks - {name}) else (false, locks)
  }

  /** Acquiring a lock this process has just acquired fails, unless the
      second call force-releases locks older than the time passed since. */
  lemma AcquireIsNotReentrant(locks: map<string, LockRow>, identity: string, name: string, force1: Option<int>, force2: Option<int>, t1: int, t2: int)
    requires Acquire(locks, identity, name, force1, t1).0
    requires force2.None? || force2.value == 0 || t2 - force2.value <= t1
    ensures !Acquire(Acquire(locks, identity, name, force1, t1).1, identity, name, force2, t2).0
  {
  }

  /** Neither refreshing nor releasing touches a lock held by another process. */
  lemma ForeignLocksUntouched(locks: map<string, LockRow>, identity: string, name: string, now: int)
    requires name in locks && locks[name].owner != identity
    ensures Refresh(locks, identity, name, now) == (false, locks)
    ensures Release(locks, identity, name) == (false, locks)
  {
  }

  /** The locks table. `identity` plays PROCESS_IDENTITY; the clock is a parameter. */
  class LockTable {
    var locks: map<string, LockRow>
    const identity: string

    constructor (identity: string)
      ensures this.identity == identity && locks == map[]
    {
      this.identity := identity;
      locks := map[];
    }

    method TryAcquire(name: string, forceRelease: Option<int>, now: int) returns (acquired: bool)
      modifies this`locks
      ensures (acquired, locks) == Acquire(old(locks), identity, name, forceRelease, now)
    {
      var before := locks;
      if forceRelease.Some? && forceRelease.value != 0 {
        var expire := now - forceRelease.value;
        if name in locks && locks[name].ts < expire {
          locks := locks - {name};
        }
      }
      if name in locks {
        // IntegrityError: roll the deletion back as well
        locks := before;
        acquired := false;
      } else {
        locks := locks[name := LockRow(identity, now)];
        acquired := true;
      }
    }

    method Check(name: string, now: int) returns (held: bool)
      modifies this`locks
      ensures (held, locks) == Refresh(old(locks), identity, name, now)
    {
      held := name in locks && locks[name].owner == identity;
      if held {
        locks := locks[name := LockRow(identity, now)];
      }
    }

    method TryRelease(name: string) returns (released: bool)
      modifies this`locks
      ensures (released, locks) == Release(old(locks), identity, name)
    {
      released := name in locks && locks[name].owner == identity;
      if released {
        locks := locks - {name};
      }
    }
  }

  // ---------------------------------------------------------------------
  // Meetings, callbacks, recordings

  /** The unique key (external_id, tenant) of a meeting row. */
  datatype MeetingKey = MeetingKey(tenant: string, externalId: string)

  /** A meeting row; `server` is the domain of its server, `internalId` stays
      NULL until the back-end confirmed the create call. */
  datatype Meeting = Meeting(uuid: string, internalId: Option<string>, server: string)

  const CallbackTypeEnd := "END"
  const CallbackTypeRec := "REC"

  datatype Callback = Callback(uuid: string, kind: string, tenant: string, server: string, forward: string)

  datatype RecordingState = Published | Unpublished

  /** The stored string of a RecordingState. */
  function StateValue(s: RecordingState): string {
    match s
    case Published => "published"
    case Unpublished => "unpublished"
  }

  datatype Recording = Recording(
    recordId: string, tenant: Option<string>, externalId: string, state: RecordingState,
    meta: map<string, string>, formats: seq<string>)

  /** The meetings, callbacks and recordings tables; recordings in id order. */
  class Store {
    var meetings: map<MeetingKey, Meeting>
    var callbacks: seq<Callback>
    var recordings: seq<Recording>

    constructor ()
      ensures meetings == map[] && callbacks == [] && recordings == []
    {
      meetings := map[];
      callbacks := [];
      recordings := [];
    }

    /** `get_or_create` for the meeting selected by its key. `racer` is the row
        another transaction committed under the same key after this one found
        none; then our insert hits the unique constraint, is rolled back, and
        the other row is returned. */
    method GetOrCreate(key: MeetingKey, create: Meeting, racer: Option<Meeting>) returns (m: Meeting, created: bool)
      modifies this`meetings
      ensures key in old(meetings) ==> m == old(meetings)[key] && !created && meetings == old(meetings)
      ensures key !in old(meetings) && racer.None? ==> m == create && created && meetings == old(meetings)[key := create]
      ensures key !in old(meetings) && racer.Some? ==> m == racer.value && !created && meetings == old(meetings)[key := racer.value]
      ensures created ==> m == create
    {
      if key in meetings {
        return meetings[key], false;
      }
      if racer.Some? {
        meetings := meetings[key := racer.value];
        return racer.value, false;
      }
      meetings := meetings[key := create];
      return create, true;
    }
  }

  // ---------------------------------------------------------------------
  // Column codecs

  /** NewlineSeparatedList.process_bind_param. */
  function EncodeList(value: Option<seq<string>>): (r: Option<string>)
    ensures r.None? <==> value.None?
    ensures value == Some([]) ==> r == Some("")
    ensures value.Some? && |value.value| == 1 ==> r == Some(value.value[0])
  {
    match value
    case None => None
    case Some(items) => Some(Join(items, '\n'))
  }

  /** NewlineSeparatedList.process_result_value. */
  function DecodeList(value: Option<string>): (r: Option<seq<string>>)
    ensures r.None? <==> value.None?
    ensures r.Some? ==> |r.value| >= 1 && forall i :: 0 <= i < |r.value| ==> '\n' !in r.value[i]
  {
    match value
    case None => None
    case Some(text) => Some(Split(text, '\n'))
  }

  /** Decoding an encoded list gives it back when it is NULL or a non-empty
      list of newline-free strings. */
  lemma ListRoundTrip(value: Option<seq<string>>)
    requires value.Some? ==> |value.value| >= 1 && forall i :: 0 <= i < |value.value| ==> '\n' !in value.value[i]
    ensures DecodeList(EncodeList(value)) == value
  {
    if value.Some? {
      SplitJoin(value.value, '\n');
    }
  }

  /** Encoding a decoded column value gives the stored text back. */
  lemma TextRoundTrip(value: Option<string>)
    ensures EncodeList(DecodeList(value)) == value
  {
    if value.Some? {
      JoinSplit(value.value, '\n');
    }
  }

  /** The empty list does not survive: it is stored as "" and read back as [""]. */
  lemma EmptyListComesBackAsOneEmptyString()
    ensures EncodeList(Some([])) == Some("")
    ensures DecodeList(EncodeList(Some([]))) == Some([""])
  {
    assert '\n' !in "";
  }

  function HealthValue(h: Health): int {
    match h
    case Available => 0
    case Unstable => 1
    case Offline => 2
  }

  /** IntEnum(ServerHealth).process_bind_param. */
  function BindHealth(value: Option<Health>): (r: Option<int>)
    ensures r.None? <==> value.None?
    ensures r.Some? ==> 0 <= r.value <= 2
  {
    match value
    case None => None
    case Some(h) => Some(HealthValue(h))
  }

  /** IntEnum(ServerHealth).process_result_value: integers outside the enum read as NULL. */
  function ReadHealth(value: Option<int>): (r: Option<Health>)
    ensures r.Some? <==> value.Some? && 0 <= value.value <= 2
    ensures r.Some? ==> HealthValue(r.value) == value.value
  {
    match value
    case None => None
    case Some(i) => if i == 0 then Some(Available) else if i == 1 then Some(Unstable) else if i == 2 then Some(Offline) else None
  }

  lemma HealthRoundTrip(value: Option<Health>)
    ensures ReadHealth(BindHealth(value)) == value
  {
  }

  // ---------------------------------------------------------------------
  // Servers and tenants as the administrative commands see them

  datatype ServerRow = ServerRow(secret: string, enabled: bool, meetings: set<string>)

  datatype TenantRow = TenantRow(secret: string, realm: string, enabled: bool, meetings: set<string>)

  /** One call of a tenant's override API (add_override, remove_override, clear_overrides). */
  datatype OverrideCall =
    | AddOverride(tenant: string, param: string, operator: char, value: string)
    | RemoveOverride(tenant: string, param: string)
    | ClearOverrides(tenant: string)

  /** Servers keyed by domain, tenants keyed by name, and the override calls
      committed so far. */
  class Registry {
    var servers: map<string, ServerRow>
    var tenants: map<string, TenantRow>
    var overrideCalls: seq<OverrideCall>

    constructor ()
      ensures servers == map[] && tenants == map[] && overrideCalls == []
    {
      servers := map[];
      tenants := map[];
      overrideCalls := [];
    }
  }
}
