/** The alert tables as the server changes them, and the worker's loop with everyone else
    at work between any two of its statements. */
module PushService {
  import opened PushOutbox
  import opened PushPromises

  /** What the worker meets from outside, in order: the time, the steps others take, whether
      the provider's sign-in works, its answers, and random numbers. */
  datatype World = World(clock: nat -> int, others: nat -> seq<Step>, signedIn: nat -> bool, answers: nat -> Delivery, random: nat -> nat)

  method Soonest(outbox: map<Event, Row>, events: set<Event>) returns (e: Event)
    requires events != {} && events <= outbox.Keys
    ensures e in events && forall f :: f in events ==> Sooner(outbox[e], outbox[f])
  {
    e :| e in events;
    var rest := events - {e};
    while rest != {}
      invariant rest <= events && e in events
      invariant forall f :: f in events - rest ==> Sooner(outbox[e], outbox[f])
      decreases rest
    {
      var f :| f in rest;
      if !Sooner(outbox[e], outbox[f]) {
        e := f;
      }
      rest := rest - {f};
    }
  }

  method SelectDue(outbox: map<Event, Row>, at: int) returns (chosen: seq<Row>)
    requires forall e :: e in outbox ==> outbox[e].event == e
    ensures Selection(outbox, at, chosen)
  {
    var left := set e | e in outbox && outbox[e].nextAttemptAt <= at;
    chosen := [];
    while |chosen| < BATCH && left != {}
      invariant |chosen| <= BATCH && left <= outbox.Keys
      invariant forall e :: e in outbox && outbox[e].nextAttemptAt <= at ==> e in left || outbox[e] in chosen
      invariant forall e :: e in left ==> outbox[e].nextAttemptAt <= at
      invariant forall k :: 0 <= k < |chosen| ==> chosen[k].event in outbox && outbox[chosen[k].event] == chosen[k] && chosen[k].nextAttemptAt <= at
      invariant forall k :: 0 <= k < |chosen| ==> chosen[k].event !in left
      invariant forall k, e :: 0 <= k < |chosen| && e in left ==> Sooner(chosen[k], outbox[e])
      invariant forall k, l :: 0 <= k < l < |chosen| ==> chosen[k].event != chosen[l].event && Sooner(chosen[k], chosen[l])
      decreases left
    {
      var e := Soonest(outbox, left);
      chosen := chosen + [outbox[e]];
      left := left - {e};
    }
  }

  class Service {
    const allowed: set<string>
    var devices: map<string, Device>
    var sessions: map<string, Session>
    var outbox: map<Event, Row>
    var worker: Worker
    var actors: map<Event, string>
    var log: seq<Attempt>
    var interrupted: nat

    function Now(): State
      reads this
    {
      State(allowed, devices, sessions, outbox, worker, actors, log, interrupted)
    }

    ghost predicate Valid()
      reads this
    {
      Safe(Now())
    }

    constructor (allowed: set<string>)
      ensures Valid() && Now() == Initial(allowed)
    {
      this.allowed := allowed;
      devices, sessions, outbox := map[], map[], map[];
      worker, actors, log, interrupted := Idle, map[], [], 0;
    }

    // ----- what the others do -----

    method Register(installation: string, token: string, subject: string, session: string, at: int)
      requires Valid()
      modifies this
      ensures Valid() && Now() == Next(old(Now()), Step.Register(installation, token, subject, session, at))
    {
      StepKeepsSafe(Now(), Step.Register(installation, token, subject, session, at));
      devices := map i | i in devices && (devices[i].token != token || i == installation) :: devices[i];
      devices := devices[installation := Device(subject, session, token, at)];
    }

    method RemoveDevice(installation: string, subject: string, session: string)
      requires Valid()
      modifies this
      ensures Valid() && Now() == Next(old(Now()), Step.RemoveDevice(installation, subject, session))
    {
      StepKeepsSafe(Now(), Step.RemoveDevice(installation, subject, session));
      if installation in devices && devices[installation].subject == subject && devices[installation].session == session {
        devices := devices - {installation};
      }
    }

    method SignIn(id: string, subject: string, at: int, expiresAt: int)
      requires Valid() && id !in sessions
      modifies this
      ensures Valid() && Now() == Next(old(Now()), Step.SignIn(id, subject, at, expiresAt))
    {
      StepKeepsSafe(Now(), Step.SignIn(id, subject, at, expiresAt));
      sessions := map k | k in sessions && sessions[k].expiresAt > at :: sessions[k];
      sessions := sessions[id := Session(subject, expiresAt)];
    }

    method Revoke(id: string)
      requires Valid()
      modifies this
      ensures Valid() && Now() == Next(old(Now()), Step.Revoke(id))
    {
      StepKeepsSafe(Now(), Step.Revoke(id));
      devices := map i | i in devices && devices[i].session != id :: devices[i];
      sessions := sessions - {id};
    }

    /** Queues an alert for every recipient in turn; one that has a row for the operation keeps it. */
    method Enqueue(operation: string, transaction: string, actor: string, at: int, events: map<string, Event>)
      requires Valid() && Enabled(Now(), Step.Enqueue(operation, transaction, actor, at, events))
      modifies this
      ensures Valid() && Now() == Next(old(Now()), Step.Enqueue(operation, transaction, actor, at, events))
    {
      hide Queued, Caused, Pending, Partly, PartlyCaused, Safe, SoundRows;
      ghost var s, step := Now(), Step.Enqueue(operation, transaction, actor, at, events);
      StepKeepsSafe(s, step);
      SafeRows(s);
      var found := set i | i in devices && devices[i].subject != actor && Live(sessions, devices[i], at);
      var left := found;
      EnqueueStarts(s, step, found);
      while left != {}
        invariant left <= found && devices == s.devices && sessions == s.sessions
        invariant worker == s.worker && log == s.log && interrupted == s.interrupted
        invariant outbox == s.outbox + Partly(s, step, left)
        invariant actors == s.actors + PartlyCaused(s, step, left)
        decreases left
      {
        var installation :| installation in left;
        EnqueueGoes(s, step, left, installation);
        left := left - {installation};
        if devices[installation].subject in allowed {
          if !Pending(outbox, operation, installation) {
            var row := NewRow(devices, operation, transaction, installation, events[installation], at);
            outbox := outbox[row.event := row];
            actors := actors[row.event := actor];
          }
        }
      }
      EnqueueEnds(s, step);
    }

    /** The steps others take between two statements of the worker, as far as they can. */
    method Meanwhile(steps: seq<Step>)
      requires Valid()
      modifies this
      ensures Valid() && worker == old(worker) && log == old(log) && interrupted == old(interrupted)
    {
      hide Safe, FreshEvents, Recipients, Registered, Queued, Caused;
      for k := 0 to |steps|
        invariant Valid() && worker == old(worker) && log == old(log) && interrupted == old(interrupted)
      {
        match steps[k] {
          case Register(installation, token, subject, session, at) => Register(installation, token, subject, session, at);
          case RemoveDevice(installation, subject, session) => RemoveDevice(installation, subject, session);
          case SignIn(id, subject, at, expiresAt) =>
            if id !in sessions {
              SignIn(id, subject, at, expiresAt);
            }
          case Revoke(id) => Revoke(id);
          case Enqueue(operation, transaction, actor, at, events) =>
            if Enabled(Now(), steps[k]) {
              Enqueue(operation, transaction, actor, at, events);
            }
          case _ =>
        }
      }
    }

    // ----- the worker's statements -----

    method PurgeStale(at: int)
      requires Valid() && worker.Idle?
      modifies this
      ensures Valid() && Now() == Next(old(Now()), Step.Purge(at))
    {
      hide Safe;
      StepKeepsSafe(Now(), Step.Purge(at));
      outbox := map e | e in outbox && Kept(Now(), outbox[e], at) :: outbox[e];
      worker := Purged(at);
    }

    method SelectRows() returns (rows: seq<Row>)
      requires Valid() && worker.Purged?
      modifies this
      ensures Valid() && Selection(old(outbox), old(worker).at, rows) && Now() == Next(old(Now()), Step.Select(rows))
    {
      hide Safe, Selection;
      SafeRows(Now());
      rows := SelectDue(outbox, worker.at);
      StepKeepsSafe(Now(), Step.Select(rows));
      worker := Batch(worker.at, rows);
    }

    method Refuse()
      requires Valid() && worker.Batch? && worker.rows != [] && worker.rows[0].recipient !in allowed
      modifies this
      ensures Valid() && Now() == Next(old(Now()), Step.Refuse)
      ensures worker == Batch(old(worker).at, old(worker).rows[1..]) && log == old(log)
    {
      hide Safe;
      StepKeepsSafe(Now(), Step.Refuse);
      outbox := outbox - {worker.rows[0].event};
      worker := Batch(worker.at, worker.rows[1..]);
    }

    method Authenticate()
      requires Valid() && worker.Batch? && worker.rows != [] && worker.rows[0].recipient in allowed
      modifies this
      ensures Valid() && Now() == Next(old(Now()), Step.Authenticate)
      ensures worker == Authorised(old(worker).at, old(worker).rows) && log == old(log)
    {
      hide Safe;
      StepKeepsSafe(Now(), Step.Authenticate);
      worker := Authorised(worker.at, worker.rows);
    }

    method DeferBatch(now: int, random: nat)
      requires Valid() && worker.Batch? && worker.rows != [] && worker.rows[0].recipient in allowed
      modifies this
      ensures Valid() && Now() == Next(old(Now()), Step.Outage(now, random))
      ensures worker == Finishing(old(worker).at) && log == old(log)
    {
      hide Safe, RetryDelay, Deferred;
      StepKeepsSafe(Now(), Step.Outage(now, random));
      var next := Saturated(now + RetryDelay(60, worker.rows[0].attempts, random));
      outbox := Deferred(outbox, worker.rows[0].event, now, next);
      worker := Finishing(worker.at);
    }

    method Recheck(now: int) returns (found: bool)
      requires Valid() && worker.Authorised? && worker.rows != []
      modifies this
      ensures Valid() && Now() == Next(old(Now()), Step.Recheck(now))
      ensures if found then worker.Checked? && worker.rows == old(worker).rows && worker.at == old(worker).at
              else worker == Batch(old(worker).at, old(worker).rows[1..])
      ensures log == old(log)
    {
      hide Safe, CurrentDevice;
      StepKeepsSafe(Now(), Step.Recheck(now));
      match CurrentDevice(Now(), worker.rows[0].event, now) {
        case None =>
          found := false;
          outbox := outbox - {worker.rows[0].event};
          worker := Batch(worker.at, worker.rows[1..]);
        case Some(check) =>
          found := true;
          worker := Checked(worker.at, worker.rows, check);
      }
    }

    /** Sends, unless the alert has run out of time; what the provider says is arbitrary. */
    method Send(now: int, answer: Delivery)
      requires Valid() && worker.Checked? && worker.rows != []
      modifies this
      ensures Valid() && Now() == Next(old(Now()), Step.Send(now, answer))
      ensures worker.Answered? && worker.rows == old(worker).rows && worker.at == old(worker).at
      ensures old(log) <= log && |log| <= |old(log)| + 1
    {
      hide Safe, RemainingTtl;
      StepKeepsSafe(Now(), Step.Send(now, answer));
      match RemainingTtl(Saturated(worker.rows[0].createdAt + DAY), now) {
        case None =>
          worker := Answered(worker.at, worker.rows, worker.check, PermanentFailure);
        case Some(ttl) =>
          log := log + [Attempt(worker.check, now, ttl)];
          worker := Answered(worker.at, worker.rows, worker.check, answer);
      }
    }

    method Settle(now: int, random: nat)
      requires Valid() && worker.Answered? && worker.rows != []
      modifies this
      ensures Valid() && Now() == Next(old(Now()), Step.Settle(now, random))
      ensures worker == Batch(old(worker).at, old(worker).rows[1..]) || worker == Unregistered(old(worker).at, old(worker).rows)
      ensures log == old(log)
      ensures old(worker).delivery == Sent || old(worker).delivery == PermanentFailure ==>
                Gone(old(outbox), outbox, old(worker).rows[0].event) && NothingNew(old(outbox), outbox)
      ensures old(worker).delivery.Retry? && old(worker).delivery.minimum <= I64_MAX ==>
                var r := old(worker).rows[0];
                r.event in outbox && outbox[r.event].attempts == r.attempts + 1
                && RetriedAt(now, old(worker).delivery.minimum, r.attempts, outbox[r.event].nextAttemptAt)
    {
      hide Safe, RetryDelay, RetriedAt, Gone, NothingNew;
      SafeWorker(Now());
      if !worker.delivery.Retry? || worker.delivery.minimum <= I64_MAX {
        SettleIs(Now(), now, random);
      }
      StepKeepsSafe(Now(), Step.Settle(now, random));
      var r := worker.rows[0];
      match worker.delivery {
        case Sent =>
          outbox := outbox - {r.event};
          worker := Batch(worker.at, worker.rows[1..]);
        case PermanentFailure =>
          outbox := outbox - {r.event};
          worker := Batch(worker.at, worker.rows[1..]);
        case InvalidDevice =>
          if r.installation in devices && devices[r.installation].token == worker.check.device.token {
            devices := devices - {r.installation};
          }
          worker := Unregistered(worker.at, worker.rows);
        case Retry(minimum) =>
          if r.event in outbox {
            outbox := outbox[r.event := outbox[r.event].(attempts := outbox[r.event].attempts + 1,
                             nextAttemptAt := Saturated(now + RetryDelay(minimum, r.attempts, random)))];
          }
          worker := Batch(worker.at, worker.rows[1..]);
      }
    }

    method RemoveUnregistered()
      requires Valid() && worker.Unregistered? && worker.rows != []
      modifies this
      ensures Valid() && Now() == Next(old(Now()), Step.RemoveUnregistered)
      ensures worker == Batch(old(worker).at, old(worker).rows[1..]) && log == old(log)
    {
      hide Safe;
      StepKeepsSafe(Now(), Step.RemoveUnregistered);
      outbox := outbox - {worker.rows[0].event};
      worker := Batch(worker.at, worker.rows[1..]);
    }

    method FinishDrain()
      requires Valid() && (worker.Finishing? || (worker.Batch? && worker.rows == []))
      modifies this
      ensures Valid() && Now() == Next(old(Now()), Step.Finish)
    {
      hide Safe;
      StepKeepsSafe(Now(), Step.Finish);
      devices := map i | i in devices && devices[i].session in sessions && sessions[devices[i].session].expiresAt > worker.at :: devices[i];
      worker := Idle;
    }

    // ----- the worker -----

    /** Handles one due row. */
    method HandleRow(world: World, k: nat) returns (goOn: bool)
      requires Valid() && worker.Batch? && worker.rows != []
      modifies this
      ensures Valid() && old(log) <= log && |log| <= |old(log)| + 1
      ensures if goOn then worker == Batch(old(worker).at, old(worker).rows[1..]) else worker == Finishing(old(worker).at)
    {
      hide Safe, Next, Enabled;
      goOn := true;
      if worker.rows[0].recipient !in allowed {
        Refuse();
        return;
      }
      if !world.signedIn(k) {
        DeferBatch(world.clock(3 * k), world.random(k));
        return false;
      }
      Authenticate();
      Meanwhile(world.others(5 * k + 1));
      var found := Recheck(world.clock(3 * k));
      if !found {
        return;
      }
      Meanwhile(world.others(5 * k + 2));
      Send(world.clock(3 * k + 1), world.answers(k));
      Meanwhile(world.others(5 * k + 3));
      Settle(world.clock(3 * k + 2), world.random(k));
      if worker.Unregistered? {
        Meanwhile(world.others(5 * k + 4));
        RemoveUnregistered();
      }
    }

    /** One pass over the due alerts, with others at work in between. */
    method Drain(at: int, world: World)
      requires Valid() && worker.Idle?
      modifies this
      ensures Valid() && worker.Idle? && old(log) <= log && |log| <= |old(log)| + BATCH
    {
      hide Safe, Selection, Enabled;
      PurgeStale(at);
      Meanwhile(world.others(0));
      var rows := SelectRows();
      SelectionSize(rows);
      var k, goOn := 0, true;
      while goOn && k < |rows|
        invariant k <= |rows| && Valid() && old(log) <= log && |log| <= |old(log)| + k
        invariant worker == if goOn then Batch(at, rows[k..]) else Finishing(at)
      {
        Meanwhile(world.others(5 * k + 5));
        goOn := HandleRow(world, k + 1);
        k := k + 1;
      }
      Meanwhile(world.others(5 * k + 5));
      FinishDrain();
    }
  }

  lemma SelectionSize(rows: seq<Row>)
    ensures forall outbox, at :: Selection(outbox, at, rows) ==> |rows| <= BATCH
  {
  }

  /** The rows queued for recipients that are no longer left. */
  ghost function Partly(s: State, step: Step, left: set<string>): map<Event, Row>
    requires step.Enqueue? && Enabled(s, step)
  {
    var queued := Queued(s, step.operation, step.transaction, step.at, step.events);
    map e | e in queued && queued[e].installation !in left :: queued[e]
  }

  ghost function PartlyCaused(s: State, step: Step, left: set<string>): map<Event, string>
    requires step.Enqueue? && Enabled(s, step)
  {
    map e | e in Partly(s, step, left) :: step.actor
  }

  lemma SafeWorker(s: State)
    requires Safe(s)
    ensures SoundWorker(s)
  {
  }

  lemma SafeRows(s: State)
    requires Safe(s)
    ensures SoundRows(s)
  {
  }

  lemma EnqueueStarts(s: State, step: Step, found: set<string>)
    requires step.Enqueue? && Enabled(s, step)
    requires found == set i | i in s.devices && s.devices[i].subject != step.actor && Live(s.sessions, s.devices[i], step.at)
    ensures Partly(s, step, found) == map[] && PartlyCaused(s, step, found) == map[]
    ensures forall i :: i in found ==> (i in step.events <==> s.devices[i].subject in s.allowed)
    ensures s.outbox + map[] == s.outbox && s.actors + map[] == s.actors
  {
    hide Pending;
  }

  lemma EnqueueEnds(s: State, step: Step)
    requires step.Enqueue? && Enabled(s, step)
    ensures Partly(s, step, {}) == Queued(s, step.operation, step.transaction, step.at, step.events)
    ensures PartlyCaused(s, step, {}) == Caused(s, step.operation, step.actor, step.events)
  {
    hide Pending, Queued, Caused;
    QueuedRows(s, step);
  }

  /** Handling one more recipient. */
  lemma EnqueueGoes(s: State, step: Step, left: set<string>, installation: string)
    requires SoundRows(s) && step.Enqueue? && Enabled(s, step) && installation in left && installation in s.devices
    requires installation in step.events <==> s.devices[installation].subject in s.allowed
    ensures var now, rest := s.outbox + Partly(s, step, left), left - {installation};
            if installation in step.events && !Pending(now, step.operation, installation) then
              var row := NewRow(s.devices, step.operation, step.transaction, installation, step.events[installation], step.at);
              && s.outbox + Partly(s, step, rest) == now[row.event := row]
              && s.actors + PartlyCaused(s, step, rest) == (s.actors + PartlyCaused(s, step, left))[row.event := step.actor]
            else
              && s.outbox + Partly(s, step, rest) == now
              && s.actors + PartlyCaused(s, step, rest) == s.actors + PartlyCaused(s, step, left)
  {
    hide Queued, Caused, Pending, Partly, PartlyCaused, Enabled, SoundRows;
    var rest := left - {installation};
    PendingMeanwhile(s, step, left, installation);
    QueuedFor(s, step, installation);
    if installation in step.events && !Pending(s.outbox, step.operation, installation) {
      PartlyGrows(s, step, left, installation, step.events[installation]);
      Joined(s.outbox, Partly(s, step, left), step.events[installation], NewRow(s.devices, step.operation, step.transaction, installation, step.events[installation], step.at));
      Joined(s.actors, PartlyCaused(s, step, left), step.events[installation], step.actor);
    } else {
      PartlyStays(s, step, left, installation);
    }
  }

  lemma Joined<K, V>(a: map<K, V>, b: map<K, V>, k: K, v: V)
    ensures a + b[k := v] == (a + b)[k := v]
  {
  }

  lemma PartlyGrows(s: State, step: Step, left: set<string>, installation: string, e: Event)
    requires step.Enqueue? && Enabled(s, step) && installation in left
    requires var queued := Queued(s, step.operation, step.transaction, step.at, step.events); e in queued && queued[e].installation == installation
    ensures var queued := Queued(s, step.operation, step.transaction, step.at, step.events);
            Partly(s, step, left - {installation}) == Partly(s, step, left)[e := queued[e]]
    ensures PartlyCaused(s, step, left - {installation}) == PartlyCaused(s, step, left)[e := step.actor]
  {
    hide Queued, Caused, Pending;
    QueuedRows(s, step);
  }

  lemma PartlyStays(s: State, step: Step, left: set<string>, installation: string)
    requires step.Enqueue? && Enabled(s, step)
    requires var queued := Queued(s, step.operation, step.transaction, step.at, step.events); forall e :: e in queued ==> queued[e].installation != installation
    ensures Partly(s, step, left - {installation}) == Partly(s, step, left)
    ensures PartlyCaused(s, step, left - {installation}) == PartlyCaused(s, step, left)
  {
    hide Queued, Caused, Pending;
  }

  lemma QueuedFor(s: State, step: Step, installation: string)
    requires step.Enqueue? && Enabled(s, step)
    ensures var queued := Queued(s, step.operation, step.transaction, step.at, step.events);
            if installation in step.events && !Pending(s.outbox, step.operation, installation) then
              && step.events[installation] in queued
              && queued[step.events[installation]] == NewRow(s.devices, step.operation, step.transaction, installation, step.events[installation], step.at)
            else forall e :: e in queued ==> queued[e].installation != installation
  {
    hide Queued, Pending, Recipients;
    QueuedFacts(s, step);
  }

  lemma PendingMeanwhile(s: State, step: Step, left: set<string>, installation: string)
    requires SoundRows(s) && step.Enqueue? && Enabled(s, step) && installation in left
    ensures Pending(s.outbox + Partly(s, step, left), step.operation, installation) <==> Pending(s.outbox, step.operation, installation)
  {
    hide Queued;
    QueuedRows(s, step);
    var queued, now := Queued(s, step.operation, step.transaction, step.at, step.events), s.outbox + Partly(s, step, left);
    if Pending(now, step.operation, installation) {
      var e :| e in now && now[e].operation == step.operation && now[e].installation == installation;
      assert e !in Partly(s, step, left);
      assert e in s.outbox && s.outbox[e] == now[e];
    }
    if Pending(s.outbox, step.operation, installation) {
      var e :| e in s.outbox && s.outbox[e].operation == step.operation && s.outbox[e].installation == installation;
      assert now[e] == s.outbox[e];
    }
  }
}
