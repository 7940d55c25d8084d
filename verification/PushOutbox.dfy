/** Partner alerts: registered devices, the outbox of alerts, and the worker that drains
    it, as atomic steps that interleave freely. */
module PushOutbox {

  datatype Option<+T> = None | Some(value: T)

  /** A phone as registered: who is signed in on it, in which session, and where to send. */
  datatype Device = Device(subject: string, session: string, token: string, updatedAt: int)

  datatype Session = Session(subject: string, expiresAt: int)

  type Event = nat

  datatype Row = Row(event: Event, operation: string, transaction: string, installation: string,
                     recipient: string, session: string, createdAt: int, nextAttemptAt: int, attempts: int)

  datatype Delivery = Sent | InvalidDevice | PermanentFailure | Retry(minimum: int)

  /** What the re-check before a send found. */
  datatype Check = Check(row: Row, device: Device, session: Session, at: int)

  /** A request made to the provider. */
  datatype Attempt = Attempt(check: Check, sentAt: int, ttl: int)

  /** Where the worker is between two statements. `rows` are still to be handled, the
      first of them being handled. */
  datatype Worker =
    | Idle
    | Purged(at: int)
    | Batch(at: int, rows: seq<Row>)
    | Authorised(at: int, rows: seq<Row>)
    | Checked(at: int, rows: seq<Row>, check: Check)
    | Answered(at: int, rows: seq<Row>, check: Check, delivery: Delivery)
    | Unregistered(at: int, rows: seq<Row>)
    | Finishing(at: int)

  /** The tables, the worker, and for statements about runs: who caused each event, what
      was sent, and how often the worker was interrupted. */
  datatype State = State(
    allowed: set<string>,
    devices: map<string, Device>, sessions: map<string, Session>, outbox: map<Event, Row>,
    worker: Worker,
    actors: map<Event, string>, log: seq<Attempt>, interrupted: nat)

  const DAY := 86_400
  const MAX_ATTEMPTS := 12
  const BATCH := 20
  const I64_MAX := 0x7FFF_FFFF_FFFF_FFFF

  function Saturated(n: int): int { if n > I64_MAX then I64_MAX else n }

  // ----- queries -----

  /** The session of the device is live at a time. */
  predicate Live(sessions: map<string, Session>, d: Device, at: int)
  {
    d.session in sessions && sessions[d.session].subject == d.subject && sessions[d.session].expiresAt > at
  }

  predicate Pending(outbox: map<Event, Row>, operation: string, installation: string)
  {
    exists e :: e in outbox && outbox[e].operation == operation && outbox[e].installation == installation
  }

  /** The device an alert was queued for is still that device. */
  predicate SameDevice(devices: map<string, Device>, r: Row)
  {
    r.installation in devices && devices[r.installation].subject == r.recipient && devices[r.installation].session == r.session
  }

  predicate Deliverable(devices: map<string, Device>, sessions: map<string, Session>, r: Row, at: int)
  {
    SameDevice(devices, r) && Live(sessions, devices[r.installation], at)
  }

  /** Remaining lifetime of an alert, a day at most. */
  function RemainingTtl(expiresAt: int, at: int): Option<int>
  {
    var remaining := expiresAt - at;
    if remaining > 0 then Some(if remaining < DAY then remaining else DAY) else None
  }

  function Power2(n: nat): nat { if n == 0 then 1 else 2 * Power2(n - 1) }

  function Backoff(attempts: int): int
  {
    60 * Power2(if attempts < 0 then 0 else if attempts > 8 then 8 else attempts)
  }

  /** The larger of the provider's minimum and the backoff, with some jitter on top. */
  function RetryDelay(minimum: int, attempts: int, random: nat): int
  {
    var base := Backoff(attempts);
    var jitter := if base / 2 + 1 > 0 then random % (base / 2 + 1) else 0;
    Saturated((if minimum > base then minimum else base) + jitter)
  }

  /** The jitter shortens neither the provider's minimum nor the backoff. */
  lemma RetryDelayBounds(minimum: int, attempts: int, random: nat)
    requires minimum <= I64_MAX
    ensures 60 <= Backoff(attempts) <= 15_360
    ensures var longer := if minimum > Backoff(attempts) then minimum else Backoff(attempts);
            longer <= RetryDelay(minimum, attempts, random) <= longer + Backoff(attempts) / 2
  {
    var n := if attempts < 0 then 0 else if attempts > 8 then 8 else attempts;
    Power2Bounds(n);
  }

  lemma {:induction false} Power2Bounds(n: nat)
    requires n <= 8
    ensures 1 <= Power2(n) && Power2(n) * Power2(8 - n) == 256 && Power2(n) <= 256
  {
    if n > 0 {
      Power2Bounds(n - 1);
      assert 8 - (n - 1) == (8 - n) + 1;
      assert Power2(9 - n) == 2 * Power2(8 - n);
    } else {
      assert Power2(8) == 2 * Power2(7) && Power2(7) == 2 * Power2(6) && Power2(6) == 2 * Power2(5);
      assert Power2(5) == 2 * Power2(4) && Power2(4) == 2 * Power2(3) && Power2(3) == 2 * Power2(2);
      assert Power2(2) == 2 * Power2(1) && Power2(1) == 2;
    }
  }

  // ----- steps -----

  datatype Step =
    | Register(installation: string, token: string, subject: string, session: string, at: int)
    | RemoveDevice(installation: string, subject: string, session: string)
    | SignIn(id: string, subject: string, at: int, expiresAt: int)
    | Revoke(id: string)
    | Enqueue(operation: string, transaction: string, actor: string, at: int, events: map<string, Event>)
    | Purge(at: int)
    | Select(chosen: seq<Row>)
    | Refuse
    | Authenticate
    | Outage(now: int, random: nat)
    | Recheck(now: int)
    | Send(now: int, answer: Delivery)
    | Settle(now: int, random: nat)
    | RemoveUnregistered
    | Finish
    | Interrupt

  function Registered(devices: map<string, Device>, installation: string, d: Device): map<string, Device>
  {
    (map i | i in devices && (devices[i].token != d.token || i == installation) :: devices[i])[installation := d]
  }

  /** The installations an alert is queued for: others' devices in a live session. */
  function Recipients(s: State, actor: string, at: int): set<string>
  {
    set i | i in s.devices && s.devices[i].subject != actor && Live(s.sessions, s.devices[i], at) && s.devices[i].subject in s.allowed
  }

  function NewRow(devices: map<string, Device>, operation: string, transaction: string, installation: string, event: Event, at: int): Row
    requires installation in devices
  {
    var d := devices[installation];
    Row(event, operation, transaction, installation, d.subject, d.session, at, at, 0)
  }

  /** Event ids are new and no two alike. */
  predicate FreshEvents(s: State, events: map<string, Event>)
  {
    && (forall i :: i in events ==> events[i] !in s.actors)
    && (forall i, j :: i in events && j in events && events[i] == events[j] ==> i == j)
  }

  function Queued(s: State, operation: string, transaction: string, at: int, events: map<string, Event>): map<Event, Row>
    requires events.Keys <= s.devices.Keys && FreshEvents(s, events)
  {
    map i | i in events && !Pending(s.outbox, operation, i) :: events[i] := NewRow(s.devices, operation, transaction, i, events[i], at)
  }

  function Caused(s: State, operation: string, actor: string, events: map<string, Event>): map<Event, string>
    requires FreshEvents(s, events)
  {
    map i | i in events && !Pending(s.outbox, operation, i) :: events[i] := actor
  }

  predicate Kept(s: State, r: Row, at: int)
  {
    r.createdAt > at - DAY && r.attempts < MAX_ATTEMPTS && Deliverable(s.devices, s.sessions, r, at)
  }

  predicate Sooner(r: Row, q: Row)
  {
    r.nextAttemptAt < q.nextAttemptAt || (r.nextAttemptAt == q.nextAttemptAt && r.createdAt <= q.createdAt)
  }

  /** The first due rows, in order. */
  predicate Selection(outbox: map<Event, Row>, at: int, chosen: seq<Row>)
  {
    && |chosen| <= BATCH
    && (forall k :: 0 <= k < |chosen| ==> chosen[k].event in outbox && outbox[chosen[k].event] == chosen[k] && chosen[k].nextAttemptAt <= at)
    && (forall k, l :: 0 <= k < l < |chosen| ==> chosen[k].event != chosen[l].event && Sooner(chosen[k], chosen[l]))
    && (forall e :: e in outbox && outbox[e].nextAttemptAt <= at && outbox[e] !in chosen ==>
          |chosen| == BATCH && forall k :: 0 <= k < |chosen| ==> Sooner(chosen[k], outbox[e]))
  }

  /** After an authentication failure every due row waits, and the first has one attempt more. */
  function Deferred(outbox: map<Event, Row>, first: Event, now: int, next: int): map<Event, Row>
  {
    map e | e in outbox ::
      if outbox[e].nextAttemptAt > now then outbox[e]
      else outbox[e].(attempts := outbox[e].attempts + (if e == first then 1 else 0), nextAttemptAt := next)
  }

  predicate Handling(w: Worker) { (w.Batch? || w.Authorised? || w.Checked? || w.Answered? || w.Unregistered?) && w.rows != [] }

  predicate Enabled(s: State, step: Step)
  {
    match step
    case Register(_, _, _, _, _) => true
    case RemoveDevice(_, _, _) => true
    case SignIn(id, _, _, _) => id !in s.sessions
    case Revoke(_) => true
    case Enqueue(operation, _, actor, at, events) => events.Keys == Recipients(s, actor, at) && FreshEvents(s, events)
    case Purge(_) => s.worker.Idle?
    case Select(chosen) => s.worker.Purged? && Selection(s.outbox, s.worker.at, chosen)
    case Refuse => s.worker.Batch? && s.worker.rows != [] && s.worker.rows[0].recipient !in s.allowed
    case Authenticate => s.worker.Batch? && s.worker.rows != [] && s.worker.rows[0].recipient in s.allowed
    case Outage(_, _) => s.worker.Batch? && s.worker.rows != [] && s.worker.rows[0].recipient in s.allowed
    case Recheck(_) => s.worker.Authorised? && s.worker.rows != []
    case Send(_, _) => s.worker.Checked? && s.worker.rows != []
    case Settle(_, _) => s.worker.Answered? && s.worker.rows != []
    case RemoveUnregistered => s.worker.Unregistered? && s.worker.rows != []
    case Finish => s.worker.Finishing? || (s.worker.Batch? && s.worker.rows == [])
    case Interrupt => true
  }

  /** The re-check finds the row, young and with attempts left, and its device in its live session. */
  function CurrentDevice(s: State, event: Event, at: int): Option<Check>
  {
    if event in s.outbox && Kept(s, s.outbox[event], at) then
      var r := s.outbox[event];
      Some(Check(r, s.devices[r.installation], s.sessions[r.session], at))
    else None
  }

  function Next(s: State, step: Step): State
    requires Enabled(s, step)
  {
    match step
    case Register(installation, token, subject, session, at) =>
      s.(devices := Registered(s.devices, installation, Device(subject, session, token, at)))
    case RemoveDevice(installation, subject, session) =>
      if installation in s.devices && s.devices[installation].subject == subject && s.devices[installation].session == session
      then s.(devices := s.devices - {installation}) else s
    case SignIn(id, subject, at, expiresAt) =>
      s.(sessions := (map k | k in s.sessions && s.sessions[k].expiresAt > at :: s.sessions[k])[id := Session(subject, expiresAt)])
    case Revoke(id) =>
      s.(devices := map i | i in s.devices && s.devices[i].session != id :: s.devices[i], sessions := s.sessions - {id})
    case Enqueue(operation, transaction, actor, at, events) =>
      s.(outbox := s.outbox + Queued(s, operation, transaction, at, events), actors := s.actors + Caused(s, operation, actor, events))
    case Purge(at) =>
      s.(outbox := map e | e in s.outbox && Kept(s, s.outbox[e], at) :: s.outbox[e], worker := Purged(at))
    case Select(chosen) => s.(worker := Batch(s.worker.at, chosen))
    case Refuse => s.(outbox := s.outbox - {s.worker.rows[0].event}, worker := Batch(s.worker.at, s.worker.rows[1..]))
    case Authenticate => s.(worker := Authorised(s.worker.at, s.worker.rows))
    case Outage(now, random) =>
      var next := Saturated(now + RetryDelay(60, s.worker.rows[0].attempts, random));
      s.(outbox := Deferred(s.outbox, s.worker.rows[0].event, now, next), worker := Finishing(s.worker.at))
    case Recheck(now) =>
      (match CurrentDevice(s, s.worker.rows[0].event, now)
       case None => s.(outbox := s.outbox - {s.worker.rows[0].event}, worker := Batch(s.worker.at, s.worker.rows[1..]))
       case Some(check) => s.(worker := Checked(s.worker.at, s.worker.rows, check)))
    case Send(now, answer) =>
      (match RemainingTtl(Saturated(s.worker.rows[0].createdAt + DAY), now)
       case None => s.(worker := Answered(s.worker.at, s.worker.rows, s.worker.check, PermanentFailure))
       case Some(ttl) => s.(worker := Answered(s.worker.at, s.worker.rows, s.worker.check, answer),
                            log := s.log + [Attempt(s.worker.check, now, ttl)]))
    case Settle(now, random) =>
      var r := s.worker.rows[0];
      (match s.worker.delivery
       case Sent => s.(outbox := s.outbox - {r.event}, worker := Batch(s.worker.at, s.worker.rows[1..]))
       case PermanentFailure => s.(outbox := s.outbox - {r.event}, worker := Batch(s.worker.at, s.worker.rows[1..]))
       case InvalidDevice =>
         s.(devices := if r.installation in s.devices && s.devices[r.installation].token == s.worker.check.device.token
                       then s.devices - {r.installation} else s.devices,
            worker := Unregistered(s.worker.at, s.worker.rows))
       case Retry(minimum) =>
         s.(outbox := if r.event !in s.outbox then s.outbox
                      else s.outbox[r.event := s.outbox[r.event].(attempts := s.outbox[r.event].attempts + 1,
                             nextAttemptAt := Saturated(now + RetryDelay(minimum, r.attempts, random)))],
            worker := Batch(s.worker.at, s.worker.rows[1..])))
    case RemoveUnregistered => s.(outbox := s.outbox - {s.worker.rows[0].event}, worker := Batch(s.worker.at, s.worker.rows[1..]))
    case Finish =>
      s.(devices := map i | i in s.devices && s.devices[i].session in s.sessions && s.sessions[s.devices[i].session].expiresAt > s.worker.at
                      :: s.devices[i],
         worker := Idle)
    case Interrupt => s.(worker := Idle, interrupted := s.interrupted + 1)
  }

  // ----- what always holds -----

  /** A request went only where it was allowed to go. */
  ghost predicate Lawful(actors: map<Event, string>, allowed: set<string>, a: Attempt)
  {
    var c := a.check;
    && CheckHolds(actors, allowed, c)
    && a.ttl > 0 && a.sentAt + a.ttl <= c.row.createdAt + DAY
  }

  /** The re-check held when it was made: an alert under a day old with attempts left, for
      someone who did not cause it, on the device and in the live session it was queued for. */
  ghost predicate CheckHolds(actors: map<Event, string>, allowed: set<string>, c: Check)
  {
    && c.row.event in actors && actors[c.row.event] != c.row.recipient && c.row.recipient in allowed
    && c.device.subject == c.row.recipient && c.device.session == c.row.session
    && c.session.subject == c.row.recipient && c.session.expiresAt > c.at
    && c.at < c.row.createdAt + DAY && 0 <= c.row.attempts < MAX_ATTEMPTS
  }

  ghost predicate OneOwner(devices: map<string, Device>)
  {
    forall i, j :: i in devices && j in devices && devices[i].token == devices[j].token ==> i == j
  }

  predicate SameAlert(r: Row, q: Row) { r.operation == q.operation && r.installation == q.installation }

  ghost predicate OneRow(outbox: map<Event, Row>)
  {
    forall e, f :: e in outbox && f in outbox && SameAlert(outbox[e], outbox[f]) ==> e == f
  }

  ghost predicate SoundRows(s: State)
  {
    forall e :: e in s.outbox ==>
      && s.outbox[e].event == e && 0 <= s.outbox[e].attempts <= MAX_ATTEMPTS
      && e in s.actors && s.actors[e] != s.outbox[e].recipient && s.outbox[e].recipient in s.allowed
  }

  /** Rows the worker holds are as it read them, or gone for good. */
  ghost predicate SoundBatch(actors: map<Event, string>, outbox: map<Event, Row>, rows: seq<Row>)
  {
    && (forall k :: 0 <= k < |rows| ==> rows[k].event in actors && 0 <= rows[k].attempts < MAX_ATTEMPTS)
    && (forall k :: 0 <= k < |rows| && rows[k].event in outbox ==> outbox[rows[k].event] == rows[k])
    && (forall k, l :: 0 <= k < l < |rows| ==> rows[k].event != rows[l].event)
  }

  ghost predicate SoundWorker(s: State)
  {
    match s.worker
    case Idle => true
    case Purged(_) => forall e :: e in s.outbox ==> s.outbox[e].attempts < MAX_ATTEMPTS
    case Batch(_, rows) => SoundBatch(s.actors, s.outbox, rows)
    case Authorised(_, rows) => rows != [] && SoundBatch(s.actors, s.outbox, rows)
    case Checked(_, rows, check) => rows != [] && SoundBatch(s.actors, s.outbox, rows) && check.row == rows[0] && rows[0].event in s.outbox && CheckHolds(s.actors, s.allowed, check)
    case Answered(_, rows, check, _) => rows != [] && SoundBatch(s.actors, s.outbox, rows) && check.row == rows[0] && rows[0].event in s.outbox
    case Unregistered(_, rows) => rows != [] && SoundBatch(s.actors, s.outbox, rows)
    case Finishing(_) => true
  }

  /** How often an event has been sent. */
  function Tries(log: seq<Attempt>, e: Event): nat
  {
    if log == [] then 0 else Tries(log[..|log| - 1], e) + if log[|log| - 1].check.row.event == e then 1 else 0
  }

  /** Attempts that may have been made for an event so far. */
  ghost function Allowance(s: State, e: Event): int
  {
    s.interrupted
    + (if e in s.outbox then s.outbox[e].attempts else if e in s.actors then MAX_ATTEMPTS else 0)
    + if ((s.worker.Answered? || s.worker.Unregistered?) && s.worker.rows != [] && s.worker.rows[0].event == e && e in s.outbox) then 1 else 0
  }

  ghost predicate Safe(s: State)
  {
    && OneOwner(s.devices) && OneRow(s.outbox) && SoundRows(s) && SoundWorker(s)
    && (forall a :: a in s.log ==> Lawful(s.actors, s.allowed, a))
    && (forall e :: Tries(s.log, e) <= Allowance(s, e))
  }

  // ----- every step keeps it -----

  lemma OwnersKept(s: State, step: Step)
    requires Safe(s) && Enabled(s, step)
    ensures OneOwner(Next(s, step).devices)
  {
    hide SoundWorker, SoundRows, OneRow, Tries, Selection, Recipients, Queued, Caused, Lawful;
  }

  lemma QueuedRows(s: State, step: Step)
    requires step.Enqueue? && Enabled(s, step)
    ensures var queued := Queued(s, step.operation, step.transaction, step.at, step.events);
            && (forall e :: e in queued ==>
                  && e !in s.actors && queued[e].event == e && queued[e].attempts == 0 && queued[e].operation == step.operation
                  && queued[e].recipient != step.actor && queued[e].recipient in s.allowed
                  && !Pending(s.outbox, step.operation, queued[e].installation))
            && (forall e, f :: e in queued && f in queued && queued[e].installation == queued[f].installation ==> e == f)
            && Caused(s, step.operation, step.actor, step.events).Keys == queued.Keys
            && forall e :: e in queued ==> Caused(s, step.operation, step.actor, step.events)[e] == step.actor
  {
  }

  /** What an alert queues: one row for each recipient that has none yet, and nothing else. */
  lemma QueuedFacts(s: State, step: Step)
    requires step.Enqueue? && Enabled(s, step)
    ensures var queued := Queued(s, step.operation, step.transaction, step.at, step.events);
            && (forall i :: i in Recipients(s, step.actor, step.at) && !Pending(s.outbox, step.operation, i) ==>
                  && i in step.events && step.events[i] in queued
                  && queued[step.events[i]] == NewRow(s.devices, step.operation, step.transaction, i, step.events[i], step.at))
            && (forall e :: e in queued ==>
                  && queued[e].installation in Recipients(s, step.actor, step.at) && !Pending(s.outbox, step.operation, queued[e].installation)
                  && step.events[queued[e].installation] == e && e !in s.actors)
            && (forall e, f :: e in queued && f in queued && queued[e].installation == queued[f].installation ==> e == f)
  {
    QueuedRows(s, step);
  }

  lemma MergedRows(outbox: map<Event, Row>, queued: map<Event, Row>, operation: string)
    requires OneRow(outbox)
    requires forall e :: e in queued ==> queued[e].operation == operation && !Pending(outbox, operation, queued[e].installation)
    requires forall e, f :: e in queued && f in queued && queued[e].installation == queued[f].installation ==> e == f
    ensures OneRow(outbox + queued)
  {
  }

  /** Rows only go, or change nothing but attempts and the time of the next one. */
  ghost predicate Fewer(before: map<Event, Row>, after: map<Event, Row>)
  {
    forall e :: e in after ==> e in before && after[e].(attempts := 0, nextAttemptAt := 0) == before[e].(attempts := 0, nextAttemptAt := 0)
  }

  lemma StepFewer(s: State, step: Step)
    requires Enabled(s, step) && !step.Enqueue?
    ensures Fewer(s.outbox, Next(s, step).outbox) && Next(s, step).actors == s.actors && Next(s, step).allowed == s.allowed
  {
    hide Selection, RetryDelay, Registered, Recipients, Kept, Queued, Caused, CurrentDevice, RemainingTtl, Deferred, Fewer;
    if step.Outage? {
      DeferredFewer(s.outbox, s.worker.rows[0].event, step.now, Saturated(step.now + RetryDelay(60, s.worker.rows[0].attempts, step.random)));
    } else {
      FewerIs(s.outbox, Next(s, step).outbox);
    }
  }

  lemma DeferredFewer(outbox: map<Event, Row>, first: Event, now: int, next: int)
    ensures Fewer(outbox, Deferred(outbox, first, now, next))
  {
  }

  lemma FewerIs(before: map<Event, Row>, after: map<Event, Row>)
    ensures (forall e :: e in after ==> e in before && (after[e] == before[e] || after[e].(attempts := 0, nextAttemptAt := 0) == before[e].(attempts := 0, nextAttemptAt := 0)))
            ==> Fewer(before, after)
  {
  }

  lemma AttemptsBounded(s: State, step: Step)
    requires SoundRows(s) && SoundWorker(s) && Enabled(s, step) && !step.Enqueue?
    ensures forall e :: e in Next(s, step).outbox ==> 0 <= Next(s, step).outbox[e].attempts <= MAX_ATTEMPTS
  {
    hide Selection, RetryDelay, Registered, Recipients, Kept, CheckHolds;
  }

  lemma QueuedSound(s: State, t: State, queued: map<Event, Row>, caused: map<Event, string>, actor: string)
    requires SoundRows(s) && t.allowed == s.allowed && t.outbox == s.outbox + queued && t.actors == s.actors + caused
    requires caused.Keys == queued.Keys && forall e :: e in caused ==> caused[e] == actor && e !in s.actors
    requires forall e :: e in queued ==>
               queued[e].event == e && queued[e].attempts == 0 && queued[e].recipient != actor && queued[e].recipient in s.allowed
    ensures SoundRows(t)
  {
  }

  lemma QueueingKeepsRows(s: State, step: Step)
    requires OneRow(s.outbox) && SoundRows(s) && step.Enqueue? && Enabled(s, step)
    ensures OneRow(Next(s, step).outbox) && SoundRows(Next(s, step))
  {
    hide OneRow, SoundRows, Pending, Queued, Caused, Live, Registered, Kept, CurrentDevice;
    QueuedRows(s, step);
    var queued, caused := Queued(s, step.operation, step.transaction, step.at, step.events), Caused(s, step.operation, step.actor, step.events);
    MergedRows(s.outbox, queued, step.operation);
    QueuedSound(s, Next(s, step), queued, caused, step.actor);
  }

  lemma RowsKept(s: State, step: Step)
    requires OneRow(s.outbox) && SoundRows(s) && SoundWorker(s) && Enabled(s, step)
    ensures OneRow(Next(s, step).outbox) && SoundRows(Next(s, step))
  {
    hide *;
    if step.Enqueue? {
      QueueingKeepsRows(s, step);
    } else {
      StepFewer(s, step);
      AttemptsBounded(s, step);
      FewerRows(s, Next(s, step));
    }
  }

  lemma FewerRows(s: State, t: State)
    requires OneRow(s.outbox) && SoundRows(s) && Fewer(s.outbox, t.outbox) && t.actors == s.actors && t.allowed == s.allowed
    requires forall e :: e in t.outbox ==> 0 <= t.outbox[e].attempts <= MAX_ATTEMPTS
    ensures OneRow(t.outbox) && SoundRows(t)
  {
  }

  // ----- steps of the others -----

  predicate OfWorker(step: Step)
  {
    !(step.Register? || step.RemoveDevice? || step.SignIn? || step.Revoke? || step.Enqueue?)
  }

  /** The others leave the worker's rows alone and only add rows of new events. */
  ghost predicate Beside(s: State, t: State)
  {
    && t.worker == s.worker && t.log == s.log && t.interrupted == s.interrupted && t.allowed == s.allowed
    && (forall e :: e in s.outbox ==> e in t.outbox && t.outbox[e] == s.outbox[e])
    && (forall e :: e in t.outbox && e !in s.outbox ==> e !in s.actors && t.outbox[e].attempts == 0)
    && (forall e :: e in s.actors ==> e in t.actors && t.actors[e] == s.actors[e])
  }

  lemma OthersBeside(s: State, step: Step)
    requires SoundRows(s) && Enabled(s, step) && !OfWorker(step)
    ensures Beside(s, Next(s, step))
  {
    hide Registered, Recipients, Queued, Caused, Pending;
    if step.Enqueue? {
      QueuedRows(s, step);
    }
  }

  lemma BesideKeeps(s: State, t: State)
    requires SoundRows(s) && SoundWorker(s) && Beside(s, t)
    requires forall a :: a in s.log ==> Lawful(s.actors, s.allowed, a)
    requires forall e :: Tries(s.log, e) <= Allowance(s, e)
    ensures SoundWorker(t)
    ensures forall a :: a in t.log ==> Lawful(t.actors, t.allowed, a)
    ensures forall e :: Tries(t.log, e) <= Allowance(t, e)
  {
    hide Tries;
    forall e ensures Allowance(s, e) <= Allowance(t, e) {
    }
  }

  // ----- steps of the worker -----

  /** The worker's rows after the first one are still as it read them. */
  lemma BatchGoesOn(actors: map<Event, string>, before: map<Event, Row>, after: map<Event, Row>, rows: seq<Row>)
    requires rows != [] && SoundBatch(actors, before, rows)
    requires forall e :: e in after && e != rows[0].event ==> e in before && after[e] == before[e]
    ensures SoundBatch(actors, after, rows[1..])
  {
  }

  lemma CheckIsLawful(s: State, event: Event, at: int)
    requires SoundRows(s) && CurrentDevice(s, event, at).Some?
    ensures event in s.outbox && CurrentDevice(s, event, at).value.row == s.outbox[event]
    ensures CheckHolds(s.actors, s.allowed, CurrentDevice(s, event, at).value)
  {
  }

  lemma FirstRow(actors: map<Event, string>, outbox: map<Event, Row>, rows: seq<Row>)
    requires rows != [] && SoundBatch(actors, outbox, rows)
    ensures rows[0].event in outbox ==> outbox[rows[0].event] == rows[0]
    ensures 0 <= rows[0].attempts < MAX_ATTEMPTS
  {
  }

  lemma SelectionSound(s: State, chosen: seq<Row>)
    requires SoundRows(s) && (forall e :: e in s.outbox ==> s.outbox[e].attempts < MAX_ATTEMPTS) && s.worker.Purged?
    requires Selection(s.outbox, s.worker.at, chosen)
    ensures SoundBatch(s.actors, s.outbox, chosen)
  {
  }

  lemma WorkerKept(s: State, step: Step)
    requires SoundRows(s) && SoundWorker(s) && Enabled(s, step) && OfWorker(step)
    ensures SoundWorker(Next(s, step))
  {
    hide SoundRows, RetryDelay, CheckHolds, CurrentDevice, Deferred, SoundBatch, RemainingTtl, Selection, Deliverable;
    if step.Select? {
      SelectionSound(s, step.chosen);
    } else if step.Recheck? {
      FirstRow(s.actors, s.outbox, s.worker.rows);
      if CurrentDevice(s, s.worker.rows[0].event, step.now).Some? {
        CheckIsLawful(s, s.worker.rows[0].event, step.now);
      }
    }
    if Next(s, step).worker.Batch? && !step.Select? {
      BatchGoesOn(s.actors, s.outbox, Next(s, step).outbox, s.worker.rows);
    }
  }

  lemma LogKept(s: State, step: Step)
    requires SoundWorker(s) && Enabled(s, step) && OfWorker(step)
    requires forall a :: a in s.log ==> Lawful(s.actors, s.allowed, a)
    ensures forall a :: a in Next(s, step).log ==> Lawful(Next(s, step).actors, Next(s, step).allowed, a)
  {
    hide SoundBatch, RetryDelay, CheckHolds, CurrentDevice, Deferred, Selection, Kept;
  }

  lemma TriesStep(log: seq<Attempt>, a: Attempt, e: Event)
    ensures Tries(log + [a], e) == Tries(log, e) + if a.check.row.event == e then 1 else 0
  {
  }

  /** What may have been tried never shrinks, and a request uses up one more attempt. */
  lemma AllowanceGrows(s: State, step: Step, e: Event)
    requires SoundRows(s) && SoundWorker(s) && Enabled(s, step) && OfWorker(step) && !step.Send?
    ensures Allowance(s, e) <= Allowance(Next(s, step), e) && Next(s, step).log == s.log
  {
    hide SoundBatch, RetryDelay, CheckHolds, CurrentDevice, Selection, Kept, Registered, Recipients, Queued, Caused, RemainingTtl;
    if Handling(s.worker) {
      FirstRow(s.actors, s.outbox, s.worker.rows);
    }
  }

  lemma SendTries(s: State, step: Step, e: Event)
    requires SoundWorker(s) && Enabled(s, step) && step.Send? && Tries(s.log, e) <= Allowance(s, e)
    ensures Tries(Next(s, step).log, e) <= Allowance(Next(s, step), e)
  {
    hide SoundBatch, RetryDelay, CheckHolds, Tries, RemainingTtl;
    var t := Next(s, step);
    if t.log != s.log {
      TriesStep(s.log, t.log[|s.log|], e);
    }
  }

  lemma TriesKept(s: State, step: Step)
    requires SoundRows(s) && SoundWorker(s) && Enabled(s, step) && OfWorker(step)
    requires forall e :: Tries(s.log, e) <= Allowance(s, e)
    ensures forall e :: Tries(Next(s, step).log, e) <= Allowance(Next(s, step), e)
  {
    hide Tries, SoundRows, SoundWorker, Enabled, Next, Allowance;
    forall e ensures Tries(Next(s, step).log, e) <= Allowance(Next(s, step), e) {
      assert Tries(s.log, e) <= Allowance(s, e);
      if step.Send? {
        SendTries(s, step, e);
      } else {
        AllowanceGrows(s, step, e);
      }
    }
  }

  // ----- runs -----

  /** Every step, whoever takes it, keeps everything that always holds. */
  lemma StepKeepsSafe(s: State, step: Step)
    requires Safe(s) && Enabled(s, step)
    ensures Safe(Next(s, step))
  {
    hide OneOwner, OneRow, SoundRows, SoundWorker, Lawful, Tries, Allowance, Next, Enabled, Beside;
    OwnersKept(s, step);
    RowsKept(s, step);
    if OfWorker(step) {
      WorkerKept(s, step);
      LogKept(s, step);
      TriesKept(s, step);
    } else {
      OthersBeside(s, step);
      BesideKeeps(s, Next(s, step));
    }
  }

  /** Steps taken one after another, in any order in which each is possible. */
  ghost predicate Run(s: State, steps: seq<Step>, t: State)
    decreases |steps|
  {
    if steps == [] then s == t
    else Enabled(s, steps[0]) && Run(Next(s, steps[0]), steps[1..], t)
  }

  function Initial(allowed: set<string>): State
  {
    State(allowed, map[], map[], map[], Idle, map[], [], 0)
  }

  lemma {:induction false} RunKeepsSafe(s: State, steps: seq<Step>, t: State)
    requires Safe(s) && Run(s, steps, t)
    ensures Safe(t)
    decreases |steps|
  {
    hide Safe, Enabled, Next;
    if steps != [] {
      StepKeepsSafe(s, steps[0]);
      RunKeepsSafe(Next(s, steps[0]), steps[1..], t);
    }
  }

  /** Whatever happens in whatever order: a token belongs to one installation, an operation
      has one row per installation, no row has more than 12 attempts, and every request
      that was sent was lawful. */
  lemma EveryRun(allowed: set<string>, steps: seq<Step>, t: State)
    requires Run(Initial(allowed), steps, t)
    ensures OneOwner(t.devices) && OneRow(t.outbox)
    ensures forall e :: e in t.outbox ==> t.outbox[e].attempts <= MAX_ATTEMPTS
    ensures forall a :: a in t.log ==> Lawful(t.actors, t.allowed, a)
    ensures forall e :: Tries(t.log, e) <= MAX_ATTEMPTS + t.interrupted
  {
    RunKeepsSafe(Initial(allowed), steps, t);
    AllowanceBound(t);
  }

  lemma AllowanceBound(s: State)
    requires SoundRows(s) && SoundWorker(s)
    ensures forall e :: Allowance(s, e) <= MAX_ATTEMPTS + s.interrupted
  {
  }
}
