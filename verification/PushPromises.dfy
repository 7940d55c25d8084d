/** What each statement on the alert tables does, row by row and device by device, and what
    it means for an alert that was delivered. */
module PushPromises {
  import opened PushOutbox

  // ----- how long a retry waits -----

  /** Seconds before the first, second, ... retry; the last stands for all further ones. */
  const WAITS: seq<int> := [60, 120, 240, 480, 960, 1_920, 3_840, 7_680, 15_360]

  function Wait(attempts: int): int { if attempts < 0 then WAITS[0] else if attempts > 8 then WAITS[8] else WAITS[attempts] }

  function Larger(a: int, b: int): int { if a > b then a else b }

  function Smaller(a: int, b: int): int { if a < b then a else b }

  /** The next attempt comes after the larger of minimum and wait, and after half a wait more
      at the latest. */
  predicate RetriedAt(now: int, minimum: int, attempts: int, next: int)
  {
    var longer := Larger(minimum, Wait(attempts));
    Smaller(now + longer, I64_MAX) <= next <= Smaller(now + longer + Wait(attempts) / 2, I64_MAX)
  }

  lemma DelayIs(now: int, minimum: int, attempts: int, random: nat)
    requires minimum <= I64_MAX
    ensures RetriedAt(now, minimum, attempts, Saturated(now + RetryDelay(minimum, attempts, random)))
  {
    hide RetryDelay, Backoff;
    RetryDelayBounds(minimum, attempts, random);
    BackoffIs(attempts);
  }

  lemma BackoffIs(attempts: int)
    ensures Backoff(attempts) == Wait(attempts)
  {
    assert Power2(1) == 2 && Power2(2) == 4 && Power2(3) == 8 && Power2(4) == 16;
    assert Power2(5) == 32 && Power2(6) == 64 && Power2(7) == 128 && Power2(8) == 256;
  }

  // ----- the worker's statements -----

  /** The worker's own fields aside, only the outbox has changed. */
  predicate OutboxOnly(s: State, t: State) { t == s.(outbox := t.outbox, worker := t.worker) }

  /** The row of the event is gone, every other row is as it was. */
  predicate Gone(before: map<Event, Row>, after: map<Event, Row>, event: Event)
  {
    event !in after && forall e :: e in before && e != event ==> e in after && after[e] == before[e]
  }

  predicate NothingNew(before: map<Event, Row>, after: map<Event, Row>) { after.Keys <= before.Keys }

  predicate NextRow(s: State, t: State)
    requires Handling(s.worker)
  {
    t.worker == Batch(s.worker.at, s.worker.rows[1..])
  }

  /** A delivered alert, and one that can never be delivered, leaves the outbox. A device the
      provider does not know loses its registration if it still has the token. A retry costs
      an attempt and waits. All other rows and devices stay as they are. */
  lemma SettleIs(s: State, now: int, random: nat)
    requires SoundWorker(s) && Enabled(s, Step.Settle(now, random))
    requires s.worker.delivery.Retry? ==> s.worker.delivery.minimum <= I64_MAX
    ensures var t, r := Next(s, Step.Settle(now, random)), s.worker.rows[0];
            && (s.worker.delivery == Sent || s.worker.delivery == PermanentFailure ==>
                  OutboxOnly(s, t) && Gone(s.outbox, t.outbox, r.event) && NothingNew(s.outbox, t.outbox) && NextRow(s, t))
            && (s.worker.delivery == InvalidDevice ==>
                  && t == s.(devices := t.devices, worker := t.worker) && t.worker == Unregistered(s.worker.at, s.worker.rows)
                  && (r.installation in t.devices ==> t.devices[r.installation].token != s.worker.check.device.token)
                  && t.devices.Keys <= s.devices.Keys
                  && forall i :: i in s.devices && (i != r.installation || s.devices[i].token != s.worker.check.device.token) ==>
                       i in t.devices && t.devices[i] == s.devices[i])
            && (s.worker.delivery.Retry? ==>
                  && OutboxOnly(s, t) && t.outbox.Keys == s.outbox.Keys && r.event in t.outbox && NextRow(s, t)
                  && t.outbox[r.event] == r.(attempts := r.attempts + 1, nextAttemptAt := t.outbox[r.event].nextAttemptAt)
                  && RetriedAt(now, s.worker.delivery.minimum, r.attempts, t.outbox[r.event].nextAttemptAt)
                  && forall e :: e in s.outbox && e != r.event ==> t.outbox[e] == s.outbox[e])
  {
    hide RetryDelay, Saturated, RetriedAt, CheckHolds;
    if s.worker.delivery.Retry? {
      DelayIs(now, s.worker.delivery.minimum, s.worker.rows[0].attempts, random);
    }
  }

  /** Refused recipients and unregistered devices take the row with them. */
  lemma RowDropped(s: State, step: Step)
    requires Enabled(s, step) && (step.Refuse? || step.RemoveUnregistered?)
    ensures var t := Next(s, step);
            OutboxOnly(s, t) && Gone(s.outbox, t.outbox, s.worker.rows[0].event) && NothingNew(s.outbox, t.outbox) && NextRow(s, t)
  {
  }

  /** After an outage every row due by now waits, only the first is charged an attempt. */
  lemma OutageIs(s: State, now: int, random: nat)
    requires Enabled(s, Step.Outage(now, random))
    ensures var t, r := Next(s, Step.Outage(now, random)), s.worker.rows[0];
            && OutboxOnly(s, t) && t.outbox.Keys == s.outbox.Keys && t.worker == Finishing(s.worker.at)
            && exists next ::
                 && RetriedAt(now, 60, r.attempts, next)
                 && forall e :: e in s.outbox ==>
                      t.outbox[e] == if s.outbox[e].nextAttemptAt > now then s.outbox[e]
                                     else if e == r.event then s.outbox[e].(attempts := s.outbox[e].attempts + 1, nextAttemptAt := next)
                                     else s.outbox[e].(nextAttemptAt := next)
  {
    hide RetryDelay, Saturated, RetriedAt;
    DelayIs(now, 60, s.worker.rows[0].attempts, random);
  }

  /** The row is under a day old, has attempts left, and its device is still signed in as
      when it was queued. */
  ghost predicate Deserves(s: State, r: Row, at: int)
  {
    && at < r.createdAt + 86_400 && r.attempts < 12
    && exists d, live ::
         && r.installation in s.devices && s.devices[r.installation] == d && d.subject == r.recipient && d.session == r.session
         && r.session in s.sessions && s.sessions[r.session] == live && live.subject == r.recipient && live.expiresAt > at
  }

  lemma PurgeIs(s: State, at: int)
    requires Enabled(s, Step.Purge(at))
    ensures var t := Next(s, Step.Purge(at));
            && OutboxOnly(s, t) && t.worker == Purged(at)
            && (forall e :: e in t.outbox <==> e in s.outbox && Deserves(s, s.outbox[e], at))
            && forall e :: e in t.outbox ==> t.outbox[e] == s.outbox[e]
  {
  }

  /** The re-check goes on with a row that still deserves it, and drops any other. */
  lemma RecheckIs(s: State, now: int)
    requires Enabled(s, Step.Recheck(now))
    ensures var t, e := Next(s, Step.Recheck(now)), s.worker.rows[0].event;
            && (e in s.outbox && Deserves(s, s.outbox[e], now) ==>
                  var r := s.outbox[e];
                  && t == s.(worker := t.worker) && r.installation in s.devices && r.session in s.sessions
                  && t.worker == Checked(s.worker.at, s.worker.rows, Check(r, s.devices[r.installation], s.sessions[r.session], now)))
            && (!(e in s.outbox && Deserves(s, s.outbox[e], now)) ==>
                  OutboxOnly(s, t) && Gone(s.outbox, t.outbox, e) && NothingNew(s.outbox, t.outbox) && NextRow(s, t))
  {
  }

  /** A request lives for what is left of the alert's day; without any, none is made and the
      alert is given up. */
  lemma SendIs(s: State, now: int, answer: Delivery)
    requires Enabled(s, Step.Send(now, answer))
    ensures var t := Next(s, Step.Send(now, answer));
            var end := Smaller(s.worker.rows[0].createdAt + 86_400, I64_MAX);
            && t == s.(worker := t.worker, log := t.log)
            && t.worker == Answered(s.worker.at, s.worker.rows, s.worker.check, if now < end then answer else PermanentFailure)
            && t.log == s.log + if now < end then [Attempt(s.worker.check, now, Smaller(end - now, 86_400))] else []
  {
  }

  // ----- registrations -----

  /** An installation has the registration made last, and its token no other one. */
  lemma RegisterIs(s: State, installation: string, token: string, subject: string, session: string, at: int)
    ensures var t := Next(s, Step.Register(installation, token, subject, session, at));
            && t == s.(devices := t.devices)
            && installation in t.devices && t.devices[installation] == Device(subject, session, token, at)
            && (forall i :: i != installation ==> (i in t.devices <==> i in s.devices && s.devices[i].token != token))
            && forall i :: i in t.devices && i != installation ==> t.devices[i] == s.devices[i]
  {
  }

  /** Signing in adds a session and drops those that have ended. */
  lemma SignInIs(s: State, id: string, subject: string, at: int, expiresAt: int)
    requires Enabled(s, Step.SignIn(id, subject, at, expiresAt))
    ensures var t := Next(s, Step.SignIn(id, subject, at, expiresAt));
            && t == s.(sessions := t.sessions) && id in t.sessions && t.sessions[id] == Session(subject, expiresAt)
            && (forall k :: k != id ==> (k in t.sessions <==> k in s.sessions && s.sessions[k].expiresAt > at))
            && forall k :: k in t.sessions && k != id ==> t.sessions[k] == s.sessions[k]
  {
  }

  /** Signing out ends the session and the registrations made in it. */
  lemma RevokeIs(s: State, id: string)
    ensures var t := Next(s, Step.Revoke(id));
            && t == s.(devices := t.devices, sessions := t.sessions)
            && (forall i :: i in t.devices <==> i in s.devices && s.devices[i].session != id)
            && (forall i :: i in t.devices ==> t.devices[i] == s.devices[i])
            && (forall k :: k in t.sessions <==> k in s.sessions && k != id)
            && forall k :: k in t.sessions ==> t.sessions[k] == s.sessions[k]
  {
  }

  /** A device is removed by whoever is signed in on it, in the session it was registered in. */
  lemma RemoveDeviceIs(s: State, installation: string, subject: string, session: string)
    ensures var t := Next(s, Step.RemoveDevice(installation, subject, session));
            && t == s.(devices := t.devices)
            && (forall i :: i in t.devices <==>
                  i in s.devices && !(i == installation && s.devices[i].subject == subject && s.devices[i].session == session))
            && forall i :: i in t.devices ==> t.devices[i] == s.devices[i]
  {
  }

  /** A pass ends by removing the registrations of sessions that had ended when it began. */
  lemma FinishIs(s: State)
    requires Enabled(s, Step.Finish)
    ensures var t := Next(s, Step.Finish);
            && t == s.(devices := t.devices, worker := Idle)
            && (forall i :: i in t.devices <==>
                  i in s.devices && exists live :: s.devices[i].session in s.sessions && s.sessions[s.devices[i].session] == live && live.expiresAt > s.worker.at)
            && forall i :: i in t.devices ==> t.devices[i] == s.devices[i]
  {
  }

  // ----- a new alert -----

  /** Someone else allowed here, signed in on a registered device. */
  ghost predicate ToTell(s: State, actor: string, at: int, installation: string)
  {
    exists d, live ::
      && installation in s.devices && s.devices[installation] == d && d.subject != actor && d.subject in s.allowed
      && d.session in s.sessions && s.sessions[d.session] == live && live.subject == d.subject && live.expiresAt > at
  }

  ghost predicate HasRow(outbox: map<Event, Row>, operation: string, installation: string)
  {
    exists e :: e in outbox && outbox[e].operation == operation && outbox[e].installation == installation
  }

  lemma RecipientsAre(s: State, actor: string, at: int)
    ensures forall i :: i in Recipients(s, actor, at) <==> ToTell(s, actor, at, i)
  {
  }

  lemma PendingIs(outbox: map<Event, Row>, operation: string, installation: string)
    ensures Pending(outbox, operation, installation) <==> HasRow(outbox, operation, installation)
  {
  }

  lemma EnqueueAdds(s: State, step: Step, i: string)
    requires step.Enqueue? && Enabled(s, step) && ToTell(s, step.actor, step.at, i) && !HasRow(s.outbox, step.operation, i)
    ensures var t := Next(s, step);
            i in step.events && i in s.devices && step.events[i] in t.outbox && step.events[i] in t.actors
            && t.actors[step.events[i]] == step.actor
            && t.outbox[step.events[i]]
               == Row(step.events[i], step.operation, step.transaction, i, s.devices[i].subject, s.devices[i].session, step.at, step.at, 0)
  {
    hide Recipients, Pending, Queued, Caused, HasRow, Live, FreshEvents;
    RecipientsAre(s, step.actor, step.at);
    PendingIs(s.outbox, step.operation, i);
    QueuedFacts(s, step);
    QueuedRows(s, step);
  }

  lemma EnqueueOnly(s: State, step: Step, e: Event)
    requires step.Enqueue? && Enabled(s, step) && SoundRows(s)
    ensures var t := Next(s, step);
            && (e in s.outbox ==> e in t.outbox && t.outbox[e] == s.outbox[e])
            && (e in t.outbox && e !in s.outbox ==>
                  ToTell(s, step.actor, step.at, t.outbox[e].installation) && !HasRow(s.outbox, step.operation, t.outbox[e].installation))
  {
    hide Recipients, Pending, Queued, Caused, HasRow, Live, FreshEvents, ToTell;
    QueuedFacts(s, step);
    RecipientsAre(s, step.actor, step.at);
    if e in Next(s, step).outbox {
      PendingIs(s.outbox, step.operation, Next(s, step).outbox[e].installation);
    }
  }

  /** Everyone to tell without a row for the operation gets one, due at once, for the person
      and session on the device; no other row is added, and none is lost or changed. */
  lemma EnqueueIs(s: State, step: Step)
    requires SoundRows(s) && step.Enqueue? && Enabled(s, step)
    ensures var t := Next(s, step);
            && t == s.(outbox := t.outbox, actors := t.actors)
            && (forall i :: ToTell(s, step.actor, step.at, i) && !HasRow(s.outbox, step.operation, i) ==>
                  i in step.events && i in s.devices && step.events[i] in t.outbox && step.events[i] in t.actors
                  && t.actors[step.events[i]] == step.actor
                  && t.outbox[step.events[i]]
                     == Row(step.events[i], step.operation, step.transaction, i, s.devices[i].subject, s.devices[i].session, step.at, step.at, 0))
            && (forall e :: e in s.outbox ==> e in t.outbox && t.outbox[e] == s.outbox[e])
            && (forall e :: e in t.outbox && e !in s.outbox ==>
                  ToTell(s, step.actor, step.at, t.outbox[e].installation) && !HasRow(s.outbox, step.operation, t.outbox[e].installation))
  {
    hide Recipients, Pending, Queued, Caused, ToTell, HasRow, Live, SoundRows;
    forall i | ToTell(s, step.actor, step.at, i) && !HasRow(s.outbox, step.operation, i)
      ensures var t := Next(s, step);
              i in step.events && i in s.devices && step.events[i] in t.outbox && step.events[i] in t.actors
              && t.actors[step.events[i]] == step.actor
              && t.outbox[step.events[i]]
                 == Row(step.events[i], step.operation, step.transaction, i, s.devices[i].subject, s.devices[i].session, step.at, step.at, 0)
    {
      EnqueueAdds(s, step, i);
    }
    forall e: Event
      ensures var t := Next(s, step);
              && (e in s.outbox ==> e in t.outbox && t.outbox[e] == s.outbox[e])
              && (e in t.outbox && e !in s.outbox ==>
                    ToTell(s, step.actor, step.at, t.outbox[e].installation) && !HasRow(s.outbox, step.operation, t.outbox[e].installation))
    {
      EnqueueOnly(s, step, e);
    }
  }

  // ----- an alert that was delivered -----

  /** The event was queued once and has no row any more. */
  predicate Over(s: State, e: Event) { e in s.actors && e !in s.outbox }

  lemma OverStep(s: State, step: Step, e: Event)
    requires Safe(s) && Enabled(s, step) && Over(s, e)
    ensures Over(Next(s, step), e) && Tries(Next(s, step).log, e) == Tries(s.log, e)
  {
    hide Tries, RetryDelay, Selection, Queued, Caused, Registered, Recipients, CurrentDevice, Kept, RemainingTtl, OneRow, OneOwner, SoundRows, Lawful, Allowance, CheckHolds, SoundBatch;
    if step.Enqueue? {
      QueuedRows(s, step);
    } else if step.Send? && Next(s, step).log != s.log {
      TriesStep(s.log, Next(s, step).log[|s.log|], e);
    }
  }

  /** Whatever happens, an alert without a row is never sent again. */
  lemma {:induction false} OverForGood(s: State, steps: seq<Step>, t: State, e: Event)
    requires Safe(s) && Run(s, steps, t) && Over(s, e)
    ensures Over(t, e) && Tries(t.log, e) == Tries(s.log, e)
    decreases |steps|
  {
    hide Safe, Enabled, Next, Over, Tries;
    if steps != [] {
      StepKeepsSafe(s, steps[0]);
      OverStep(s, steps[0], e);
      OverForGood(Next(s, steps[0]), steps[1..], t, e);
    }
  }

  /** The provider has answered for the event, and the answer is final. */
  predicate Final(s: State, e: Event)
  {
    s.worker.Answered? && s.worker.rows != [] && s.worker.rows[0].event == e && (s.worker.delivery == Sent || s.worker.delivery == PermanentFailure)
  }

  /** The worker is not interrupted before it settles the answer. */
  ghost predicate SettledFirst(steps: seq<Step>)
  {
    forall i :: 0 <= i < |steps| && steps[i].Interrupt? ==> exists j :: 0 <= j < i && steps[j].Settle?
  }

  lemma FinalStep(s: State, step: Step, e: Event)
    requires Safe(s) && Enabled(s, step) && Final(s, e) && !step.Interrupt?
    ensures if step.Settle? then Over(Next(s, step), e) else Final(Next(s, step), e)
    ensures Next(s, step).log == s.log
  {
    hide Tries, RetryDelay, Selection, Queued, Caused, Registered, Recipients, CurrentDevice, Kept, RemainingTtl, OneRow, OneOwner, Lawful, Allowance, CheckHolds;
  }

  /** An alert the provider took, or will never take, is not sent again, in whatever order
      everyone goes on, if the worker gets to settle the answer. */
  lemma {:induction false} SentOnce(s: State, steps: seq<Step>, t: State, e: Event)
    requires Safe(s) && Run(s, steps, t) && Final(s, e) && SettledFirst(steps)
    ensures Tries(t.log, e) == Tries(s.log, e)
    decreases |steps|
  {
    hide Safe, Enabled, Next, Over, Final, Tries;
    if steps != [] {
      assert !steps[0].Interrupt?;
      StepKeepsSafe(s, steps[0]);
      FinalStep(s, steps[0], e);
      if steps[0].Settle? {
        OverForGood(Next(s, steps[0]), steps[1..], t, e);
      } else {
        SettledLater(steps);
        SentOnce(Next(s, steps[0]), steps[1..], t, e);
      }
    }
  }

  lemma SettledLater(steps: seq<Step>)
    requires steps != [] && SettledFirst(steps) && !steps[0].Settle?
    ensures SettledFirst(steps[1..])
  {
    forall i | 0 <= i < |steps[1..]| && steps[1..][i].Interrupt?
      ensures exists j :: 0 <= j < i && steps[1..][j].Settle?
    {
      assert steps[i + 1].Interrupt?;
      var k :| 0 <= k < i + 1 && steps[k].Settle?;
      assert steps[1..][k - 1].Settle?;
    }
  }
}
