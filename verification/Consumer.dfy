/** The consumer loop and its investigating handler, as the code runs them. Every change to the world
    is an action of the delivery machine, so each run of the loop is one of the machine's runs. */
module Consumer {
  import opened Domain
  import opened States
  import opened Storage
  import opened Delivery

  /** How one handler run goes: it completes, or it raises once `stage` transactions have committed.
      A rejected event is an invalid one, which is never retried. */
  datatype HandlerRun =
    | Completes(state: State, announced: bool)
    | Raises(stage: nat, state: State, rejected: bool)

  /** What happens while one record is processed; a request to stop may arrive meanwhile. */
  datatype Script = Script(runs: seq<HandlerRun>, parkAccepted: bool, stopRequested: bool)

  /** A handler run that gets as far as saving, if it finds the incident unfinished. */
  predicate GetsToSaving(run: HandlerRun) { run.Completes? || run.stage >= 3 }

  /** The tables with one incident's status, and nothing else, changed. */
  function Marked(t: Tables, id: Identity, status: Status): Tables {
    if id !in t.incidents then t
    else t.(incidents := t.incidents[id := Incident(status, t.incidents[id].deliveryCount)])
  }

  /** Only the last record consumed can have been processed with a stop asked for. */
  predicate RanOn(scripts: seq<Script>, consumed: nat, stopping: bool)
    requires consumed <= |scripts|
  {
    forall i :: 0 <= i < consumed - 1 ==> !scripts[i].stopRequested && !stopping
  }

  /** The handler never moves an offset, a record or a dead letter. */
  predicate SamePlaces(w: World, w': World, p: nat)
    requires p < |w.workers| && p < |w'.workers|
  {
    && w'.committed == w.committed && w'.parked == w.parked && w'.refused == w.refused
    && w'.workers[p].position == w.workers[p].position
  }

  class FailureConsumer {
    const setup: Setup
    const partition: nat
    var world: World
    var started: bool
    var stopping: bool
    ghost var history: seq<Action>

    ghost predicate Valid()
      reads this`world, this`history
    {
      && partition < |setup.log| && setup.maxAttempts >= 1
      && Shaped(setup, world) && world == RunActions(setup, Delivery.Start(setup), history)
    }

    function Mine(): Worker
      reads this`world
      requires Shaped(setup, world) && partition < |setup.log|
    {
      world.workers[partition]
    }

    /** The committed offset is the position. */
    predicate CaughtUp()
      reads this`world
      requires Shaped(setup, world) && partition < |setup.log|
    {
      world.committed[partition] == Mine().position
    }

    constructor (setup: Setup, partition: nat)
      requires partition < |setup.log| && setup.maxAttempts >= 1
      ensures Valid() && Mine() == Worker(0, Ready) && !started && !stopping
      ensures this.setup == setup && this.partition == partition
    {
      this.setup, this.partition := setup, partition;
      world, history := Delivery.Start(setup), [];
      started, stopping := false, false;
    }

    method Start()
      modifies this`started
      ensures started
    {
      started := true;
    }

    method RequestStop()
      modifies this`stopping
      ensures stopping
    {
      stopping := true;
    }

    /** One atomic change of the world. */
    method Act(a: Action)
      requires Valid()
      modifies this`world, this`history
      ensures Valid() && world == Apply(setup, old(world), a) && history == old(history) + [a]
    {
      ActionsAppend(setup, Delivery.Start(setup), history, [a]);
      assert [a][1..] == [];
      assert RunActions(setup, world, [a]) == Apply(setup, world, a);
      world := Apply(setup, world, a);
      history := history + [a];
    }

    /** The failure in hand. */
    ghost function Failure(): Identity
      reads this
      requires Valid() && InHandler(Mine().phase)
    {
      Held(setup, world, partition)
    }

    /** First transaction: records the delivery, and tells whether the incident was already done. */
    method Record() returns (done: bool)
      requires Valid() && Mine().phase.Handling?
      modifies this`world, this`history
      ensures Valid() && old(history) <= history && SamePlaces(old(world), world, partition)
      ensures world.tables == Recorded(old(world.tables), old(Failure())) && world.saves == old(world.saves)
      ensures done == (old(Failure()) in old(world.tables.incidents)
                       && Terminal(old(world.tables.incidents[Failure()].status)))
      ensures Mine().phase == if done then Done else Opened(old(Mine().phase.attempt))
      ensures Finished(world, old(Failure())) == done
      ensures !done ==> Failure() == old(Failure())
      ensures world.announced == old(world.announced)
    {
      Act(Open(partition));
      return Mine().phase.Done?;
    }

    /** Second transaction: marks the incident as investigating and takes the next attempt number. */
    method TakeAttempt()
      requires Valid() && Mine().phase.Opened?
      modifies this`world, this`history
      ensures Valid() && old(history) <= history && SamePlaces(old(world), world, partition)
      ensures world.saves == old(world.saves)
      ensures world.tables == Marked(old(world.tables), old(Failure()), Investigating)
      ensures Mine().phase == Running(old(Mine().phase.attempt), NextAttempt(old(world.tables), old(Failure())))
      ensures !Finished(world, old(Failure()))
      ensures Failure() == old(Failure()) && world.announced == old(world.announced)
    {
      Act(Begin(partition));
    }

    /** Third transaction: saves everything and sets the final status, all or nothing. */
    method SaveAll(state: State)
      requires Valid() && Mine().phase.Running?
      modifies this`world, this`history
      ensures Valid() && old(history) <= history && SamePlaces(old(world), world, partition)
      ensures world.saves == old(world.saves) + [Save(old(Failure()), old(Mine().phase.run))]
      ensures Mine().phase == Persisted(old(Mine().phase.attempt), old(Mine().phase.run), state)
      ensures Failure() == old(Failure()) && Failure() in world.tables.incidents
      ensures world.tables.incidents == Marked(old(world.tables), old(Failure()), StatusFor(state)).incidents
      ensures world.tables.incidents[Failure()].status == StatusFor(state) && Finished(world, Failure())
      ensures Adds(old(world.tables), world.tables.(incidents := old(world.tables.incidents)),
                   old(Failure()), state, old(Mine().phase.run))
      ensures world.announced == old(world.announced)
    {
      SavingAddsItsRows(world.tables, Failure(), state, Mine().phase.run);
      hide Adds;
      Act(Persist(partition, state));
    }

    method AnnounceIt(accepted: bool)
      requires Valid() && Mine().phase.Persisted?
      modifies this`world, this`history
      ensures Valid() && old(history) <= history && SamePlaces(old(world), world, partition)
      ensures world.saves == old(world.saves) && world.tables == old(world.tables) && Mine().phase == Done
      ensures var state := old(Mine().phase.state);
        world.announced == if accepted && state.diagnosis.Some?
          then old(world.announced) + [Announcement(old(Failure()), old(Mine().phase.run), state.diagnosis.value)]
          else old(world.announced)
    {
      Act(Announce(partition, accepted));
    }

    /** Records the failure, investigates it unless that was already done, saves everything in one
        transaction and only then announces it. */
    method Handle(run: HandlerRun) returns (raised: bool)
      requires Valid() && Mine().phase.Handling?
      modifies this`world, this`history
      ensures Valid() && old(history) <= history && SamePlaces(old(world), world, partition)
      ensures if raised then InHandler(Mine().phase) && Mine().phase.attempt == old(Mine().phase.attempt)
                             && Failure() == old(Failure())
              else Mine().phase == Done
      ensures var done := old(Finished(world, Failure()));
        && raised == (run.Raises? && (run.stage == 0 || !done))
        && (done ==> world.saves == old(world.saves))
        && (!done && (run.Completes? || run.stage >= 3) ==>
              world.saves == old(world.saves)
                + [Save(old(Failure()), NextAttempt(old(world.tables), old(Failure())))])
        && (!done && run.Raises? && run.stage < 3 ==> world.saves == old(world.saves))
        && Finished(world, old(Failure())) == (done || GetsToSaving(run))
        && (if done || !GetsToSaving(run)
            then world.tables == old(world.tables).(incidents := world.tables.incidents)
            else && Adds(old(world.tables), world.tables.(incidents := old(world.tables.incidents)),
                         old(Failure()), run.state, NextAttempt(old(world.tables), old(Failure())))
                 && world.tables.incidents[old(Failure())].status == StatusFor(run.state))
        && world.announced ==
             if !done && run.Completes? && run.announced && run.state.diagnosis.Some?
             then old(world.announced) + [Announcement(
                    old(Failure()), NextAttempt(old(world.tables), old(Failure())), run.state.diagnosis.value)]
             else old(world.announced)
    {
      hide Apply, RunActions, Adds, MaxAttempt, StatusFor;
      if run.Raises? && run.stage == 0 {
        return true;
      }
      var done := Record();
      if done {
        return false;
      }
      if run.Raises? && run.stage == 1 {
        return true;
      }
      TakeAttempt();
      if run.Raises? && run.stage == 2 {
        return true;
      }
      ghost var before, id, attempt := world.tables, Failure(), Mine().phase.run;
      SaveAll(run.state);
      AddsWhateverTheIncidents(before, world.tables.(incidents := before.incidents), old(world.tables.incidents),
                               id, run.state, attempt);
      if run.Raises? {
        return true;
      }
      AnnounceIt(run.announced);
      return false;
    }

    /** Sends the record to the dead-letter topic. A failed write leaves the offset where it is. */
    method ParkRecord(accepted: bool) returns (commit: bool)
      requires Valid() && Mine().phase.Parking?
      modifies this`world, this`history
      ensures Valid() && old(history) <= history
      ensures commit == accepted
      ensures world.committed == old(world.committed) && world.saves == old(world.saves)
      ensures world.tables == old(world.tables)
      ensures forall id :: Finished(world, id) == old(Finished(world, id))
      ensures var at := old(Mine().position);
        if accepted then
          Mine() == Worker(at, Done) && world.parked == old(world.parked) + {(partition, at)}
          && world.refused == old(world.refused)
        else
          Mine() == Worker(at + 1, Ready) && world.parked == old(world.parked)
          && world.refused == old(world.refused) + {(partition, at)}
    {
      Act(Park(partition, accepted));
      return accepted;
    }

    /** A raise goes back to the handler, or to parking once the limit is reached. */
    method GiveUpOrRetry(rejected: bool)
      requires Valid() && InHandler(Mine().phase)
      modifies this`world, this`history
      ensures Valid() && old(history) <= history && SamePlaces(old(world), world, partition)
      ensures world.saves == old(world.saves) && world.tables == old(world.tables)
      ensures forall id :: Finished(world, id) == old(Finished(world, id))
      ensures var attempt := old(Mine().phase.attempt);
        Mine().phase == if rejected || attempt >= setup.maxAttempts then Parking else Handling(attempt + 1)
    {
      Act(Raise(partition, rejected));
    }

    /** Runs the handler at most `maxAttempts` times, then parks the record. */
    method HandleWithRetries(script: Script) returns (commit: bool, attempts: nat)
      requires Valid() && Mine().phase == Handling(1) && |script.runs| >= setup.maxAttempts
      modifies this`world, this`history
      ensures Valid() && old(history) <= history
      ensures world.committed == old(world.committed)
      ensures 1 <= attempts <= setup.maxAttempts
      ensures commit ==> Mine() == Worker(old(Mine().position), Done) && world.refused == old(world.refused)
      ensures !commit ==> !script.parkAccepted && Mine() == Worker(old(Mine().position) + 1, Ready)
                          && world.refused == old(world.refused) + {(partition, old(Mine().position))}
      ensures script.runs[0].Completes? ==> commit && attempts == 1 && world.parked == old(world.parked)
      ensures forall i :: 0 <= i < attempts - 1 ==> script.runs[i].Raises? && !script.runs[i].rejected
      ensures script.runs[attempts - 1].Completes? ==> commit && world.parked == old(world.parked)
      ensures Finished(world, old(Failure())) <==>
                old(Finished(world, Failure())) || exists i :: 0 <= i < attempts && GetsToSaving(script.runs[i])
      ensures world.parked != old(world.parked) || !commit ==>
                script.runs[attempts - 1].Raises?
                && (attempts == setup.maxAttempts || script.runs[attempts - 1].rejected)
    {
      hide Apply, RunActions, Adds, NextAttempt, StatusFor, GetsToSaving, Finished;
      attempts := 1;
      while true
        invariant 1 <= attempts <= setup.maxAttempts
        invariant Valid() && old(history) <= history
        invariant world.committed == old(world.committed) && world.parked == old(world.parked)
        invariant world.refused == old(world.refused)
        invariant Mine() == Worker(old(Mine().position), Handling(attempts)) && Failure() == old(Failure())
        invariant Finished(world, old(Failure())) <==>
                    old(Finished(world, Failure())) || exists i :: 0 <= i < attempts - 1 && GetsToSaving(script.runs[i])
        invariant forall i :: 0 <= i < attempts - 1 ==> script.runs[i].Raises? && !script.runs[i].rejected
        decreases setup.maxAttempts - attempts
      {
        var run := script.runs[attempts - 1];
        var raised := Handle(run);
        if !raised {
          return true, attempts;
        }
        GiveUpOrRetry(run.rejected);
        if run.rejected || attempts == setup.maxAttempts {
          commit := ParkRecord(script.parkAccepted);
          return commit, attempts;
        }
        attempts := attempts + 1;
      }
    }

    /** Processes one record and commits past it only once it is settled. */
    method Process(script: Script) returns (committed: bool)
      requires Valid() && Mine().phase.Ready? && Mine().position < |setup.log[partition]|
      requires |script.runs| >= setup.maxAttempts
      modifies this`world, this`history
      ensures Valid() && old(history) <= history
      ensures Mine() == Worker(old(Mine().position) + 1, Ready)
      ensures world.committed == if committed
                then old(world.committed)[partition := old(Mine().position) + 1] else old(world.committed)
      ensures script.parkAccepted ==> committed
      ensures committed ==> CaughtUp()
      ensures committed ==> Settled(setup, world, partition, old(Mine().position))
                            && world.refused == old(world.refused)
      ensures !committed ==> world.refused == old(world.refused) + {(partition, old(Mine().position))}
    {
      var at := Mine().position;
      Act(Deliver(partition));
      if setup.log[partition][at].Unparseable? {
        committed := ParkRecord(script.parkAccepted);
      } else {
        var attempts;
        committed, attempts := HandleWithRetries(script);
      }
      if committed {
        CommitRecord();
      }
    }

    /** Commits the offset of the next record to read. */
    method CommitRecord()
      requires Valid() && Mine().phase.Done?
      modifies this`world, this`history
      ensures Valid() && old(history) <= history
      ensures Mine() == Worker(old(Mine().position) + 1, Ready)
      ensures world.committed == old(world.committed)[partition := old(Mine().position) + 1]
      ensures world.refused == old(world.refused)
      ensures Settled(setup, world, partition, old(Mine().position))
    {
      hide RunActions;
      CommittingIsSettled(setup, history, partition);
      Act(Commit(partition));
    }

    /** Processes records until one is the last or a stop was asked for while it was processed. */
    method Consume(scripts: seq<Script>) returns (consumed: nat, skipped: nat)
      requires Valid() && Mine().phase.Ready?
      requires Mine().position + |scripts| <= |setup.log[partition]|
      requires forall i :: 0 <= i < |scripts| ==> |scripts[i].runs| >= setup.maxAttempts
      modifies this`world, this`history, this`stopping
      ensures Valid() && Mine() == Worker(old(Mine().position) + consumed, Ready)
      ensures consumed <= |scripts|
      ensures RanOn(scripts, consumed, old(stopping))
      ensures stopping == (old(stopping) || (consumed > 0 && scripts[consumed - 1].stopRequested))
      ensures consumed < |scripts| ==> consumed > 0 && stopping
      ensures (forall i :: 0 <= i < |scripts| ==> scripts[i].parkAccepted) ==> skipped == 0
      ensures skipped == 0 && consumed > 0 ==> CaughtUp()
      ensures skipped == 0 ==> world.refused == old(world.refused)
    {
      hide Apply, RunActions, Settled, Shaped, CaughtUp;
      consumed, skipped := 0, 0;
      while consumed < |scripts|
        invariant consumed <= |scripts| && stopping == old(stopping) && (stopping ==> consumed == 0)
        invariant forall i :: 0 <= i < consumed ==> !scripts[i].stopRequested
        invariant Valid() && Mine() == Worker(old(Mine().position) + consumed, Ready)
        invariant (forall i :: 0 <= i < |scripts| ==> scripts[i].parkAccepted) ==> skipped == 0
        invariant skipped == 0 && consumed > 0 ==> CaughtUp()
        invariant skipped == 0 ==> world.refused == old(world.refused)
      {
        var committed := Process(scripts[consumed]);
        if scripts[consumed].stopRequested {
          RequestStop();
        }
        consumed := consumed + 1;
        if !committed {
          skipped := skipped + 1;
        }
        if stopping {
          break;
        }
      }
    }

    /** Consumes the records that arrive until asked to stop, which takes effect between records.
        `skipped` counts the records whose dead-letter write failed. A consumer that was not started
        raises and does nothing. */
    method Run(scripts: seq<Script>) returns (raised: bool, consumed: nat, skipped: nat)
      requires Valid() && Mine().phase.Ready?
      requires Mine().position + |scripts| <= |setup.log[partition]|
      requires forall i :: 0 <= i < |scripts| ==> |scripts[i].runs| >= setup.maxAttempts
      modifies this`world, this`history, this`stopping
      ensures Valid() && Mine() == Worker(old(Mine().position) + consumed, Ready)
      ensures raised == !started && (raised ==> consumed == 0 && world == old(world))
      ensures consumed <= |scripts|
      ensures RanOn(scripts, consumed, old(stopping))
      ensures stopping == (old(stopping) || (consumed > 0 && scripts[consumed - 1].stopRequested))
      ensures !raised && consumed < |scripts| ==> consumed > 0 && stopping
      ensures (forall i :: 0 <= i < |scripts| ==> scripts[i].parkAccepted) ==> skipped == 0
      ensures skipped == 0 && consumed > 0 ==> CaughtUp()
      ensures skipped == 0 ==> world.refused == old(world.refused)
    {
      hide Apply, RunActions, Settled;
      raised, consumed, skipped := !started, 0, 0;
      if started {
        consumed, skipped := Consume(scripts);
      }
    }
  }
}
