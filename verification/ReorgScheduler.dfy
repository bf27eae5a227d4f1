/** The loop that batches requests to reorganise the transaction pool and runs
    them one at a time (core/tx_pool.go, scheduleReorgLoop and runReorg). Each case
    of its select is a method; runs finish on their own in between.
 */
module ReorgSchedulers {
  import opened Options
  import opened Transactions

  type Head = nat     // a chain head
  type Ticket = nat   // a done channel; requesters wait for it to be closed

  datatype Reset = Reset(oldHead: Head, newHead: Head)

  /** Everything requested under one ticket, in order. */
  datatype Batch = Batch(resets: seq<Reset>, promotes: seq<set<Address>>, events: seq<Tx>)

  /** The arguments a runReorg was started with. */
  datatype Run = Run(reset: Option<Reset>, dirty: Option<set<Address>>, events: seq<Tx>)

  const NO_REQUESTS := Batch([], [], [])

  function Union(sets: seq<set<Address>>): set<Address> {
    if sets == [] then {} else Union(sets[..|sets| - 1]) + sets[|sets| - 1]
  }

  /** The run that stands for all requests of a batch: one reset from the first old
      head to the latest new head, all accounts, all events. */
  function Merged(batch: Batch): Run {
    Run(if batch.resets == [] then None
        else Some(Reset(batch.resets[0].oldHead, batch.resets[|batch.resets| - 1].newHead)),
        if batch.promotes == [] then None else Some(Union(batch.promotes)),
        batch.events)
  }

  function WithReset(batch: Batch, req: Reset): Batch { batch.(resets := batch.resets + [req]) }

  function WithPromote(batch: Batch, accounts: set<Address>): Batch { batch.(promotes := batch.promotes + [accounts]) }

  function WithEvent(batch: Batch, tx: Tx): Batch { batch.(events := batch.events + [tx]) }

  /** The accounts runReorg promotes: on a reset every queued one, else the dirty ones. */
  function PromoteAddrs(run: Run, queued: set<Address>): set<Address> {
    if run.reset.Some? then queued else if run.dirty.Some? then run.dirty.value else {}
  }

  lemma UnionGrows(sets: seq<set<Address>>, more: set<Address>)
    ensures Union(sets + [more]) == Union(sets) + more
  {
    assert (sets + [more])[..|sets|] == sets;
  }

  lemma {:induction false} InUnion(sets: seq<set<Address>>, i: nat)
    requires i < |sets|
    ensures sets[i] <= Union(sets)
  {
    if i < |sets| - 1 {
      InUnion(sets[..|sets| - 1], i);
    }
  }

  /** Whoever asked for a promotion gets it: each requested account with queued
      transactions is promoted by the run for the batch. */
  lemma PromotesRequested(batch: Batch, i: nat, a: Address, queued: set<Address>)
    requires i < |batch.promotes| && a in batch.promotes[i] && a in queued
    ensures a in PromoteAddrs(Merged(batch), queued)
  {
    InUnion(batch.promotes, i);
  }

  /** Every started run was started with the merge of its ticket's requests. */
  ghost predicate AllMerged(runs: seq<Run>, batches: seq<Batch>) {
    |runs| <= |batches| && forall t :: 0 <= t < |runs| ==> runs[t] == Merged(batches[t])
  }

  lemma RunsMerged(runs: seq<Run>, batches: seq<Batch>, next: Run)
    requires AllMerged(runs, batches) && |batches| == |runs| + 1 && next == Merged(batches[|runs|])
    ensures AllMerged(runs + [next], batches + [NO_REQUESTS])
    ensures runs <= runs + [next] && batches[..|runs|] <= batches + [NO_REQUESTS]
  {
  }

  lemma NothingMerged()
    ensures Merged(NO_REQUESTS) == Run(None, None, [])
  {
  }

  class ReorgScheduler {
    var curDone: Option<Ticket>   // set while a run is active or its end unobserved
    var nextDone: Ticket
    var launchNextRun: bool
    var reset: Option<Reset>
    var dirty: Option<set<Address>>
    var queuedEvents: seq<Tx>
    var stopped: bool
    var active: set<Ticket>       // the runReorg goroutines in progress, by ticket
    var closed: set<Ticket>       // tickets whose waiters were released

    // History.
    ghost var batches: seq<Batch>           // what was requested under each ticket
    ghost var runs: seq<Run>                // the run started for each ticket

    ghost function Pending(): Run
      reads this
    {
      Run(reset, dirty, queuedEvents)
    }

    ghost predicate Valid()
      reads this
    {
      && |runs| == nextDone && |batches| == nextDone + 1
      && AllMerged(runs, batches)
      && Pending() == Merged(batches[nextDone])
      && launchNextRun == (batches[nextDone].resets != [] || batches[nextDone].promotes != [])
      && (curDone.Some? ==> curDone.value + 1 == nextDone)
      && (forall t :: t in active ==> curDone == Some(t) && !stopped)   // at most one at a time
      && (forall t: Ticket :: t < nextDone ==> (t in closed <==> t !in active))
      && (forall t: Ticket :: t in closed && t >= nextDone ==> stopped)
    }

    /** What a step may not touch: tickets already handed to a run keep their requests
        and their run, so nothing is ever asked of a run after its start. */
    twostate predicate Settled()
      reads this
    {
      && old(runs) <= runs && old(closed) <= closed
      && old(nextDone) < |old(batches)| && old(batches)[..old(nextDone)] <= batches
    }

    constructor ()
      ensures Valid() && nextDone == 0 && active == {} && closed == {} && !stopped
    {
      curDone, nextDone, launchNextRun := None, 0, false;
      reset, dirty, queuedEvents, stopped := None, None, [], false;
      batches, runs, active, closed := [NO_REQUESTS], [], {}, {};
    }

    /** The top of the loop: starts a run if one is wanted and none is in progress. */
    method Launch()
      requires Valid() && !stopped
      modifies this
      ensures Valid() && !stopped && Settled() && closed == old(closed)
      ensures curDone.None? ==> !launchNextRun
      ensures if old(curDone.None? && launchNextRun)
              then active == {old(nextDone)} && nextDone == old(nextDone) + 1 && runs[old(nextDone)] == old(Pending())
              else
                && active == old(active) && nextDone == old(nextDone) && runs == old(runs)
                && Pending() == old(Pending())
    {
      hide AllMerged, Merged;
      NothingMerged();
      if curDone.None? && launchNextRun {
        RunsMerged(runs, batches, Pending());
        runs, active := runs + [Pending()], active + {nextDone};
        batches := batches + [NO_REQUESTS];
        curDone, nextDone := Some(nextDone), nextDone + 1;
        launchNextRun := false;
        reset, dirty, queuedEvents := None, None, [];
      }
    }

    method RequestReset(req: Reset) returns (ticket: Ticket)
      requires Valid() && !stopped
      modifies this
      ensures Valid() && !stopped && Settled() && active == old(active) && closed == old(closed)
      ensures ticket == nextDone == old(nextDone) && ticket !in closed && launchNextRun
      ensures batches == old(batches)[ticket := WithReset(old(batches[nextDone]), req)]
    {
      batches := batches[nextDone := WithReset(batches[nextDone], req)];
      if reset.None? {
        reset := Some(req);
      } else {
        reset := Some(reset.value.(newHead := req.newHead));
      }
      launchNextRun := true;
      ticket := nextDone;
    }

    method RequestPromote(accounts: set<Address>) returns (ticket: Ticket)
      requires Valid() && !stopped
      modifies this
      ensures Valid() && !stopped && Settled() && active == old(active) && closed == old(closed)
      ensures ticket == nextDone == old(nextDone) && ticket !in closed && launchNextRun
      ensures batches == old(batches)[ticket := WithPromote(old(batches[nextDone]), accounts)]
    {
      UnionGrows(batches[nextDone].promotes, accounts);
      assert {} + accounts == accounts;
      batches := batches[nextDone := WithPromote(batches[nextDone], accounts)];
      if dirty.None? {
        dirty := Some(accounts);
      } else {
        dirty := Some(dirty.value + accounts);
      }
      launchNextRun := true;
      ticket := nextDone;
    }

    method QueueEvent(tx: Tx)
      requires Valid() && !stopped
      modifies this
      ensures Valid() && !stopped && Settled() && active == old(active) && closed == old(closed)
      ensures nextDone == old(nextDone) && launchNextRun == old(launchNextRun)
      ensures batches == old(batches)[nextDone := WithEvent(old(batches[nextDone]), tx)]
    {
      batches := batches[nextDone := WithEvent(batches[nextDone], tx)];
      queuedEvents := queuedEvents + [tx];
    }

    /** A run in progress ends and closes its ticket. */
    method RunEnds(t: Ticket)
      requires Valid() && t in active
      modifies this`active, this`closed
      ensures Valid() && Settled() && active == {} && closed == old(closed) + {t}
    {
      closed, active := closed + {t}, active - {t};
    }

    /** The loop sees that the run is over. */
    method ObserveDone()
      requires Valid() && !stopped && curDone.Some? && curDone.value in closed
      modifies this`curDone
      ensures Valid() && Settled() && curDone.None? && active == {}
    {
      curDone := None;
    }

    /** Shutdown: waits for the run in progress, then releases the waiters of the
        ticket that will never run. */
    method Shutdown()
      requires Valid() && !stopped && active == {}
      modifies this`stopped, this`closed
      ensures Valid() && stopped && Settled() && closed == old(closed) + {nextDone}
    {
      stopped, closed := true, closed + {nextDone};
    }

    /** Takes whichever case of the select is ready. */
    method Select()
      requires Valid() && !stopped
      modifies this
      ensures Valid() && Settled()
    {
      hide AllMerged, Merged;
      var choice: nat := *;
      if choice == 0 {
        var req: Reset := *;
        var ticket := RequestReset(req);
      } else if choice == 1 {
        var accounts: set<Address> := *;
        var ticket := RequestPromote(accounts);
      } else if choice == 2 {
        var tx: Tx := *;
        QueueEvent(tx);
      } else if choice == 3 && curDone.Some? && curDone.value in closed {
        ObserveDone();
      } else if choice == 4 {
        if t :| t in active {
          RunEnds(t);
        }
        Shutdown();
      }
    }

    /** The loop: before every select a wanted run is started; runs end at any time. */
    method Loop(rounds: nat)
      requires Valid() && !stopped
      modifies this
      ensures Valid() && Settled()
    {
      hide AllMerged, Merged;
      var round := 0;
      while round < rounds && !stopped
        invariant Valid() && Settled()
      {
        Launch();
        var ends: bool := *;
        if t :| t in active && ends {
          RunEnds(t);
        }
        Select();
        round := round + 1;
      }
    }

    /** What a requester may rely on when its ticket closes: unless the loop was shut
        down, a run was started for the ticket and has ended. It spans the requested
        resets, and whatever accounts were asked for and have queued transactions were
        promoted. */
    lemma TicketKept(t: Ticket, queued: set<Address>)
      requires Valid() && t in closed && !stopped
      ensures t < |runs| && t !in active && runs[t] == Merged(batches[t])
      ensures batches[t].resets != [] ==>
                runs[t].reset == Some(Reset(batches[t].resets[0].oldHead,
                                            batches[t].resets[|batches[t].resets| - 1].newHead))
      ensures forall i :: 0 <= i < |batches[t].promotes| ==>
                batches[t].promotes[i] * queued <= PromoteAddrs(runs[t], queued)
    {
      var b := batches[t];
      forall i | 0 <= i < |b.promotes| ensures b.promotes[i] * queued <= PromoteAddrs(runs[t], queued) {
        forall a | a in b.promotes[i] && a in queued ensures a in PromoteAddrs(runs[t], queued) {
          PromotesRequested(b, i, a, queued);
        }
      }
    }
  }
}
