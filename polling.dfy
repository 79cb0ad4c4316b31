/** The polling logic of hooks/useLiquidationsData.ts: a snapshot of recent
    liquidations refreshed by a timer, with one fetch at a time and a
    per-run `aborted` flag. The timer, the fetch and React's scheduling are
    outside the model; each is a step the environment takes by calling a
    method: a timer tick, the completion of the outstanding fetch with its
    outcome, a restart of the effect, and unmounting. */
module Polling {
  import opened Optional
  import opened Records

  /** How an outstanding fetch ends: it threw (a network error, a body that
      is not JSON, or a JSON `null` body on which reading `data` throws), the
      response was not ok, or it was ok with this JSON. A non-array
      `GeneralizedLiquidation` does not throw here, but `Payload` cannot hold
      it; the model treats that body as `Threw` too. */
  datatype FetchOutcome = Threw | NotOk | Ok(payload: Payload)

  /** `hasChange`: the lengths differ, or the newest row has a non-empty id
      that differs from the baseline's first id (or the baseline is empty). */
  predicate HasChange(latest: seq<Liquidation>, baseline: seq<Liquidation>) {
    || |latest| != |baseline|
    || (|latest| > 0 && latest[0].id != "" && (|baseline| == 0 || latest[0].id != baseline[0].id))
  }

  /** A detected change is a real one. */
  lemma HasChangeSound(latest: seq<Liquidation>, baseline: seq<Liquidation>)
    requires HasChange(latest, baseline)
    ensures latest != baseline
  {
  }

  /** Changes further down the list go unnoticed while the length and the
      first id stay the same; so do changes under an empty first id. */
  lemma ChangeBehindSameHeadMissed(latest: seq<Liquidation>, baseline: seq<Liquidation>)
    requires |latest| == |baseline| > 0
    requires latest[0].id == baseline[0].id || latest[0].id == ""
    ensures !HasChange(latest, baseline)
  {
  }

  /** A list compared with itself has not changed. */
  lemma NoChangeAgainstItself(items: seq<Liquidation>)
    ensures !HasChange(items, items)
  {
  }

  /** The hook's state. `run` numbers the effect's runs: every restart tears
      the running one down (setting its `aborted`) and starts the next one,
      which captures the snapshot it compares against in `baseline`.
      `inFlight` is the run that issued the outstanding fetch, if any. */
  class LiquidationsHook {
    var data: seq<Liquidation>
    var isFetching: bool
    var run: nat
    var mounted: bool
    var baseline: seq<Liquidation>
    var inFlight: Option<nat>

    /** The in-flight flag is set exactly while a fetch is outstanding, and
        that fetch was issued by the current run or an earlier one. */
    ghost predicate Valid()
      reads this
    {
      && (isFetching <==> inFlight.Some?)
      && (inFlight.Some? ==> inFlight.value <= run)
    }

    /** The `aborted` flag of run `r`. */
    predicate Aborted(r: nat)
      reads this
    {
      r != run || !mounted
    }

    /** Mounting: the snapshot starts as the server-rendered items, the first
        run starts with them as its baseline, and polls at once. */
    constructor(initialItems: seq<Liquidation>)
      ensures Valid()
      ensures data == initialItems && baseline == initialItems
      ensures mounted && run == 0
      ensures isFetching && inFlight == Some(0)
    {
      data := initialItems;
      baseline := initialItems;
      mounted := true;
      run := 0;
      isFetching := true;
      inFlight := Some(0);
    }

    /** The interval fires `poll` of the current run. While a fetch is
        outstanding it does nothing; otherwise it sets the flag and issues a
        fetch. */
    method Tick() returns (issued: bool)
      requires Valid() && mounted
      modifies this
      ensures Valid() && isFetching
      ensures issued <==> !old(isFetching)
      ensures inFlight == (if issued then Some(run) else old(inFlight))
      ensures data == old(data) && baseline == old(baseline)
      ensures run == old(run) && mounted == old(mounted)
    {
      if isFetching {
        return false;
      }
      isFetching := true;
      inFlight := Some(run);
      return true;
    }

    /** The outstanding fetch ends. Whatever the outcome the flag is cleared;
        the snapshot is replaced only by an ok response to a run that is not
        aborted whose rows have changed against that run's baseline. */
    method Complete(outcome: FetchOutcome) returns (updated: bool)
      requires Valid() && inFlight.Some?
      modifies this
      ensures Valid() && !isFetching && inFlight.None?
      ensures updated <==> outcome.Ok? && !old(Aborted(inFlight.value)) && HasChange(Rows(outcome.payload), baseline)
      ensures data == (if updated then Rows(outcome.payload) else old(data))
      ensures baseline == old(baseline) && run == old(run) && mounted == old(mounted)
    {
      var issuer := inFlight.value;
      updated := false;
      if outcome.Ok? {
        var latest := Rows(outcome.payload);
        if !Aborted(issuer) && HasChange(latest, baseline) {
          data := latest;
          updated := true;
        }
      }
      isFetching := false;
      inFlight := None;
    }

    /** `limit`, `pollMs` or `query` changed: the running run is torn down and
        a new one starts with the current snapshot as its baseline and polls
        at once, which is dropped if the old run's fetch is still out. */
    method Restart() returns (issued: bool)
      requires Valid() && mounted
      modifies this
      ensures Valid() && mounted && run == old(run) + 1
      ensures data == old(data) && baseline == old(data)
      ensures old(inFlight).Some? ==> Aborted(old(inFlight).value)
      ensures issued <==> !old(isFetching)
      ensures inFlight == (if issued then Some(run) else old(inFlight))
    {
      run := run + 1;
      baseline := data;
      issued := Tick();
    }

    /** Unmounting tears the running run down. */
    method Unmount()
      requires Valid()
      modifies this
      ensures Valid() && !mounted
      ensures data == old(data) && baseline == old(baseline) && run == old(run)
      ensures isFetching == old(isFetching) && inFlight == old(inFlight)
    {
      mounted := false;
    }
  }

  /** The baseline is not the snapshot: it stays what the run captured, so a
      change the hook has already taken is taken again at every poll. */
  method StaleBaselineReapplies(initialItems: seq<Liquidation>, latest: seq<Liquidation>)
    returns (first: bool, second: bool, current: seq<Liquidation>)
    requires HasChange(latest, initialItems)
    ensures first && second && current == latest
  {
    var hook := new LiquidationsHook(initialItems);
    first := hook.Complete(Ok(Data(Some(latest))));
    var issued := hook.Tick();
    second := hook.Complete(Ok(Data(Some(latest))));
    current := hook.data;
  }

  /** A result that arrives after unmounting changes nothing. */
  method LateResultDropped(initialItems: seq<Liquidation>, latest: seq<Liquidation>)
    returns (updated: bool, current: seq<Liquidation>)
    ensures !updated && current == initialItems
  {
    var hook := new LiquidationsHook(initialItems);
    hook.Unmount();
    updated := hook.Complete(Ok(Data(Some(latest))));
    current := hook.data;
  }

  /** A restart while the first fetch is out: the new run's immediate poll is
      dropped, and the old fetch's result, however different, is ignored. */
  method RestartDuringFetch(initialItems: seq<Liquidation>, latest: seq<Liquidation>)
    returns (issued: bool, updated: bool, current: seq<Liquidation>)
    ensures !issued && !updated && current == initialItems
  {
    var hook := new LiquidationsHook(initialItems);
    issued := hook.Restart();
    updated := hook.Complete(Ok(Data(Some(latest))));
    current := hook.data;
  }

  /** Failures leave the snapshot alone and free the flag for the next tick. */
  method FailureThenRetry(initialItems: seq<Liquidation>, failure: FetchOutcome)
    returns (updated: bool, retried: bool, current: seq<Liquidation>)
    requires !failure.Ok?
    ensures !updated && retried && current == initialItems
  {
    var hook := new LiquidationsHook(initialItems);
    updated := hook.Complete(failure);
    retried := hook.Tick();
    current := hook.data;
  }
}
