/** The polling logic of app/components/RecentLiquidations.tsx. It is the
    hook's loop with one difference: the current items are a dependency of
    the effect, so every accepted update re-runs the effect, and each run
    compares against the items it started with, which are then the current
    ones. */
module RecentLiquidations {
  import opened Optional
  import opened Records
  import opened Polling

  class RecentLiquidationsPanel {
    var items: seq<Liquidation>
    var isFetching: bool
    var run: nat
    var mounted: bool
    var baseline: seq<Liquidation>
    var inFlight: Option<nat>
    /** `setItems` has replaced the items and React has yet to re-run the
        effect. */
    var restartPending: bool

    /** Besides the flag discipline: whenever no re-run is pending, the
        running run's baseline is the current items. */
    ghost predicate Valid()
      reads this
    {
      && (isFetching <==> inFlight.Some?)
      && (inFlight.Some? ==> inFlight.value <= run)
      && (mounted && !restartPending ==> baseline == items)
    }

    predicate Aborted(r: nat)
      reads this
    {
      r != run || !mounted
    }

    /** Mounting: the items start as the server-rendered ones and the first
        run polls at once. */
    constructor(initialItems: seq<Liquidation>)
      ensures Valid()
      ensures items == initialItems && baseline == initialItems
      ensures mounted && run == 0 && !restartPending
      ensures isFetching && inFlight == Some(0)
    {
      items := initialItems;
      baseline := initialItems;
      mounted := true;
      run := 0;
      restartPending := false;
      isFetching := true;
      inFlight := Some(0);
    }

    /** The interval fires `poll`: dropped while a fetch is outstanding. */
    method Tick() returns (issued: bool)
      requires Valid() && mounted
      modifies this
      ensures Valid() && isFetching
      ensures issued <==> !old(isFetching)
      ensures inFlight == (if issued then Some(run) else old(inFlight))
      ensures items == old(items) && baseline == old(baseline) && restartPending == old(restartPending)
      ensures run == old(run) && mounted == old(mounted)
    {
      if isFetching {
        return false;
      }
      isFetching := true;
      inFlight := Some(run);
      return true;
    }

    /** The outstanding fetch ends; the flag is cleared on every path. An ok
        response to a live run whose rows changed against the run's items
        replaces the items and makes React re-run the effect. */
    method Complete(outcome: FetchOutcome) returns (updated: bool)
      requires Valid() && inFlight.Some?
      modifies this
      ensures Valid() && !isFetching && inFlight.None?
      ensures updated <==> outcome.Ok? && !old(Aborted(inFlight.value)) && HasChange(Rows(outcome.payload), baseline)
      ensures items == (if updated then Rows(outcome.payload) else old(items))
      ensures restartPending == (old(restartPending) || updated)
      ensures baseline == old(baseline) && run == old(run) && mounted == old(mounted)
    {
      var issuer := inFlight.value;
      updated := false;
      if outcome.Ok? {
        var latest := Rows(outcome.payload);
        if !Aborted(issuer) && HasChange(latest, baseline) {
          items := latest;
          updated := true;
          restartPending := true;
        }
      }
      isFetching := false;
      inFlight := None;
    }

    /** React re-runs the effect because a dependency changed (the items, or
        `limit`/`pollMs`): the running run is aborted and its interval
        cleared, and a new run starts on the current items and polls at once. */
    method CommitEffects() returns (issued: bool)
      requires Valid() && mounted
      modifies this
      ensures Valid() && mounted && !restartPending && run == old(run) + 1
      ensures items == old(items) && baseline == items
      ensures old(inFlight).Some? ==> Aborted(old(inFlight).value)
      ensures issued <==> !old(isFetching)
      ensures inFlight == (if issued then Some(run) else old(inFlight))
    {
      run := run + 1;
      baseline := items;
      restartPending := false;
      issued := Tick();
    }

    /** Unmounting tears the running run down. */
    method Unmount()
      requires Valid()
      modifies this
      ensures Valid() && !mounted
      ensures items == old(items) && baseline == old(baseline) && run == old(run)
      ensures isFetching == old(isFetching) && inFlight == old(inFlight)
      ensures restartPending == old(restartPending)
    {
      mounted := false;
    }
  }

  /** Unlike the hook, the panel settles: after taking a change and re-running
      its effect, the same rows are no longer a change. */
  method PanelSettles(initialItems: seq<Liquidation>, latest: seq<Liquidation>)
    returns (first: bool, issued: bool, second: bool, current: seq<Liquidation>)
    requires HasChange(latest, initialItems)
    ensures first && issued && !second && current == latest
  {
    var panel := new RecentLiquidationsPanel(initialItems);
    first := panel.Complete(Ok(Data(Some(latest))));
    issued := panel.CommitEffects();
    NoChangeAgainstItself(latest);
    second := panel.Complete(Ok(Data(Some(latest))));
    current := panel.items;
  }

  /** A fetch issued by a run that an update has since replaced is ignored,
      whatever it brings. */
  method ReplacedRunIgnored(initialItems: seq<Liquidation>, latest: seq<Liquidation>, other: seq<Liquidation>)
    returns (first: bool, second: bool, current: seq<Liquidation>)
    requires HasChange(latest, initialItems)
    ensures first && !second && current == latest
  {
    var panel := new RecentLiquidationsPanel(initialItems);
    first := panel.Complete(Ok(Data(Some(latest))));
    var ticked := panel.Tick();
    var issued := panel.CommitEffects();
    second := panel.Complete(Ok(Data(Some(other))));
    current := panel.items;
  }
}
