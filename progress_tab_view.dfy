/** The tab view as an object: the tab list and increment amount are fixed
    at construction, the selection, the progress and the timer subscription
    are updated in place by the operations. */
module ProgressTabs {
  import opened Options
  import opened TabContent
  import opened CollectionIndex
  import TabMachine
  import ViewEvents

  class ProgressTabView<Id(==)> {
    const tabs: seq<Tab<Id>>
    const incrementAmount: real
    var selectedTabID: Option<Id>
    var currentProgress: real
    /** Stands for the timer publisher and its cancellable being present. */
    var timerRunning: bool

    /** The mutable part of the object as a value. */
    function State(): TabMachine.Snapshot<Id>
      reads this
    {
      TabMachine.Snapshot(selectedTabID, currentProgress, timerRunning)
    }

    /** The increment defaults to 0.01 seconds, 100 ticks per second. */
    constructor (tabs: seq<Tab<Id>>, incrementAmount: real := 0.01)
      ensures this.tabs == tabs && this.incrementAmount == incrementAmount
      ensures State() == TabMachine.Initial(tabs)
      ensures |tabs| > 0 ==> selectedTabID == Some(tabs[0].id)
      ensures |tabs| == 0 ==> selectedTabID.None?
      ensures currentProgress == 0.0 && !timerRunning
    {
      this.tabs := tabs;
      this.incrementAmount := incrementAmount;
      if |tabs| > 0 {
        selectedTabID := Some(tabs[0].id);
      } else {
        selectedTabID := None;
      }
      currentProgress := 0.0;
      timerRunning := false;
    }

    method ResetProgress()
      modifies this
      ensures State() == TabMachine.ResetProgress(old(State()))
      ensures currentProgress == 0.0 && selectedTabID == old(selectedTabID) && timerRunning == old(timerRunning)
    {
      currentProgress := 0.0;
    }

    /** `progress(for:)`: the filling of `tab`'s progress bar. */
    function Progress(tab: Tab<Id>): real
      reads this
    {
      TabMachine.ProgressFor(tabs, State(), tab)
    }

    method StartTimer()
      modifies this
      ensures State() == TabMachine.StartTimer(old(State()))
      ensures timerRunning && selectedTabID == old(selectedTabID) && currentProgress == old(currentProgress)
    {
      if timerRunning {
        return;
      }
      timerRunning := true;
    }

    method EndTimer()
      modifies this
      ensures State() == TabMachine.EndTimer(old(State()))
      ensures !timerRunning && selectedTabID == old(selectedTabID) && currentProgress == old(currentProgress)
    {
      timerRunning := false;
    }

    method IncrementProgress()
      modifies this
      ensures State() == TabMachine.IncrementProgress(tabs, incrementAmount, old(State()))
    {
      var tabIndex := IndexOf(tabs, selectedTabID);
      if tabIndex.None? {
        return;
      }
      var tab := tabs[tabIndex.value];
      if currentProgress < tab.totalTime {
        currentProgress := currentProgress + incrementAmount;
      } else {
        IncrementTab();
      }
    }

    /** One delivery from the timer subscription; nothing is delivered once
        the subscription is cancelled. */
    method Tick()
      modifies this
      ensures State() == TabMachine.Tick(tabs, incrementAmount, old(State()))
    {
      if timerRunning {
        IncrementProgress();
      }
    }

    method OnPressingChanged(isPressed: bool)
      modifies this
      ensures State() == TabMachine.OnPressingChanged(old(State()), isPressed)
      ensures timerRunning == !isPressed
      ensures selectedTabID == old(selectedTabID) && currentProgress == old(currentProgress)
    {
      if isPressed {
        EndTimer();
      } else {
        StartTimer();
      }
    }

    method IncrementTab()
      modifies this
      ensures State() == TabMachine.IncrementTab(tabs, old(State()))
      ensures timerRunning == old(timerRunning)
    {
      var selectedIndex := IndexOf(tabs, selectedTabID);
      if selectedIndex.None? {
        selectedTabID := FirstId(tabs);
        return;
      }
      if selectedIndex.value < |tabs| - 1 {
        selectedTabID := Some(tabs[selectedIndex.value + 1].id);
      } else {
        selectedTabID := Some(tabs[0].id);
      }
      ResetProgress();
    }

    method DecrementTab()
      modifies this
      ensures State() == TabMachine.DecrementTab(tabs, old(State()))
      ensures timerRunning == old(timerRunning)
    {
      var selectedIndex := IndexOf(tabs, selectedTabID);
      if selectedIndex.None? {
        selectedTabID := FirstId(tabs);
        return;
      }
      if selectedIndex.value > 0 {
        selectedTabID := Some(tabs[selectedIndex.value - 1].id);
      }
      ResetProgress();
    }

    /** The view's reaction to one event, including the change observer
        that resets the progress when the selection changed. */
    method Handle(e: ViewEvents.Event)
      modifies this
      ensures State() == ViewEvents.Dispatch(tabs, incrementAmount, old(State()), e)
      ensures selectedTabID != old(selectedTabID) ==> currentProgress == 0.0
    {
      var before := selectedTabID;
      match e {
        case Appear => StartTimer();
        case Disappear => EndTimer();
        case TapLeading => DecrementTab();
        case TapTrailing => IncrementTab();
        case LongPress => EndTimer();
        case PressingChanged(isPressed) => OnPressingChanged(isPressed);
        case TimerFired => Tick();
        case ScrolledTo(k) =>
          if k < |tabs| {
            selectedTabID := Some(tabs[k].id);
          }
      }
      if selectedTabID != before {
        ResetProgress();
      }
    }
  }

  /** A client: after any sequence of handled events, a view built with at
      least one tab, a positive increment and positive total times still
      has a resolvable selection and a bounded progress. */
  method Drive<Id(==)>(tabs: seq<Tab<Id>>, incrementAmount: real, events: seq<ViewEvents.Event>)
    returns (selected: nat, progress: real)
    requires TabMachine.WellFormed(tabs, incrementAmount)
    ensures selected < |tabs| && 0.0 <= progress < tabs[selected].totalTime + incrementAmount
  {
    var view := new ProgressTabView(tabs, incrementAmount);
    TabMachine.InitialEstablishesInv(tabs, incrementAmount);
    var i := 0;
    while i < |events|
      invariant 0 <= i <= |events|
      invariant view.tabs == tabs && view.incrementAmount == incrementAmount
      invariant TabMachine.Inv(tabs, incrementAmount, view.State())
    {
      ViewEvents.DispatchPreservesInv(tabs, incrementAmount, view.State(), events[i]);
      view.Handle(events[i]);
      i := i + 1;
    }
    selected := IndexOf(tabs, view.selectedTabID).value;
    progress := view.currentProgress;
  }
}
