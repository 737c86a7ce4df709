/** The view layer's wiring of user and lifecycle events to the state
    machine. Each event calls one operation; afterwards the view's change
    observer on the selected identity resets the progress whenever the
    selection actually changed. */
module ViewEvents {
  import opened Options
  import opened TabContent
  import opened CollectionIndex
  import opened TabMachine

  datatype Event =
    | Appear                          // the view appears
    | Disappear                       // the view disappears
    | TapLeading                      // a tap on the leading half of a tab
    | TapTrailing                     // a tap on the trailing half of a tab
    | LongPress                       // a completed long press
    | PressingChanged(isPressed: bool) // a press begins or ends
    | TimerFired                      // one firing of the repeating timer
    | ScrolledTo(index: nat)          // the scroll position settles on a tab

  /** The operation the view calls for an event. */
  function Handler<Id(==)>(tabs: seq<Tab<Id>>, incrementAmount: real, s: Snapshot<Id>, e: Event): Snapshot<Id>
  {
    match e
    case Appear => StartTimer(s)
    case Disappear => EndTimer(s)
    case TapLeading => DecrementTab(tabs, s)
    case TapTrailing => IncrementTab(tabs, s)
    case LongPress => EndTimer(s)
    case PressingChanged(isPressed) => OnPressingChanged(s, isPressed)
    case TimerFired => Tick(tabs, incrementAmount, s)
    case ScrolledTo(k) => if k < |tabs| then s.(selected := Some(tabs[k].id)) else s
  }

  /** An event followed by the change observer on the selection. */
  function Dispatch<Id(==)>(tabs: seq<Tab<Id>>, incrementAmount: real, s: Snapshot<Id>, e: Event): Snapshot<Id>
  {
    var t := Handler(tabs, incrementAmount, s, e);
    if t.selected != s.selected then ResetProgress(t) else t
  }

  /** A sequence of events, in order. */
  function Run<Id(==)>(tabs: seq<Tab<Id>>, incrementAmount: real, s: Snapshot<Id>, events: seq<Event>): Snapshot<Id>
    decreases |events|
  {
    if |events| == 0 then s else Run(tabs, incrementAmount, Dispatch(tabs, incrementAmount, s, events[0]), events[1..])
  }

  /** Every actual change of the selection, whatever caused it, restarts the
      progress. */
  lemma ChangeResetsProgress<Id>(tabs: seq<Tab<Id>>, incrementAmount: real, s: Snapshot<Id>, e: Event)
    ensures Dispatch(tabs, incrementAmount, s, e).selected != s.selected ==>
      Dispatch(tabs, incrementAmount, s, e).progress == 0.0
  {
  }

  /** The observer fires only on an actual change: settling on the tab that
      is already selected keeps its progress. */
  lemma ScrollToSelectedKeepsProgress<Id>(tabs: seq<Tab<Id>>, incrementAmount: real, s: Snapshot<Id>, k: nat)
    requires k < |tabs| && s.selected == Some(tabs[k].id)
    ensures Dispatch(tabs, incrementAmount, s, ScrolledTo(k)) == s
  {
  }

  /** The view wiring closes the gap left by the navigation guards: with
      an unresolvable selection and at least one tab, a tap selects the
      first tab and the change observer restarts the progress, although
      the operation itself returned before its reset. */
  lemma TapFromUnresolved<Id>(tabs: seq<Tab<Id>>, incrementAmount: real, s: Snapshot<Id>, e: Event)
    requires |tabs| > 0 && IndexOf(tabs, s.selected).None?
    requires e == TapLeading || e == TapTrailing
    ensures Dispatch(tabs, incrementAmount, s, e).selected == Some(tabs[0].id)
    ensures Dispatch(tabs, incrementAmount, s, e).progress == 0.0
    ensures Dispatch(tabs, incrementAmount, s, e).running == s.running
  {
    assert s.selected != Some(tabs[0].id) by {
      assert tabs[0].id == tabs[0].id;
    }
  }

  /** The timer drives progress only while it is subscribed; taps and
      scrolling never touch the timer. */
  lemma TimerFlagRespected<Id>(tabs: seq<Tab<Id>>, incrementAmount: real, s: Snapshot<Id>, e: Event)
    ensures e == TimerFired && !s.running ==> Dispatch(tabs, incrementAmount, s, e) == s
    ensures (e.TapLeading? || e.TapTrailing? || e.ScrolledTo? || e == TimerFired) ==>
      Dispatch(tabs, incrementAmount, s, e).running == s.running
    ensures (e == Disappear || e == LongPress || e == PressingChanged(true)) ==>
      !Dispatch(tabs, incrementAmount, s, e).running
    ensures (e == Appear || e == PressingChanged(false)) ==>
      Dispatch(tabs, incrementAmount, s, e).running
  {
  }

  /** Press and release keep the selection and the progress: pausing loses
      and gains no time. */
  lemma PressReleaseKeepsProgress<Id>(tabs: seq<Tab<Id>>, incrementAmount: real, s: Snapshot<Id>)
    ensures Run(tabs, incrementAmount, s, [PressingChanged(true), TimerFired, PressingChanged(false)])
      == s.(running := true)
  {
    var paused := Dispatch(tabs, incrementAmount, s, PressingChanged(true));
    assert paused == s.(running := false);
    assert Dispatch(tabs, incrementAmount, paused, TimerFired) == paused;
    assert [PressingChanged(true), TimerFired, PressingChanged(false)][1..] == [TimerFired, PressingChanged(false)];
    assert [TimerFired, PressingChanged(false)][1..] == [PressingChanged(false)];
  }

  lemma DispatchPreservesInv<Id>(tabs: seq<Tab<Id>>, incrementAmount: real, s: Snapshot<Id>, e: Event)
    requires WellFormed(tabs, incrementAmount) && Inv(tabs, incrementAmount, s)
    ensures Inv(tabs, incrementAmount, Dispatch(tabs, incrementAmount, s, e))
  {
    match e
    case TapLeading => DecrementTabPreservesInv(tabs, incrementAmount, s);
    case TapTrailing => IncrementTabPreservesInv(tabs, incrementAmount, s);
    case TimerFired =>
      if s.running {
        IncrementProgressPreservesInv(tabs, incrementAmount, s);
      }
    case ScrolledTo(k) =>
      if k < |tabs| {
        IndexOfMember(tabs, k);
      }
    case _ =>
  }

  /** From construction, with at least one tab, a positive increment and
      positive total times, any sequence of events keeps the selection
      resolvable and the progress in `[0, totalTime + incrementAmount)`. */
  lemma {:induction false} RunPreservesInv<Id>(tabs: seq<Tab<Id>>, incrementAmount: real, s: Snapshot<Id>, events: seq<Event>)
    requires WellFormed(tabs, incrementAmount) && Inv(tabs, incrementAmount, s)
    ensures Inv(tabs, incrementAmount, Run(tabs, incrementAmount, s, events))
    decreases |events|
  {
    if |events| > 0 {
      DispatchPreservesInv(tabs, incrementAmount, s, events[0]);
      RunPreservesInv(tabs, incrementAmount, Dispatch(tabs, incrementAmount, s, events[0]), events[1..]);
    }
  }

  lemma ReachableInv<Id>(tabs: seq<Tab<Id>>, incrementAmount: real, events: seq<Event>)
    requires WellFormed(tabs, incrementAmount)
    ensures Inv(tabs, incrementAmount, Run(tabs, incrementAmount, Initial(tabs), events))
  {
    InitialEstablishesInv(tabs, incrementAmount);
    RunPreservesInv(tabs, incrementAmount, Initial(tabs), events);
  }
}
