/** The progress/advance state machine of the tab view, as functions on a
    snapshot of its mutable state. The tab list and the increment amount
    never change after construction, so they are parameters; the three
    mutable parts (selected identity, progress of the selected tab, and
    whether the repeating timer is subscribed) form the snapshot. */
module TabMachine {
  import opened Options
  import opened TabContent
  import opened CollectionIndex

  datatype Snapshot<Id> = Snapshot(selected: Option<Id>, progress: real, running: bool)

  /** The state right after construction: the first tab selected (none
      without tabs), no progress and no timer. */
  function Initial<Id>(tabs: seq<Tab<Id>>): Snapshot<Id>
  {
    Snapshot(FirstId(tabs), 0.0, false)
  }

  /** `resetProgress`. */
  function ResetProgress<Id>(s: Snapshot<Id>): Snapshot<Id>
  {
    s.(progress := 0.0)
  }

  /** `progress(for:)`: how far the progress bar of `tab` is filled. */
  function ProgressFor<Id(==)>(tabs: seq<Tab<Id>>, s: Snapshot<Id>, tab: Tab<Id>): real
  {
    match IndexOf(tabs, s.selected)
    case None => 0.0
    case Some(selectedIndex) =>
      match IndexOf(tabs, Some(tab.id))
      case None => 0.0
      case Some(tabIndex) =>
        if Some(tab.id) == s.selected then s.progress
        else if tabIndex < selectedIndex then tab.totalTime
        else 0.0
  }

  /** `startTimer`: subscribes unless a subscription already exists. */
  function StartTimer<Id>(s: Snapshot<Id>): Snapshot<Id>
  {
    if s.running then s else s.(running := true)
  }

  /** `endTimer`: cancels and clears any subscription. */
  function EndTimer<Id>(s: Snapshot<Id>): Snapshot<Id>
  {
    s.(running := false)
  }

  /** `onPressingChanged`: a press pauses, a release resumes. */
  function OnPressingChanged<Id>(s: Snapshot<Id>, isPressed: bool): Snapshot<Id>
  {
    if isPressed then EndTimer(s) else StartTimer(s)
  }

  /** `incrementTab`: the next tab, wrapping from the last to the first;
      without a resolvable selection, the first tab (no reset). */
  function IncrementTab<Id(==)>(tabs: seq<Tab<Id>>, s: Snapshot<Id>): Snapshot<Id>
  {
    match IndexOf(tabs, s.selected)
    case None => s.(selected := FirstId(tabs))
    case Some(selectedIndex) =>
      var next := if selectedIndex < |tabs| - 1 then tabs[selectedIndex + 1].id else tabs[0].id;
      ResetProgress(s.(selected := Some(next)))
  }

  /** `decrementTab`: the previous tab, staying on the first one; without a
      resolvable selection, the first tab (no reset). */
  function DecrementTab<Id(==)>(tabs: seq<Tab<Id>>, s: Snapshot<Id>): Snapshot<Id>
  {
    match IndexOf(tabs, s.selected)
    case None => s.(selected := FirstId(tabs))
    case Some(selectedIndex) =>
      var t := if selectedIndex > 0 then s.(selected := Some(tabs[selectedIndex - 1].id)) else s;
      ResetProgress(t)
  }

  /** `incrementProgress`: one step of elapsed time on the selected tab, or
      an advance once its total time is reached. */
  function IncrementProgress<Id(==)>(tabs: seq<Tab<Id>>, incrementAmount: real, s: Snapshot<Id>): Snapshot<Id>
  {
    match IndexOf(tabs, s.selected)
    case None => s
    case Some(tabIndex) =>
      if s.progress < tabs[tabIndex].totalTime then s.(progress := s.progress + incrementAmount)
      else IncrementTab(tabs, s)
  }

  /** One firing of the repeating timer: it only fires while subscribed. */
  function Tick<Id(==)>(tabs: seq<Tab<Id>>, incrementAmount: real, s: Snapshot<Id>): Snapshot<Id>
  {
    if s.running then IncrementProgress(tabs, incrementAmount, s) else s
  }

  /** `n` consecutive timer firings. */
  function Ticks<Id(==)>(tabs: seq<Tab<Id>>, incrementAmount: real, s: Snapshot<Id>, n: nat): Snapshot<Id>
    decreases n
  {
    if n == 0 then s else Ticks(tabs, incrementAmount, Tick(tabs, incrementAmount, s), n - 1)
  }

  /** The state the source keeps when started from construction with at
      least one tab, a positive increment and positive total times: the
      selection resolves, and the progress is non-negative and overshoots
      the selected tab's total time by less than one increment. */
  ghost predicate Inv<Id>(tabs: seq<Tab<Id>>, incrementAmount: real, s: Snapshot<Id>)
  {
    match IndexOf(tabs, s.selected)
    case None => false
    case Some(i) => 0.0 <= s.progress < tabs[i].totalTime + incrementAmount
  }

  ghost predicate WellFormed<Id>(tabs: seq<Tab<Id>>, incrementAmount: real)
  {
    |tabs| > 0 && incrementAmount > 0.0 && PositiveTimes(tabs)
  }

  // ---------------------------------------------------------------------
  // Construction

  lemma InitialState<Id>(tabs: seq<Tab<Id>>)
    ensures Initial(tabs).progress == 0.0 && !Initial(tabs).running
    ensures |tabs| == 0 ==> Initial(tabs).selected.None?
    ensures |tabs| > 0 ==> IndexOf(tabs, Initial(tabs).selected) == Some(0)
  {
    if |tabs| > 0 {
      IndexOfUnique(tabs, tabs[0].id, 0);
    }
  }

  lemma InitialEstablishesInv<Id>(tabs: seq<Tab<Id>>, incrementAmount: real)
    requires WellFormed(tabs, incrementAmount)
    ensures Inv(tabs, incrementAmount, Initial(tabs))
  {
    InitialState(tabs);
  }

  // ---------------------------------------------------------------------
  // progress(for:)

  /** Without a resolvable selection, or for a tab that is not in the list,
      every bar is empty. */
  lemma ProgressForUnresolved<Id>(tabs: seq<Tab<Id>>, s: Snapshot<Id>, tab: Tab<Id>)
    requires IndexOf(tabs, s.selected).None? || forall j :: 0 <= j < |tabs| ==> tabs[j].id != tab.id
    ensures ProgressFor(tabs, s, tab) == 0.0
  {
  }

  /** Every tab whose identity equals the selected one shows the current
      progress, duplicates included. */
  lemma ProgressForSelectedId<Id>(tabs: seq<Tab<Id>>, s: Snapshot<Id>, i: nat)
    requires i < |tabs| && s.selected == Some(tabs[i].id)
    ensures ProgressFor(tabs, s, tabs[i]) == s.progress
  {
    IndexOfMember(tabs, i);
  }

  /** The bars before the selected tab are full, the selected one shows the
      current progress, and the bars after it are empty. */
  lemma ProgressBars<Id>(tabs: seq<Tab<Id>>, s: Snapshot<Id>, selectedIndex: nat, i: nat)
    requires DistinctIds(tabs)
    requires IndexOf(tabs, s.selected) == Some(selectedIndex)
    requires i < |tabs|
    ensures i < selectedIndex ==> ProgressFor(tabs, s, tabs[i]) == tabs[i].totalTime
    ensures i == selectedIndex ==> ProgressFor(tabs, s, tabs[i]) == s.progress
    ensures i > selectedIndex ==> ProgressFor(tabs, s, tabs[i]) == 0.0
  {
    IndexOfDistinct(tabs, i);
  }

  /** Under the invariant every bar of a listed tab lies between empty and
      its total time plus one increment. */
  lemma ProgressBounded<Id>(tabs: seq<Tab<Id>>, incrementAmount: real, s: Snapshot<Id>, i: nat)
    requires DistinctIds(tabs) && WellFormed(tabs, incrementAmount)
    requires Inv(tabs, incrementAmount, s)
    requires i < |tabs|
    ensures 0.0 <= ProgressFor(tabs, s, tabs[i]) < tabs[i].totalTime + incrementAmount
  {
    var k := IndexOf(tabs, s.selected).value;
    ProgressBars(tabs, s, k, i);
    assert k == i ==> s.progress < tabs[i].totalTime + incrementAmount;
    assert tabs[i].totalTime > 0.0;
  }

  /** With duplicate identities the bound does not hold: a later tab that
      shares the selected identity shows the current progress against its
      own, shorter total time. */
  lemma DuplicateIdOverflows(tabs: seq<Tab<int>>, s: Snapshot<int>)
    requires tabs == [Tab(0, 3.0), Tab(0, 1.0)]
    requires s == Snapshot(Some(0), 2.5, true)
    ensures WellFormed(tabs, 0.5) && Inv(tabs, 0.5, s) && !DistinctIds(tabs)
    ensures ProgressFor(tabs, s, tabs[1]) >= tabs[1].totalTime + 0.5
  {
    assert tabs[0].id == tabs[1].id;
    IndexOfUnique(tabs, 0, 0);
  }

  // ---------------------------------------------------------------------
  // Timer

  lemma TimerIdempotent<Id>(s: Snapshot<Id>)
    ensures StartTimer(StartTimer(s)) == StartTimer(s)
    ensures EndTimer(EndTimer(s)) == EndTimer(s)
    ensures StartTimer(s).running && !EndTimer(s).running
    ensures StartTimer(s).(running := s.running) == s && EndTimer(s).(running := s.running) == s
  {
  }

  /** A press followed by a release stops and restarts the timer and keeps
      the selection and the progress. */
  lemma PauseResume<Id>(s: Snapshot<Id>)
    ensures !OnPressingChanged(s, true).running
    ensures OnPressingChanged(s, false).running
    ensures OnPressingChanged(OnPressingChanged(s, true), false) == s.(running := true)
  {
  }

  // ---------------------------------------------------------------------
  // incrementTab / decrementTab

  /** Advancing from index `i` selects the tab at `i + 1`, or the first tab
      from the last one, restarts the progress and leaves the timer alone. */
  lemma IncrementTabWraps<Id>(tabs: seq<Tab<Id>>, s: Snapshot<Id>, i: nat)
    requires IndexOf(tabs, s.selected) == Some(i)
    ensures i < |tabs| - 1 ==> IncrementTab(tabs, s).selected == Some(tabs[i + 1].id)
    ensures i == |tabs| - 1 ==> IncrementTab(tabs, s).selected == Some(tabs[0].id)
    ensures IncrementTab(tabs, s).progress == 0.0
    ensures IncrementTab(tabs, s).running == s.running
  {
  }

  /** Retreating from index `i > 0` selects the tab at `i - 1`; on the first
      tab the selection stays. The progress restarts either way. */
  lemma DecrementTabClamps<Id>(tabs: seq<Tab<Id>>, s: Snapshot<Id>, i: nat)
    requires IndexOf(tabs, s.selected) == Some(i)
    ensures i > 0 ==> DecrementTab(tabs, s).selected == Some(tabs[i - 1].id)
    ensures i == 0 ==> DecrementTab(tabs, s).selected == s.selected
    ensures DecrementTab(tabs, s).progress == 0.0
    ensures DecrementTab(tabs, s).running == s.running
  {
  }

  /** Without a resolvable selection both navigations select the first tab
      (none without tabs) and keep the progress: the source returns before
      its reset. */
  lemma NavigateUnresolved<Id>(tabs: seq<Tab<Id>>, s: Snapshot<Id>)
    requires IndexOf(tabs, s.selected).None?
    ensures IncrementTab(tabs, s) == s.(selected := FirstId(tabs))
    ensures DecrementTab(tabs, s) == s.(selected := FirstId(tabs))
    ensures |tabs| > 0 ==> IndexOf(tabs, IncrementTab(tabs, s).selected) == Some(0)
  {
    if |tabs| > 0 {
      IndexOfUnique(tabs, tabs[0].id, 0);
    }
  }

  /** With distinct identities, advancing moves the selected index one step
      forward modulo the number of tabs. */
  lemma IncrementTabIndex<Id>(tabs: seq<Tab<Id>>, s: Snapshot<Id>, i: nat)
    requires DistinctIds(tabs)
    requires IndexOf(tabs, s.selected) == Some(i)
    ensures IndexOf(tabs, IncrementTab(tabs, s).selected) == Some(if i < |tabs| - 1 then i + 1 else 0)
  {
    IncrementTabWraps(tabs, s, i);
    IndexOfDistinct(tabs, if i < |tabs| - 1 then i + 1 else 0);
  }

  /** With distinct identities, retreating moves the selected index one step
      back, never below zero. */
  lemma DecrementTabIndex<Id>(tabs: seq<Tab<Id>>, s: Snapshot<Id>, i: nat)
    requires DistinctIds(tabs)
    requires IndexOf(tabs, s.selected) == Some(i)
    ensures IndexOf(tabs, DecrementTab(tabs, s).selected) == Some(if i > 0 then i - 1 else 0)
  {
    if i > 0 {
      IndexOfDistinct(tabs, i - 1);
    }
  }

  /** `n` advances. */
  function Advance<Id(==)>(tabs: seq<Tab<Id>>, s: Snapshot<Id>, n: nat): Snapshot<Id>
    decreases n
  {
    if n == 0 then s else Advance(tabs, IncrementTab(tabs, s), n - 1)
  }

  /** `n` retreats. */
  function Retreat<Id(==)>(tabs: seq<Tab<Id>>, s: Snapshot<Id>, n: nat): Snapshot<Id>
    decreases n
  {
    if n == 0 then s else Retreat(tabs, DecrementTab(tabs, s), n - 1)
  }

  /** `m + n` advances are `m` advances followed by `n` more. */
  lemma {:induction false} AdvanceSplit<Id>(tabs: seq<Tab<Id>>, s: Snapshot<Id>, m: nat, n: nat)
    ensures Advance(tabs, s, m + n) == Advance(tabs, Advance(tabs, s, m), n)
    decreases m
  {
    if m > 0 {
      AdvanceSplit(tabs, IncrementTab(tabs, s), m - 1, n);
    }
  }

  /** Before the last tab, `n` advances from index `i` land on `i + n`. */
  lemma {:induction false} AdvanceForward<Id>(tabs: seq<Tab<Id>>, s: Snapshot<Id>, i: nat, n: nat)
    requires DistinctIds(tabs)
    requires IndexOf(tabs, s.selected) == Some(i)
    requires i + n < |tabs|
    ensures IndexOf(tabs, Advance(tabs, s, n).selected) == Some(i + n)
    decreases n
  {
    if n > 0 {
      IncrementTabIndex(tabs, s, i);
      AdvanceForward(tabs, IncrementTab(tabs, s), i + 1, n - 1);
    }
  }

  /** Playback is cyclic: `|tabs|` advances return to the starting tab. */
  lemma AdvanceCycles<Id>(tabs: seq<Tab<Id>>, s: Snapshot<Id>, i: nat)
    requires DistinctIds(tabs)
    requires IndexOf(tabs, s.selected) == Some(i)
    ensures IndexOf(tabs, Advance(tabs, s, |tabs|).selected) == Some(i)
  {
    var last := |tabs| - 1;
    AdvanceForward(tabs, s, i, last - i);
    var atLast := Advance(tabs, s, last - i);
    IncrementTabIndex(tabs, atLast, last);
    var atFirst := IncrementTab(tabs, atLast);
    assert Advance(tabs, atLast, 1) == atFirst;
    AdvanceForward(tabs, atFirst, 0, i);
    AdvanceSplit(tabs, s, last - i, 1);
    AdvanceSplit(tabs, s, last - i + 1, i);
  }

  /** Playback does not wrap backwards: `n` retreats from index `i` land on
      `max(i - n, 0)`. */
  lemma {:induction false} RetreatClamps<Id>(tabs: seq<Tab<Id>>, s: Snapshot<Id>, i: nat, n: nat)
    requires DistinctIds(tabs)
    requires IndexOf(tabs, s.selected) == Some(i)
    ensures IndexOf(tabs, Retreat(tabs, s, n).selected) == Some(if i >= n then i - n else 0)
    decreases n
  {
    if n > 0 {
      DecrementTabIndex(tabs, s, i);
      RetreatClamps(tabs, DecrementTab(tabs, s), if i > 0 then i - 1 else 0, n - 1);
    }
  }

  /** With a single tab, advancing keeps the selection but restarts the
      progress. */
  lemma SingleTabAdvance<Id>(tabs: seq<Tab<Id>>, s: Snapshot<Id>)
    requires |tabs| == 1 && IndexOf(tabs, s.selected).Some?
    ensures IncrementTab(tabs, s) == s.(progress := 0.0)
    ensures DecrementTab(tabs, s) == s.(progress := 0.0)
  {
    assert s.selected == Some(tabs[0].id);
  }

  // ---------------------------------------------------------------------
  // incrementProgress

  /** Below the total time a tick adds exactly one increment and keeps the
      selection; at or past it a tick performs exactly one advance; with no
      resolvable selection it changes nothing. */
  lemma IncrementProgressCases<Id>(tabs: seq<Tab<Id>>, incrementAmount: real, s: Snapshot<Id>)
    ensures IndexOf(tabs, s.selected).None? ==> IncrementProgress(tabs, incrementAmount, s) == s
    ensures IndexOf(tabs, s.selected).Some? ==>
      var i := IndexOf(tabs, s.selected).value;
      i < |tabs| &&
      IncrementProgress(tabs, incrementAmount, s) ==
        if s.progress < tabs[i].totalTime then s.(progress := s.progress + incrementAmount)
        else IncrementTab(tabs, s)
  {
  }

  /** With distinct identities, a tick at or past the selected tab's total
      time moves the selected index to the next tab (the first from the
      last), restarts the progress and keeps the timer running. */
  lemma TickAtTotalAdvances<Id>(tabs: seq<Tab<Id>>, incrementAmount: real, s: Snapshot<Id>, i: nat)
    requires DistinctIds(tabs)
    requires s.running
    requires IndexOf(tabs, s.selected) == Some(i)
    requires s.progress >= tabs[i].totalTime
    ensures IndexOf(tabs, Tick(tabs, incrementAmount, s).selected) == Some(if i < |tabs| - 1 then i + 1 else 0)
    ensures Tick(tabs, incrementAmount, s).progress == 0.0
    ensures Tick(tabs, incrementAmount, s).running
  {
    IncrementTabIndex(tabs, s, i);
  }

  /** Ticks below the total time accumulate: after `n` of them the progress
      is exactly `n` increments further and the selection has not moved. */
  lemma {:induction false} TicksAccumulate<Id>(tabs: seq<Tab<Id>>, incrementAmount: real, s: Snapshot<Id>, i: nat, n: nat)
    requires s.running && incrementAmount >= 0.0
    requires IndexOf(tabs, s.selected) == Some(i)
    requires n > 0 ==> s.progress + (n - 1) as real * incrementAmount < tabs[i].totalTime
    ensures Ticks(tabs, incrementAmount, s, n) == s.(progress := s.progress + n as real * incrementAmount)
    decreases n
  {
    if n > 0 {
      assert s.progress <= s.progress + (n - 1) as real * incrementAmount;
      var t := Tick(tabs, incrementAmount, s);
      assert t == s.(progress := s.progress + incrementAmount);
      assert t.progress + (n - 2) as real * incrementAmount == s.progress + (n - 1) as real * incrementAmount;
      TicksAccumulate(tabs, incrementAmount, t, i, n - 1);
      assert t.progress + (n - 1) as real * incrementAmount == s.progress + n as real * incrementAmount;
    }
  }

  // ---------------------------------------------------------------------
  // The invariant

  lemma IncrementTabPreservesInv<Id>(tabs: seq<Tab<Id>>, incrementAmount: real, s: Snapshot<Id>)
    requires WellFormed(tabs, incrementAmount) && Inv(tabs, incrementAmount, s)
    ensures Inv(tabs, incrementAmount, IncrementTab(tabs, s))
  {
    var i := IndexOf(tabs, s.selected).value;
    IncrementTabWraps(tabs, s, i);
    IndexOfMember(tabs, if i < |tabs| - 1 then i + 1 else 0);
  }

  lemma DecrementTabPreservesInv<Id>(tabs: seq<Tab<Id>>, incrementAmount: real, s: Snapshot<Id>)
    requires WellFormed(tabs, incrementAmount) && Inv(tabs, incrementAmount, s)
    ensures Inv(tabs, incrementAmount, DecrementTab(tabs, s))
  {
    var i := IndexOf(tabs, s.selected).value;
    if i > 0 {
      IndexOfMember(tabs, i - 1);
    }
  }

  lemma IncrementProgressPreservesInv<Id>(tabs: seq<Tab<Id>>, incrementAmount: real, s: Snapshot<Id>)
    requires WellFormed(tabs, incrementAmount) && Inv(tabs, incrementAmount, s)
    ensures Inv(tabs, incrementAmount, IncrementProgress(tabs, incrementAmount, s))
  {
    var i := IndexOf(tabs, s.selected).value;
    if s.progress >= tabs[i].totalTime {
      IncrementTabPreservesInv(tabs, incrementAmount, s);
    }
  }

  /** A concrete run: three tabs shown for 2, 1 and 3 seconds, ticking by
      half a second. Four ticks fill the first tab; the fifth advances to
      the second tab with its progress restarted. */
  lemma ThreeTabScenario(tabs: seq<Tab<int>>, s: Snapshot<int>)
    requires tabs == [Tab(0, 2.0), Tab(1, 1.0), Tab(2, 3.0)]
    requires s == StartTimer(Initial(tabs))
    ensures Ticks(tabs, 0.5, s, 4).selected == Some(0)
    ensures Ticks(tabs, 0.5, s, 4).progress == 2.0
    ensures Ticks(tabs, 0.5, s, 5).selected == Some(1)
    ensures Ticks(tabs, 0.5, s, 5).progress == 0.0
    ensures ProgressFor(tabs, Ticks(tabs, 0.5, s, 5), tabs[0]) == 2.0
    ensures ProgressFor(tabs, Ticks(tabs, 0.5, s, 5), tabs[1]) == 0.0
    ensures ProgressFor(tabs, Ticks(tabs, 0.5, s, 5), tabs[2]) == 0.0
  {
    assert DistinctIds(tabs);
    InitialState(tabs);
    TicksAccumulate(tabs, 0.5, s, 0, 4);
    var four := Ticks(tabs, 0.5, s, 4);
    assert four == s.(progress := 2.0);
    TicksSplit(tabs, 0.5, s, 4, 1);
    var five := Ticks(tabs, 0.5, four, 1);
    assert five == IncrementTab(tabs, four);
    IncrementTabWraps(tabs, four, 0);
    IndexOfDistinct(tabs, 1);
    ProgressBars(tabs, five, 1, 0);
    ProgressBars(tabs, five, 1, 1);
    ProgressBars(tabs, five, 1, 2);
  }

  lemma {:induction false} TicksSplit<Id>(tabs: seq<Tab<Id>>, incrementAmount: real, s: Snapshot<Id>, m: nat, n: nat)
    ensures Ticks(tabs, incrementAmount, s, m + n) == Ticks(tabs, incrementAmount, Ticks(tabs, incrementAmount, s, m), n)
    decreases m
  {
    if m > 0 {
      TicksSplit(tabs, incrementAmount, Tick(tabs, incrementAmount, s), m - 1, n);
    }
  }
}
