# Story-style progress tabs, modelled in Dafny

This project models the logic of SwiftUI-Stories' `ProgressTabView`. The
view shows a list of tabs one at a time. Each tab has a progress bar that
fills while the tab is on screen. A repeating timer moves the current tab's
progress forward by a fixed increment. When a tab's `totalTime` is reached,
the view moves to the next tab, wrapping from the last tab to the first.
Taps on the leading and trailing halves of the screen go back (stopping at
the first tab) and forward. Pressing pauses the timer; releasing resumes it.
The source files modelled are:

- `Sources/Stories/Views/ProgressTabView.swift`, the state machine;
- `Sources/Stories/Extensions/RandomAccessCollection+Index.swift`, the
  identity-to-index lookup;
- `Sources/ProgressTabView/Views/ProgressTabView+View.swift`, only the part
  that maps events to operations.

Modules:

- `Options`: the `Option` datatype that stands for Swift's optionals.
- `TabContent`: a tab's `id` and `totalTime`, and `FirstId` (`tabs.first?.id`).
- `CollectionIndex`: `IndexOf`, which is `index(of:)`. An absent identity
  gives none; otherwise the result is the first index whose tab has that
  identity. The lookup is a pure function, so it cannot change the collection.
- `TabMachine`: each operation of the view as a function on a `Snapshot`
  (the selected identity, the current progress, and whether the timer is
  subscribed). The tab list and the increment amount are parameters. The
  lemmas state what the source's doc comments promise. They also state the
  invariant kept from construction.
- `ViewEvents`: the events the view forwards (appear, disappear, the two
  taps, long press, press changes, timer firing, scroll settling). `Dispatch`
  applies one event, then the view's `onChange(of: selectedTabID)` observer,
  which resets progress when the selection actually changed.
- `ProgressTabs`: the class `ProgressTabView`. Its fields are the tab list and
  increment amount (constants), and `selectedTabID`, `currentProgress` and
  `timerRunning`. It has one method per source operation, each mirroring the
  Swift control flow. Each method's postcondition ties the new state to the
  matching `TabMachine` function of the old state. `Drive` is a client that
  builds a view and handles any list of events. It proves that the selection
  stays resolvable and the progress stays bounded.

Identities need not be distinct: the default `id` is the content value
itself. The model keeps the first-match lookup exactly. The lemmas that talk
about indices (`ProgressBars`, `IncrementTabIndex`, `AdvanceCycles`, …) and
`ProgressBounded` assume `DistinctIds`. Without distinct identities the bound
on the bars fails. `DuplicateIdOverflows` gives the case: a later tab that
shares the selected identity shows the current progress against its own,
shorter total time.

There are three places where a reader might expect the code to behave
otherwise. The model follows the code in each:

- The change observer (ProgressTabView+View.swift:28) resets progress only
  when the selection actually changes. A scroll that settles on the selected
  tab keeps its progress (`ScrollToSelectedKeepsProgress`). The navigation
  operations reset progress themselves, even when the selection stays:
  `decrementTab` on the first tab does, and so does `incrementTab` with a
  single tab.
- `incrementTab`/`decrementTab` with an unresolvable selection set the first
  tab's identity and return before `resetProgress`. The reset then comes
  only from the change observer (see `NavigateUnresolved` and
  `TapFromUnresolved`).
- The initialiser accepts any increment and any total times; nothing is
  rejected at construction. The increment defaults to 0.01 seconds. The
  invariant lemmas take a positive increment and positive total times as
  hypotheses (`WellFormed`).

Time is modelled as `real`.

## Model

| member | source | states |
|---|---|---|
| TabContent.FirstId | Sources/Stories/Views/ProgressTabView.swift:42-44 | none exactly when there are no tabs; otherwise the first tab's identity |
| CollectionIndex.FirstIndex | Sources/Stories/Extensions/RandomAccessCollection+Index.swift:11 | a found index is in bounds, carries the identity, and no earlier index does; none exactly when no element carries the identity |
| CollectionIndex.IndexOf | Sources/Stories/Extensions/RandomAccessCollection+Index.swift:9-12 | an absent identity gives none; a result is in bounds, carries the identity, and is the first match; none exactly when no element matches |
| CollectionIndex.IndexOfUnique | Sources/Stories/Extensions/RandomAccessCollection+Index.swift:11 | any index that holds the identity with no earlier match is the lookup's result |
| CollectionIndex.IndexOfMember | Sources/Stories/Extensions/RandomAccessCollection+Index.swift:11 | looking up the identity of the tab at i succeeds with an index at most i |
| CollectionIndex.IndexOfDistinct | Sources/Stories/Extensions/RandomAccessCollection+Index.swift:11 | with distinct identities, looking up the identity of the tab at i gives i |
| CollectionIndex.IndexOfPrefix | Sources/Stories/Extensions/RandomAccessCollection+Index.swift:11 | the result depends only on the elements up to the first match: anything after it can be replaced |
| TabMachine.InitialState | Sources/Stories/Views/ProgressTabView.swift:20-45 | after construction: progress 0, no timer, no selection without tabs, otherwise a selection that resolves to index 0 |
| TabMachine.InitialEstablishesInv | Sources/Stories/Views/ProgressTabView.swift:36-45 | with tabs, a positive increment and positive times, construction establishes the invariant |
| TabMachine.ProgressForUnresolved | Sources/Stories/Views/ProgressTabView.swift:58-66 | no resolvable selection, or a tab not in the list, gives an empty bar |
| TabMachine.ProgressForSelectedId | Sources/Stories/Views/ProgressTabView.swift:68-69 | every listed tab whose identity is the selected one shows the current progress, duplicates included |
| TabMachine.ProgressBars | Sources/Stories/Views/ProgressTabView.swift:52-77 | with distinct identities: tabs before the selected index are full, the selected tab shows the current progress, later tabs are empty |
| TabMachine.ProgressBounded | Sources/Stories/Views/ProgressTabView.swift:58-77 | with distinct identities and under the invariant, every bar lies in [0, totalTime + increment) |
| TabMachine.DuplicateIdOverflows | Sources/Stories/Views/ProgressTabView.swift:64-69 | with two tabs sharing the selected identity, the invariant holds yet the later tab's bar reaches its totalTime + increment |
| TabMachine.TimerIdempotent | Sources/Stories/Views/ProgressTabView.swift:80-99 | starting twice equals starting once; stopping twice equals stopping once; neither touches selection or progress |
| TabMachine.PauseResume | Sources/Stories/Views/ProgressTabView.swift:117-123 | a press stops the timer, a release starts it, and a pair keeps selection and progress |
| TabMachine.IncrementTabWraps | Sources/Stories/Views/ProgressTabView.swift:125-142 | from index i before the last, the tab at i+1 is selected; from the last, the first; progress becomes 0; the timer is untouched |
| TabMachine.DecrementTabClamps | Sources/Stories/Views/ProgressTabView.swift:144-157 | from index i > 0, the tab at i-1 is selected; on the first tab the selection stays; progress becomes 0 |
| TabMachine.NavigateUnresolved | Sources/Stories/Views/ProgressTabView.swift:128-131 | without a resolvable selection both navigations select the first tab (none without tabs) and keep the progress |
| TabMachine.IncrementTabIndex | Sources/Stories/Views/ProgressTabView.swift:127-142 | with distinct identities the selected index moves to i+1, or to 0 from the last |
| TabMachine.DecrementTabIndex | Sources/Stories/Views/ProgressTabView.swift:146-157 | with distinct identities the selected index moves to i-1, or stays at 0 |
| TabMachine.AdvanceSplit | Sources/Stories/Views/ProgressTabView.swift:127-142 | helper for the advance lemmas: m+n advances are m advances followed by n |
| TabMachine.AdvanceForward | Sources/Stories/Views/ProgressTabView.swift:127-142 | with distinct identities, n advances from index i land on i+n while that is in bounds |
| TabMachine.AdvanceCycles | Sources/Stories/Views/ProgressTabView.swift:125-142 | playback is cyclic: as many advances as there are tabs return to the starting tab |
| TabMachine.RetreatClamps | Sources/Stories/Views/ProgressTabView.swift:144-157 | n retreats from index i land on max(i-n, 0): no backward wrap |
| TabMachine.SingleTabAdvance | Sources/Stories/Views/ProgressTabView.swift:127-157 | with a single tab, advancing and retreating keep the selection and restart the progress |
| TabMachine.IncrementProgressCases | Sources/Stories/Views/ProgressTabView.swift:101-113 | a tick below the selected tab's total time adds exactly one increment and keeps the selection; at or past it, exactly one advance; without a resolvable selection, nothing |
| TabMachine.TickAtTotalAdvances | Sources/Stories/Views/ProgressTabView.swift:101-142 | with distinct identities, a tick at or past the total time moves the selected index to the next tab (the first from the last), progress becomes 0, and the timer keeps running |
| TabMachine.TicksAccumulate | Sources/Stories/Views/ProgressTabView.swift:103-113 | while below the total time, n ticks add exactly n increments and keep the selection |
| TabMachine.TicksSplit | Sources/Stories/Views/ProgressTabView.swift:103-113 | helper for the scenario: m+n ticks are m ticks followed by n |
| TabMachine.IncrementTabPreservesInv | Sources/Stories/Views/ProgressTabView.swift:127-142 | advancing keeps the selection resolvable and the progress bounded |
| TabMachine.DecrementTabPreservesInv | Sources/Stories/Views/ProgressTabView.swift:146-157 | retreating keeps the selection resolvable and the progress bounded |
| TabMachine.IncrementProgressPreservesInv | Sources/Stories/Views/ProgressTabView.swift:103-113 | a tick keeps the selection resolvable and 0 <= progress < totalTime + increment |
| TabMachine.ThreeTabScenario | Sources/Stories/Views/ProgressTabView.swift:58-142 | tabs of 2, 1 and 3 seconds ticking by 0.5: four ticks reach 2.0 on the first tab; the fifth selects the second tab with progress 0; the bars read 2.0, 0, 0 |
| ViewEvents.ChangeResetsProgress | Sources/ProgressTabView/Views/ProgressTabView+View.swift:28 | any event that changes the selection leaves the progress at 0 |
| ViewEvents.ScrollToSelectedKeepsProgress | Sources/ProgressTabView/Views/ProgressTabView+View.swift:24-28 | settling on the already selected tab changes nothing: the observer fires only on a change |
| ViewEvents.TapFromUnresolved | Sources/ProgressTabView/Views/ProgressTabView+View.swift:28-48 | with an unresolvable selection, a tap selects the first tab and the observer resets progress |
| ViewEvents.TimerFlagRespected | Sources/ProgressTabView/Views/ProgressTabView+View.swift:25-52 | a timer firing while stopped changes nothing; taps, scrolls and firings keep the flag; disappear, long press and press-begin stop it; appear and press-end start it |
| ViewEvents.PressReleaseKeepsProgress | Sources/ProgressTabView/Views/ProgressTabView+View.swift:49-52 | press, a firing while paused, and release leave selection and progress as they were, with the timer running |
| ViewEvents.DispatchPreservesInv | Sources/ProgressTabView/Views/ProgressTabView+View.swift:24-52 | every event keeps the invariant |
| ViewEvents.RunPreservesInv | Sources/ProgressTabView/Views/ProgressTabView+View.swift:24-52 | any sequence of events keeps the invariant |
| ViewEvents.ReachableInv | Sources/Stories/Views/ProgressTabView.swift:36-157 | every state reachable from construction satisfies the invariant |
| ProgressTabs.ProgressTabView.constructor | Sources/Stories/Views/ProgressTabView.swift:29-45 | stores the tabs and the increment (default 0.01); selects the first tab or none; progress 0; no timer |
| ProgressTabs.ProgressTabView.ResetProgress | Sources/Stories/Views/ProgressTabView.swift:48-50 | progress becomes 0; nothing else changes |
| ProgressTabs.ProgressTabView.StartTimer | Sources/Stories/Views/ProgressTabView.swift:80-92 | the timer runs afterwards; an existing subscription is kept; selection and progress unchanged |
| ProgressTabs.ProgressTabView.EndTimer | Sources/Stories/Views/ProgressTabView.swift:95-99 | the timer is stopped afterwards; selection and progress unchanged |
| ProgressTabs.ProgressTabView.IncrementProgress | Sources/Stories/Views/ProgressTabView.swift:103-113 | the new state is the machine's tick of the old one |
| ProgressTabs.ProgressTabView.Tick | Sources/Stories/Views/ProgressTabView.swift:89-91 | a delivery from the subscription runs the tick only while subscribed |
| ProgressTabs.ProgressTabView.OnPressingChanged | Sources/Stories/Views/ProgressTabView.swift:117-123 | the timer runs exactly when not pressed; selection and progress unchanged |
| ProgressTabs.ProgressTabView.IncrementTab | Sources/Stories/Views/ProgressTabView.swift:127-142 | the new state is the machine's advance of the old one; the timer is untouched |
| ProgressTabs.ProgressTabView.DecrementTab | Sources/Stories/Views/ProgressTabView.swift:146-157 | the new state is the machine's retreat of the old one; the timer is untouched |
| ProgressTabs.ProgressTabView.Handle | Sources/ProgressTabView/Views/ProgressTabView+View.swift:24-52 | the new state is the dispatch of the event; a changed selection leaves progress 0 |
| ProgressTabs.Drive | Sources/Stories/Views/ProgressTabView.swift:36-157 | after any events on a view built with tabs, a positive increment and positive times, the selection resolves to an index and 0 <= progress < that tab's totalTime + increment |

The class query `ProgressTabView.Progress` (`progress(for:)`) is
`TabMachine.ProgressFor` on the object's state. The `TabMachine.ProgressFor*`
and `ProgressBars` lemmas state its meaning.

## Left out

- The Combine timer publisher, run-loop scheduling and cancellation handles (ProgressTabView.swift:83-91). They are asynchronous framework code. `timerRunning` stands for the publisher/cancellable pair, and `Tick` is one delivery.
- `@MainActor`, `@State` storage semantics and `withAnimation`. All calls are serial, and animation has no logical effect. SwiftUI's rule that a `@State` initial value takes effect only the first time a view identity is created is not modelled.
- The order in which SwiftUI runs the `onChange` observer relative to other queued events. The model runs it right after each event.
- Layout and rendering: the scroll view, the stack, the safe-area progress bars and `ProgressView`. The scroll position binding (ProgressTabView+View.swift:24) is reduced to the event `ScrolledTo(index)`, which selects the tab at an in-bounds index.
- The tap-region geometry (View+OnTapGesture.swift). The two halves become the events `TapLeading` and `TapTrailing`.
- Floating-point `TimeInterval` arithmetic: time is `real`, so rounding drift is not modelled.
- The view part of the content protocol. Only `id` and `totalTime` are kept.
- `tabs[safe:]` (ProgressTabView.swift:106): its definition is not part of this model. It is modelled as plain indexing, which is in bounds because the index comes from `IndexOf`.
- Package.swift: a build manifest with no logic.
