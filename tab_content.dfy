/** The two attributes of a tab's content that the progress logic reads:
    its identity and how long it stays on screen. The view part of the
    content protocol has no logic and is not modelled. */
module TabContent {
  import opened Options

  /** One tab: `id` (from `Identifiable`) and `totalTime` in seconds. */
  datatype Tab<Id> = Tab(id: Id, totalTime: real)

  /** No two tabs share an identity. The source does not demand this (the
      default identity is the content value itself), so only the lemmas
      that talk about indices assume it. */
  ghost predicate DistinctIds<Id>(tabs: seq<Tab<Id>>)
  {
    forall i, j :: 0 <= i < j < |tabs| ==> tabs[i].id != tabs[j].id
  }

  /** Every tab is shown for a positive amount of time. */
  ghost predicate PositiveTimes<Id>(tabs: seq<Tab<Id>>)
  {
    forall i :: 0 <= i < |tabs| ==> tabs[i].totalTime > 0.0
  }

  /** `tabs.first?.id`: the first tab's identity, or none for no tabs. */
  function FirstId<Id>(tabs: seq<Tab<Id>>): (r: Option<Id>)
    ensures r.None? <==> |tabs| == 0
    ensures r.Some? ==> r.value == tabs[0].id
  {
    if |tabs| == 0 then None else Some(tabs[0].id)
  }
}
