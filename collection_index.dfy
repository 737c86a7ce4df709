/** Identity-to-index lookup over a collection of identifiable tabs:
    `index(of:)` is a guard on a missing identity followed by a search
    for the first element carrying the identity. */
module CollectionIndex {
  import opened Options
  import opened TabContent

  /** The first index whose tab has identity `x`, or none. */
  function FirstIndex<Id(==)>(tabs: seq<Tab<Id>>, x: Id): (r: Option<nat>)
    ensures r.Some? ==> r.value < |tabs| && tabs[r.value].id == x
    ensures r.Some? ==> forall j :: 0 <= j < r.value ==> tabs[j].id != x
    ensures r.None? <==> forall j :: 0 <= j < |tabs| ==> tabs[j].id != x
    decreases |tabs|
  {
    if |tabs| == 0 then None
    else if tabs[0].id == x then Some(0)
    else
      match FirstIndex(tabs[1..], x)
      case None => None
      case Some(k) => Some(k + 1)
  }

  /** `index(of:)`: none for a missing identity, otherwise the first match. */
  function IndexOf<Id(==)>(tabs: seq<Tab<Id>>, id: Option<Id>): (r: Option<nat>)
    ensures id.None? ==> r.None?
    ensures r.Some? ==> id.Some? && r.value < |tabs| && tabs[r.value].id == id.value
    ensures r.Some? ==> forall j :: 0 <= j < r.value ==> tabs[j].id != id.value
    ensures id.Some? ==> (r.None? <==> forall j :: 0 <= j < |tabs| ==> tabs[j].id != id.value)
  {
    match id
    case None => None
    case Some(x) => FirstIndex(tabs, x)
  }

  /** The contract of `IndexOf` determines its result: any index that holds
      the identity and has no earlier match is the one returned. */
  lemma IndexOfUnique<Id>(tabs: seq<Tab<Id>>, x: Id, k: nat)
    requires k < |tabs| && tabs[k].id == x
    requires forall j :: 0 <= j < k ==> tabs[j].id != x
    ensures IndexOf(tabs, Some(x)) == Some(k)
  {
    var r := IndexOf(tabs, Some(x));
    assert tabs[k].id == x;
    assert r.Some?;
    assert tabs[r.value].id == x;
  }

  /** Looking up the identity of the tab at index `i` finds a tab at or
      before `i`. */
  lemma IndexOfMember<Id>(tabs: seq<Tab<Id>>, i: nat)
    requires i < |tabs|
    ensures IndexOf(tabs, Some(tabs[i].id)).Some?
    ensures IndexOf(tabs, Some(tabs[i].id)).value <= i
  {
    var r := IndexOf(tabs, Some(tabs[i].id));
    assert tabs[i].id == tabs[i].id;
    assert r.Some?;
  }

  /** With distinct identities, looking up the identity of the tab at
      index `i` gives back `i`. */
  lemma IndexOfDistinct<Id>(tabs: seq<Tab<Id>>, i: nat)
    requires DistinctIds(tabs)
    requires i < |tabs|
    ensures IndexOf(tabs, Some(tabs[i].id)) == Some(i)
  {
    IndexOfMember(tabs, i);
    var k := IndexOf(tabs, Some(tabs[i].id)).value;
    assert tabs[k].id == tabs[i].id;
  }

  /** The result depends only on the elements up to and including the first
      match: replacing everything after it leaves the result unchanged. */
  lemma IndexOfPrefix<Id>(tabs: seq<Tab<Id>>, rest: seq<Tab<Id>>, x: Id)
    requires IndexOf(tabs, Some(x)).Some?
    ensures IndexOf(tabs, Some(x)).value < |tabs|
    ensures IndexOf(tabs[..IndexOf(tabs, Some(x)).value + 1] + rest, Some(x)) == IndexOf(tabs, Some(x))
  {
    var k := IndexOf(tabs, Some(x)).value;
    var t := tabs[..k + 1] + rest;
    assert t[k] == tabs[k];
    forall j | 0 <= j < k ensures t[j].id != x {
      assert t[j] == tabs[j];
    }
    IndexOfUnique(t, x, k);
  }
}
