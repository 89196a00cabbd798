/**
 * The navigation bar: a fixed table of tabs, the effect that keeps the active
 * tab in step with the current path, the tab click, and the active mark.
 */
module Navbar {
  import opened Types

  /** A tab: its id, its link text and the path it links to. */
  datatype Tab = Tab(id: string, text: string, href: string)

  /** The tab table. */
  const Tabs: seq<Tab> := [
    Tab("home", "home", "/"),
    Tab("chat", "chat", "/chat"),
    Tab("blog", "blog", "/blog")
  ]

  /** No two tabs share an id or a path. */
  lemma TabsDistinct()
    ensures forall i, j :: 0 <= i < j < |Tabs| ==> Tabs[i].id != Tabs[j].id && Tabs[i].href != Tabs[j].href
  {
  }

  /** `tabs.find(t => t.href === pathname)`, as the index of the first tab at or after `from` whose path is `pathname`. */
  function FindTab(tabs: seq<Tab>, pathname: string, from: nat): (r: Option<nat>)
    requires from <= |tabs|
    ensures r.Some? ==> from <= r.value < |tabs| && tabs[r.value].href == pathname
    ensures r.Some? ==> forall j :: from <= j < r.value ==> tabs[j].href != pathname
    ensures r.None? ==> forall j :: from <= j < |tabs| ==> tabs[j].href != pathname
    decreases |tabs| - from
  {
    if from == |tabs| then None
    else if tabs[from].href == pathname then Some(from)
    else FindTab(tabs, pathname, from + 1)
  }

  /** The active tab the sync effect leaves: the matching tab's id if a tab links to `pathname`, else the current one. */
  function SyncedTab(pathname: string, activeTab: string): (r: string)
    ensures (exists i :: 0 <= i < |Tabs| && Tabs[i].href == pathname) ==>
      exists i :: 0 <= i < |Tabs| && Tabs[i].href == pathname && r == Tabs[i].id
    ensures (forall i :: 0 <= i < |Tabs| ==> Tabs[i].href != pathname) ==> r == activeTab
  {
    match FindTab(Tabs, pathname, 0)
    case Some(k) => Tabs[k].id
    case None => activeTab
  }

  /** Syncing twice on the same path gives the same tab as syncing once. */
  lemma SyncIdempotent(pathname: string, activeTab: string)
    ensures SyncedTab(pathname, SyncedTab(pathname, activeTab)) == SyncedTab(pathname, activeTab)
  {
  }

  /** The resume page links to no tab, so its own active tab "resume" survives the sync. */
  lemma ResumePageKeepsItsTab()
    ensures SyncedTab("/resume", "resume") == "resume"
  {
    assert forall i :: 0 <= i < |Tabs| ==> Tabs[i].href != "/resume";
  }

  /** Whether tab `i` is drawn as the active one. */
  predicate IsActive(activeTab: string, i: nat)
    requires i < |Tabs|
  {
    activeTab == Tabs[i].id
  }

  /** At most one tab is marked active, whatever the active tab is. */
  lemma AtMostOneActive(activeTab: string, i: nat, j: nat)
    requires i < |Tabs| && j < |Tabs| && IsActive(activeTab, i) && IsActive(activeTab, j)
    ensures i == j
  {
    TabsDistinct();
  }

  /** The active tab the bar's owner holds and the bar updates. */
  class NavBar {
    var activeTab: string

    constructor (activeTab: string)
      ensures this.activeTab == activeTab
    {
      this.activeTab := activeTab;
    }

    /** The sync effect: on a path that a tab links to, a differing active tab is replaced by that tab's id. */
    method Sync(pathname: string) returns (changed: bool)
      modifies this
      ensures activeTab == SyncedTab(pathname, old(activeTab))
      ensures changed <==> activeTab != old(activeTab)
    {
      var found := FindTab(Tabs, pathname, 0);
      changed := false;
      if found.Some? && activeTab != Tabs[found.value].id {
        activeTab := Tabs[found.value].id;
        changed := true;
      }
    }

    /** Clicking tab `i` makes it the active one. */
    method Click(i: nat)
      requires i < |Tabs|
      modifies this
      ensures activeTab == Tabs[i].id
      ensures forall j :: 0 <= j < |Tabs| ==> (IsActive(activeTab, j) <==> j == i)
    {
      TabsDistinct();
      activeTab := Tabs[i].id;
    }
  }
}
