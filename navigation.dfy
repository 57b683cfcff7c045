/**
 * The navigation sidebar (Sidebar): the fixed table of sections and routes
 * and the test that highlights the entry for the current path. Icons and
 * styling are not modelled.
 */
module Navigation {

  datatype NavItem = NavItem(name: string, href: string)
  datatype Section = Section(title: string, items: seq<NavItem>)

  /** `SECTIONS`. */
  const Sections: seq<Section> := [
    Section("Core Hooks", [
      NavItem("useTransition", "/hooks/use-transition"),
      NavItem("useDeferredValue", "/hooks/use-deferred-value"),
      NavItem("useId", "/hooks/use-id"),
      NavItem("useLayoutEffect", "/hooks/use-layout-effect")]),
    Section("Advanced Hooks", [
      NavItem("useActionState", "/hooks/use-action-state"),
      NavItem("useFormStatus", "/hooks/use-form-status"),
      NavItem("useOptimistic", "/hooks/use-optimistic"),
      NavItem("useSyncExternalStore", "/hooks/use-sync-external-store"),
      NavItem("useImperativeHandle", "/hooks/use-imperative-handle")]),
    Section("Specialized & Experimental", [
      NavItem("useDebugValue", "/hooks/use-debug-value"),
      NavItem("useEffectEvent", "/hooks/use-effect-event"),
      NavItem("useInsertionEffect", "/hooks/use-insertion-effect"),
      NavItem("use (API)", "/hooks/use")]),
    Section("Components", [
      NavItem("<Activity>", "/components/activity"),
      NavItem("<ViewTransition>", "/components/view-transition"),
      NavItem("<Profiler>", "/hooks/profiler")]),
    Section("APIs", [
      NavItem("Taint APIs", "/apis/taint")])
  ]

  /** `pathname === item.href`. */
  predicate IsActive(pathname: string, item: NavItem) {
    pathname == item.href
  }

  /** All entries, section by section, in display order. */
  function AllItems(sections: seq<Section>): seq<NavItem>
    decreases |sections|
  {
    if sections == [] then [] else sections[0].items + AllItems(sections[1..])
  }

  /** The hrefs of a list of entries, in order. */
  function Hrefs(items: seq<NavItem>): (r: seq<string>)
    ensures |r| == |items| && forall k :: 0 <= k < |items| ==> r[k] == items[k].href
  {
    seq(|items|, k requires 0 <= k < |items| => items[k].href)
  }

  predicate Distinct(s: seq<string>) {
    forall i, j :: 0 <= i < j < |s| ==> s[i] != s[j]
  }

  /** The entries highlighted for a path. */
  function ActiveItems(pathname: string, items: seq<NavItem>): (r: seq<NavItem>)
    ensures forall k :: 0 <= k < |r| ==> IsActive(pathname, r[k]) && r[k] in items
    ensures (forall k :: 0 <= k < |items| ==> !IsActive(pathname, items[k])) <==> r == []
    decreases |items|
  {
    if items == [] then []
    else (if IsActive(pathname, items[0]) then [items[0]] else []) + ActiveItems(pathname, items[1..])
  }

  /** With distinct hrefs, at most one entry is highlighted for any path. */
  lemma {:induction false} AtMostOneActive(pathname: string, items: seq<NavItem>)
    requires Distinct(Hrefs(items))
    ensures |ActiveItems(pathname, items)| <= 1
    decreases |items|
  {
    if items != [] {
      var tail := items[1..];
      assert Hrefs(tail) == Hrefs(items)[1..];
      AtMostOneActive(pathname, tail);
      if IsActive(pathname, items[0]) {
        forall k | 0 <= k < |tail|
          ensures !IsActive(pathname, tail[k])
        {
          assert Hrefs(items)[0] != Hrefs(items)[k + 1];
        }
      }
    }
  }

  /** The table has five sections, in this order, with 4, 5, 4, 3 and 1 entries: 17 in all. */
  lemma SectionShape()
    ensures |Sections| == 5
    ensures Sections[0].title == "Core Hooks" && Sections[1].title == "Advanced Hooks"
    ensures Sections[2].title == "Specialized & Experimental" && Sections[3].title == "Components"
    ensures Sections[4].title == "APIs"
    ensures |Sections[0].items| == 4 && |Sections[1].items| == 5 && |Sections[2].items| == 4
    ensures |Sections[3].items| == 3 && |Sections[4].items| == 1
    ensures |AllItems(Sections)| == 17
  {
    assert AllItems(Sections[4..]) == Sections[4].items + AllItems([]);
    assert AllItems(Sections[3..]) == Sections[3].items + AllItems(Sections[4..]);
    assert AllItems(Sections[2..]) == Sections[2].items + AllItems(Sections[3..]);
    assert AllItems(Sections[1..]) == Sections[1].items + AllItems(Sections[2..]);
  }

  /** All seventeen hrefs. */
  const AllRoutes: seq<string> := [
    "/hooks/use-transition", "/hooks/use-deferred-value", "/hooks/use-id", "/hooks/use-layout-effect",
    "/hooks/use-action-state", "/hooks/use-form-status", "/hooks/use-optimistic",
    "/hooks/use-sync-external-store", "/hooks/use-imperative-handle",
    "/hooks/use-debug-value", "/hooks/use-effect-event", "/hooks/use-insertion-effect", "/hooks/use",
    "/components/activity", "/components/view-transition", "/hooks/profiler",
    "/apis/taint"
  ]

  lemma AllRoutesAreTheHrefs()
    ensures Hrefs(AllItems(Sections)) == AllRoutes
  {
    SectionShape();
    assert AllItems(Sections) == Sections[0].items + Sections[1].items + Sections[2].items
                                 + Sections[3].items + Sections[4].items;
  }

  /** No two of the seventeen routes are the same. */
  lemma RoutesDistinct()
    ensures Distinct(AllRoutes)
  {
  }

  /** Whatever the path, the sidebar highlights at most one entry. */
  lemma SidebarHighlightsAtMostOne(pathname: string)
    ensures |ActiveItems(pathname, AllItems(Sections))| <= 1
  {
    AllRoutesAreTheHrefs();
    RoutesDistinct();
    AtMostOneActive(pathname, AllItems(Sections));
  }

  /** The home page "/" highlights no entry. */
  lemma HomeHighlightsNothing()
    ensures ActiveItems("/", AllItems(Sections)) == []
  {
    AllRoutesAreTheHrefs();
    var items := AllItems(Sections);
    forall k | 0 <= k < |items|
      ensures !IsActive("/", items[k])
    {
      assert items[k].href == AllRoutes[k];
      assert |AllRoutes[k]| > 1;
    }
  }

  /** "/hooks/use" highlights the "use (API)" entry only, not the longer "/hooks/use-..." routes. */
  lemma UsePathHighlightsOnlyUseApi()
    ensures ActiveItems("/hooks/use", AllItems(Sections)) == [NavItem("use (API)", "/hooks/use")]
  {
    var items := AllItems(Sections);
    AllRoutesAreTheHrefs();
    SidebarHighlightsAtMostOne("/hooks/use");
    SectionShape();
    assert items == Sections[0].items + Sections[1].items + Sections[2].items
                    + Sections[3].items + Sections[4].items;
    assert items[12] == NavItem("use (API)", "/hooks/use");
    ActiveContains("/hooks/use", items, 12);
    var r := ActiveItems("/hooks/use", items);
    assert r[0] in items && r[0].href == "/hooks/use";
    var k :| 0 <= k < |items| && items[k] == r[0];
    assert AllRoutes[k] == AllRoutes[12];
    RoutesDistinct();
  }

  /** An active entry appears among the highlighted ones. */
  lemma {:induction false} ActiveContains(pathname: string, items: seq<NavItem>, k: nat)
    requires k < |items| && IsActive(pathname, items[k])
    ensures items[k] in ActiveItems(pathname, items)
    decreases k
  {
    if k > 0 {
      ActiveContains(pathname, items[1..], k - 1);
    }
  }

  /** Within each section the React keys (the hrefs) are unique. */
  lemma SectionKeysUnique()
    ensures forall i :: 0 <= i < |Sections| ==> Distinct(Hrefs(Sections[i].items))
  {
    SectionShape();
    AllRoutesAreTheHrefs();
    RoutesDistinct();
    var all := Sections[0].items + Sections[1].items + Sections[2].items + Sections[3].items + Sections[4].items;
    assert AllItems(Sections) == all;
    var starts := [0, 4, 9, 13, 16];
    forall i | 0 <= i < |Sections|
      ensures Distinct(Hrefs(Sections[i].items))
    {
      var items := Sections[i].items;
      forall a, b | 0 <= a < b < |items|
        ensures items[a].href != items[b].href
      {
        assert items[a] == all[starts[i] + a];
        assert items[b] == all[starts[i] + b];
      }
    }
  }
}
