/**
 * The navigators of the initial state: the resource kind handlers, grouped by the navigator,
 * section and subsection their navigator path names. A new section is placed by the section
 * order list, before the first section that list ranks after it.
 */
module InitialState {
  import opened Wrappers

  /** A kind handler's navigator path: navigator, section and subsection names. */
  datatype NavigatorPath = NavigatorPath(navigatorName: string, sectionName: string, subsectionName: string)

  /** The parts of a resource kind handler the grouping reads. */
  datatype KindHandler = KindHandler(kind: string, apiVersionMatcher: string, navigatorPath: NavigatorPath)

  datatype Subsection = Subsection(name: string, kindSelector: string, apiVersionSelector: string)

  datatype Section = Section(name: string, subsections: seq<Subsection>)

  datatype ObjectNavigator = ObjectNavigator(name: string, sections: seq<Section>)

  /** The subsection a kind handler contributes. */
  function SubsectionOf(h: KindHandler): Subsection {
    Subsection(h.navigatorPath.subsectionName, h.kind, h.apiVersionMatcher)
  }

  // ---------------------------------------------------------------------------
  // find, indexOf and findIndex
  // ---------------------------------------------------------------------------

  /** The position of the first section named `name`, or -1 (the source's `find`). */
  function FindSection(sections: seq<Section>, name: string): (i: int)
    ensures -1 <= i < |sections|
    ensures i >= 0 ==> sections[i].name == name
    ensures i == -1 <==> forall j :: 0 <= j < |sections| ==> sections[j].name != name
  {
    if sections == [] then -1
    else if sections[0].name == name then 0
    else
      var r := FindSection(sections[1..], name);
      assert forall j :: 1 <= j < |sections| ==> sections[1..][j - 1] == sections[j];
      if r == -1 then -1 else r + 1
  }

  /** Where the order list places a section name; -1 for a name it does not list. */
  function Rank(order: seq<string>, name: string): int {
    IndexOf(order, name)
  }

  /** The source's findIndex: the first section the order list ranks after `name`, or -1. */
  function InsertIndex(sections: seq<Section>, name: string, order: seq<string>): (i: int)
    ensures -1 <= i < |sections|
    ensures i >= 0 ==> Rank(order, sections[i].name) > Rank(order, name)
    ensures forall j :: 0 <= j < |sections| && (i == -1 || j < i) ==> Rank(order, sections[j].name) <= Rank(order, name)
  {
    if sections == [] then -1
    else if Rank(order, sections[0].name) > Rank(order, name) then 0
    else
      var r := InsertIndex(sections[1..], name, order);
      assert forall j :: 1 <= j < |sections| ==> sections[1..][j - 1] == sections[j];
      if r == -1 then -1 else r + 1
  }

  // ---------------------------------------------------------------------------
  // One kind handler
  // ---------------------------------------------------------------------------

  /**
   * The sections of a navigator after one handler's subsection: appended to the section of that
   * name when there is one, otherwise in a new section placed by the order list.
   */
  function AddSubsection(sections: seq<Section>, name: string, sub: Subsection, order: seq<string>): (r: seq<Section>)
    // an existing section gets the subsection at its end, and nothing else changes
    ensures var j := FindSection(sections, name);
      j >= 0 ==> |r| == |sections| && r[j] == Section(name, sections[j].subsections + [sub])
                 && forall k :: 0 <= k < |sections| && k != j ==> r[k] == sections[k]
    // a new section holds only the subsection and is inserted without moving the others
    ensures FindSection(sections, name) == -1 ==>
      exists idx :: 0 <= idx <= |sections| && r == sections[..idx] + [Section(name, [sub])] + sections[idx..]
  {
    var j := FindSection(sections, name);
    if j >= 0 then sections[j := sections[j].(subsections := sections[j].subsections + [sub])]
    else
      var newSection := Section(name, [sub]);
      var idx := InsertIndex(sections, name, order);
      if idx == -1 then
        assert sections == sections[..|sections|] + sections[|sections|..];
        sections + [newSection]
      else sections[..idx] + [newSection] + sections[idx..]
  }

  /** Where a new section goes: findIndex's answer, or the end for -1. */
  function InsertPosition(sections: seq<Section>, name: string, order: seq<string>): (at: nat)
    ensures at <= |sections|
  {
    var idx := InsertIndex(sections, name, order);
    if idx == -1 then |sections| else idx
  }

  /** A new section is inserted at InsertPosition. */
  lemma AddSubsectionInserts(sections: seq<Section>, name: string, sub: Subsection, order: seq<string>)
    requires FindSection(sections, name) == -1
    ensures var at := InsertPosition(sections, name, order);
      AddSubsection(sections, name, sub, order) == sections[..at] + [Section(name, [sub])] + sections[at..]
  {
  }

  /** The elements of a sequence with one element inserted. */
  lemma InsertedAt<T>(s: seq<T>, at: int, x: T, i: int)
    requires 0 <= at <= |s| && 0 <= i <= |s|
    ensures |s[..at] + [x] + s[at..]| == |s| + 1
    ensures (s[..at] + [x] + s[at..])[i] == if i < at then s[i] else if i == at then x else s[i - 1]
  {
  }

  /** The order-list rank of every section, in section order. */
  function Ranks(sections: seq<Section>, order: seq<string>): (r: seq<int>)
    ensures |r| == |sections| && forall i :: 0 <= i < |sections| ==> r[i] == Rank(order, sections[i].name)
  {
    seq(|sections|, i requires 0 <= i < |sections| => Rank(order, sections[i].name))
  }

  predicate Ascending(xs: seq<int>) {
    forall i, j :: 0 <= i < j < |xs| ==> xs[i] <= xs[j]
  }

  /** Sections listed in the order list's order; unlisted names rank first, as indexOf gives them -1. */
  predicate SortedByRank(sections: seq<Section>, order: seq<string>) {
    Ascending(Ranks(sections, order))
  }

  lemma InsertAscending(xs: seq<int>, at: int, x: int)
    requires Ascending(xs) && 0 <= at <= |xs|
    requires forall k :: 0 <= k < at ==> xs[k] <= x
    requires at < |xs| ==> x < xs[at]
    ensures Ascending(xs[..at] + [x] + xs[at..])
  {
    var r := xs[..at] + [x] + xs[at..];
    forall i, j | 0 <= i < j < |r|
      ensures r[i] <= r[j]
    {
      if j == at {
        assert r[i] == xs[i];
      } else if i == at {
        assert r[j] == xs[j - 1] && xs[at] <= xs[j - 1];
      } else {
        var si := if i < at then i else i - 1;
        var sj := if j < at then j else j - 1;
        assert r[i] == xs[si] && r[j] == xs[sj];
      }
    }
  }

  /** Inserting before the first section ranked after the new one keeps the sections sorted. */
  lemma AddSubsectionKeepsSorted(sections: seq<Section>, name: string, sub: Subsection, order: seq<string>)
    requires SortedByRank(sections, order)
    ensures SortedByRank(AddSubsection(sections, name, sub, order), order)
  {
    var r := AddSubsection(sections, name, sub, order);
    var xs := Ranks(sections, order);
    if FindSection(sections, name) == -1 {
      var at := InsertPosition(sections, name, order);
      AddSubsectionInserts(sections, name, sub, order);
      forall i | 0 <= i < |r|
        ensures Ranks(r, order)[i] == (xs[..at] + [Rank(order, name)] + xs[at..])[i]
      {
        InsertedAt(sections, at, Section(name, [sub]), i);
        InsertedAt(xs, at, Rank(order, name), i);
      }
      assert Ranks(r, order) == xs[..at] + [Rank(order, name)] + xs[at..];
      InsertAscending(xs, at, Rank(order, name));
    } else {
      assert Ranks(r, order) == xs;
    }
  }

  predicate DistinctNames(sections: seq<Section>) {
    forall i, j :: 0 <= i < j < |sections| ==> sections[i].name != sections[j].name
  }

  /** A navigator never gets two sections of the same name. */
  lemma AddSubsectionKeepsDistinctNames(sections: seq<Section>, name: string, sub: Subsection, order: seq<string>)
    requires DistinctNames(sections)
    ensures DistinctNames(AddSubsection(sections, name, sub, order))
  {
    var r := AddSubsection(sections, name, sub, order);
    if FindSection(sections, name) == -1 {
      var at := InsertPosition(sections, name, order);
      AddSubsectionInserts(sections, name, sub, order);
      forall i, j | 0 <= i < j < |r|
        ensures r[i].name != r[j].name
      {
        InsertedAt(sections, at, Section(name, [sub]), i);
        InsertedAt(sections, at, Section(name, [sub]), j);
      }
    }
  }

  /** Some section named `name` holds `sub`. */
  predicate Holds(sections: seq<Section>, name: string, sub: Subsection) {
    exists j :: 0 <= j < |sections| && sections[j].name == name && sub in sections[j].subsections
  }

  /** The handler's subsection lands in the section of its name, and every earlier one stays where it was. */
  lemma AddSubsectionHolds(sections: seq<Section>, name: string, sub: Subsection, order: seq<string>)
    ensures var r := AddSubsection(sections, name, sub, order);
      && Holds(r, name, sub)
      && forall n, s :: Holds(sections, n, s) ==> Holds(r, n, s)
  {
    var r := AddSubsection(sections, name, sub, order);
    var j := FindSection(sections, name);
    if j >= 0 {
      assert r[j].name == name && sub in r[j].subsections;
      forall n, s | Holds(sections, n, s)
        ensures Holds(r, n, s)
      {
        var k :| 0 <= k < |sections| && sections[k].name == n && s in sections[k].subsections;
        assert r[k].name == n && s in r[k].subsections;
      }
    } else {
      var at := InsertPosition(sections, name, order);
      AddSubsectionInserts(sections, name, sub, order);
      InsertedAt(sections, at, Section(name, [sub]), at);
      forall n, s | Holds(sections, n, s)
        ensures Holds(r, n, s)
      {
        var k :| 0 <= k < |sections| && sections[k].name == n && s in sections[k].subsections;
        var i := if k < at then k else k + 1;
        InsertedAt(sections, at, Section(name, [sub]), i);
      }
    }
  }

  /** How many subsections the sections hold. */
  function SubsectionCount(sections: seq<Section>): nat {
    if sections == [] then 0 else SubsectionCount(sections[..|sections| - 1]) + |sections[|sections| - 1].subsections|
  }

  lemma {:induction false} SubsectionCountConcat(a: seq<Section>, b: seq<Section>)
    ensures SubsectionCount(a + b) == SubsectionCount(a) + SubsectionCount(b)
    decreases |b|
  {
    if b == [] {
      assert a + b == a;
    } else {
      SubsectionCountConcat(a, b[..|b| - 1]);
      assert (a + b)[..|a + b| - 1] == a + b[..|b| - 1];
    }
  }

  /** Replacing one section changes the count by the difference of its subsections. */
  lemma SubsectionCountReplace(sections: seq<Section>, j: int, v: Section)
    requires 0 <= j < |sections|
    ensures SubsectionCount(sections[j := v]) + |sections[j].subsections| == SubsectionCount(sections) + |v.subsections|
  {
    assert sections == sections[..j] + [sections[j]] + sections[j + 1..];
    assert sections[j := v] == sections[..j] + [v] + sections[j + 1..];
    SubsectionCountConcat(sections[..j] + [sections[j]], sections[j + 1..]);
    SubsectionCountConcat(sections[..j], [sections[j]]);
    SubsectionCountConcat(sections[..j] + [v], sections[j + 1..]);
    SubsectionCountConcat(sections[..j], [v]);
    assert [v][..0] == [] && [sections[j]][..0] == [];
  }

  /** Inserting a section adds its subsections to the count. */
  lemma SubsectionCountInsert(sections: seq<Section>, at: int, x: Section)
    requires 0 <= at <= |sections|
    ensures SubsectionCount(sections[..at] + [x] + sections[at..]) == SubsectionCount(sections) + |x.subsections|
  {
    assert sections == sections[..at] + sections[at..];
    SubsectionCountConcat(sections[..at], sections[at..]);
    SubsectionCountConcat(sections[..at] + [x], sections[at..]);
    SubsectionCountConcat(sections[..at], [x]);
    assert [x][..0] == [];
  }

  /** Each handler adds exactly one subsection. */
  lemma AddSubsectionCount(sections: seq<Section>, name: string, sub: Subsection, order: seq<string>)
    ensures SubsectionCount(AddSubsection(sections, name, sub, order)) == SubsectionCount(sections) + 1
  {
    var j := FindSection(sections, name);
    if j >= 0 {
      SubsectionCountReplace(sections, j, sections[j].(subsections := sections[j].subsections + [sub]));
    } else {
      AddSubsectionInserts(sections, name, sub, order);
      SubsectionCountInsert(sections, InsertPosition(sections, name, order), Section(name, [sub]));
    }
  }

  // ---------------------------------------------------------------------------
  // The fold over the kind handlers
  // ---------------------------------------------------------------------------

  /** Every navigator is stored under its own name. */
  ghost predicate KeyedByName(byName: Record<ObjectNavigator>) {
    && EnumeratesKeys(byName.order, byName.entries)
    && forall k :: k in byName.entries ==> byName.entries[k].name == k
  }

  /** One step of the reduce: the handler's navigator, created when missing, gets its subsection. */
  function AddHandler(byName: Record<ObjectNavigator>, h: KindHandler, order: seq<string>): (r: Record<ObjectNavigator>)
    requires KeyedByName(byName)
    ensures KeyedByName(r)
  {
    var p := h.navigatorPath;
    var current := if p.navigatorName in byName.entries then byName.entries[p.navigatorName] else ObjectNavigator(p.navigatorName, []);
    Store(byName, p.navigatorName, current.(sections := AddSubsection(current.sections, p.sectionName, SubsectionOf(h), order)))
  }

  function EmptyNavigators(): (r: Record<ObjectNavigator>)
    ensures KeyedByName(r)
  {
    Record([], map[])
  }

  /** The reduce over the kind handlers, keyed by navigator name. */
  function NavigatorsByName(handlers: seq<KindHandler>, order: seq<string>): (r: Record<ObjectNavigator>)
    ensures KeyedByName(r)
  {
    if handlers == [] then EmptyNavigators()
    else AddHandler(NavigatorsByName(handlers[..|handlers| - 1], order), handlers[|handlers| - 1], order)
  }

  /** Object.values of a record: its values in key order. */
  function Values(byName: Record<ObjectNavigator>): (vs: seq<ObjectNavigator>)
    requires KeyedByName(byName)
    ensures |vs| == |byName.order| && forall i :: 0 <= i < |vs| ==> vs[i] == byName.entries[byName.order[i]]
  {
    seq(|byName.order|, i requires 0 <= i < |byName.order| => byName.entries[byName.order[i]])
  }

  /** The navigators of the initial state. */
  function Navigators(handlers: seq<KindHandler>, order: seq<string>): seq<ObjectNavigator> {
    Values(NavigatorsByName(handlers, order))
  }

  /** One handler's edit of its navigator's sections, as the source does it: push or splice. */
  method PlaceSubsection(sections: seq<Section>, name: string, sub: Subsection, order: seq<string>) returns (r: seq<Section>)
    ensures r == AddSubsection(sections, name, sub, order)
  {
    r := sections;
    var currentSection := FindSection(r, name);
    if currentSection >= 0 {
      var s := r[currentSection];
      r := r[currentSection := s.(subsections := s.subsections + [sub])];
    } else {
      var newSection := Section(name, [sub]);
      var newSectionIndex := InsertIndex(r, name, order);
      if newSectionIndex == -1 {
        r := r + [newSection];
      } else {
        r := r[..newSectionIndex] + [newSection] + r[newSectionIndex..];
      }
    }
  }

  /** The navigator computation, as the source does it: a reduce that edits the current navigator's sections. */
  method BuildNavigators(handlers: seq<KindHandler>, order: seq<string>) returns (navigators: seq<ObjectNavigator>)
    ensures navigators == Navigators(handlers, order)
  {
    var navigatorsByName := EmptyNavigators();
    for i := 0 to |handlers|
      invariant navigatorsByName == NavigatorsByName(handlers[..i], order)
    {
      assert handlers[..i + 1][..i] == handlers[..i];
      var h := handlers[i];
      assert NavigatorsByName(handlers[..i + 1], order) == AddHandler(navigatorsByName, h, order);
      var p := h.navigatorPath;
      var currentNavigator :=
        if p.navigatorName in navigatorsByName.entries then navigatorsByName.entries[p.navigatorName]
        else ObjectNavigator(p.navigatorName, []);
      var newSubsection := Subsection(p.subsectionName, h.kind, h.apiVersionMatcher);
      var newNavigatorSections := PlaceSubsection(currentNavigator.sections, p.sectionName, newSubsection, order);
      navigatorsByName := Store(navigatorsByName, p.navigatorName, currentNavigator.(sections := newNavigatorSections));
    }
    assert handlers[..|handlers|] == handlers;
    navigators := CollectValues(navigatorsByName);
  }

  /** Object.values over the record the reduce built. */
  method CollectValues(byName: Record<ObjectNavigator>) returns (navigators: seq<ObjectNavigator>)
    requires KeyedByName(byName)
    ensures navigators == Values(byName)
  {
    navigators := [];
    for i := 0 to |byName.order|
      invariant navigators == Values(byName)[..i]
    {
      navigators := navigators + [byName.entries[byName.order[i]]];
    }
  }

  // ---------------------------------------------------------------------------
  // What the grouping guarantees
  // ---------------------------------------------------------------------------

  function NavigatorNames(handlers: seq<KindHandler>): (names: seq<string>)
    ensures |names| == |handlers| && forall i :: 0 <= i < |handlers| ==> names[i] == handlers[i].navigatorPath.navigatorName
  {
    if handlers == [] then [] else NavigatorNames(handlers[..|handlers| - 1]) + [handlers[|handlers| - 1].navigatorPath.navigatorName]
  }

  lemma {:induction false} NavigatorOrderIsFirstAppearance(handlers: seq<KindHandler>, order: seq<string>)
    ensures NavigatorsByName(handlers, order).order == Dedup(NavigatorNames(handlers))
  {
    if handlers != [] {
      var prefix := handlers[..|handlers| - 1];
      NavigatorOrderIsFirstAppearance(prefix, order);
      assert NavigatorNames(handlers)[..|handlers| - 1] == NavigatorNames(prefix);
    }
  }

  /** One navigator per distinct navigator name, in the order the names first appear. */
  lemma OneNavigatorPerName(handlers: seq<KindHandler>, order: seq<string>)
    ensures var navs := Navigators(handlers, order);
      var names := Dedup(NavigatorNames(handlers));
      |navs| == |names| && forall i :: 0 <= i < |navs| ==> navs[i].name == names[i]
  {
    NavigatorOrderIsFirstAppearance(handlers, order);
  }

  /** Every navigator's sections are sorted by the order list. */
  lemma {:induction false} SectionsSorted(handlers: seq<KindHandler>, order: seq<string>)
    ensures forall k :: k in NavigatorsByName(handlers, order).entries ==>
      SortedByRank(NavigatorsByName(handlers, order).entries[k].sections, order)
  {
    if handlers != [] {
      var prev := NavigatorsByName(handlers[..|handlers| - 1], order);
      SectionsSorted(handlers[..|handlers| - 1], order);
      var h := handlers[|handlers| - 1];
      var p := h.navigatorPath;
      var current := if p.navigatorName in prev.entries then prev.entries[p.navigatorName] else ObjectNavigator(p.navigatorName, []);
      if p.navigatorName in prev.entries {
        assert SortedByRank(prev.entries[p.navigatorName].sections, order);
      } else {
        assert current.sections == [];
      }
      AddSubsectionKeepsSorted(current.sections, p.sectionName, SubsectionOf(h), order);
      var updated := current.(sections := AddSubsection(current.sections, p.sectionName, SubsectionOf(h), order));
      assert NavigatorsByName(handlers, order) == Store(prev, p.navigatorName, updated);
    }
  }

  /** No navigator has two sections of the same name. */
  lemma {:induction false} SectionNamesDistinct(handlers: seq<KindHandler>, order: seq<string>)
    ensures forall k :: k in NavigatorsByName(handlers, order).entries ==>
      DistinctNames(NavigatorsByName(handlers, order).entries[k].sections)
  {
    if handlers != [] {
      var prev := NavigatorsByName(handlers[..|handlers| - 1], order);
      SectionNamesDistinct(handlers[..|handlers| - 1], order);
      var h := handlers[|handlers| - 1];
      var p := h.navigatorPath;
      var current := if p.navigatorName in prev.entries then prev.entries[p.navigatorName] else ObjectNavigator(p.navigatorName, []);
      if p.navigatorName in prev.entries {
        assert DistinctNames(prev.entries[p.navigatorName].sections);
      } else {
        assert current.sections == [];
      }
      AddSubsectionKeepsDistinctNames(current.sections, p.sectionName, SubsectionOf(h), order);
      var updated := current.(sections := AddSubsection(current.sections, p.sectionName, SubsectionOf(h), order));
      assert NavigatorsByName(handlers, order) == Store(prev, p.navigatorName, updated);
    }
  }

  /** The handler's subsection sits in the section its path names, in the navigator its path names. */
  ghost predicate Listed(byName: Record<ObjectNavigator>, h: KindHandler) {
    var p := h.navigatorPath;
    p.navigatorName in byName.entries && Holds(byName.entries[p.navigatorName].sections, p.sectionName, SubsectionOf(h))
  }

  /** One step of the reduce lists its handler and keeps every handler listed before. */
  lemma AddHandlerListed(byName: Record<ObjectNavigator>, h: KindHandler, order: seq<string>, other: KindHandler)
    requires KeyedByName(byName)
    ensures Listed(AddHandler(byName, h, order), h)
    ensures Listed(byName, other) ==> Listed(AddHandler(byName, h, order), other)
  {
    var p := h.navigatorPath;
    var current := if p.navigatorName in byName.entries then byName.entries[p.navigatorName] else ObjectNavigator(p.navigatorName, []);
    AddSubsectionHolds(current.sections, p.sectionName, SubsectionOf(h), order);
  }

  /** Every handler's subsection sits in the section its path names, in the navigator its path names. */
  lemma {:induction false} EveryHandlerListed(handlers: seq<KindHandler>, order: seq<string>)
    ensures forall i :: 0 <= i < |handlers| ==> Listed(NavigatorsByName(handlers, order), handlers[i])
  {
    if handlers != [] {
      var prefix := handlers[..|handlers| - 1];
      var prev := NavigatorsByName(prefix, order);
      EveryHandlerListed(prefix, order);
      var h := handlers[|handlers| - 1];
      AddHandlerListed(prev, h, order, h);
      forall i | 0 <= i < |handlers| - 1
        ensures Listed(NavigatorsByName(handlers, order), handlers[i])
      {
        assert prefix[i] == handlers[i];
        AddHandlerListed(prev, h, order, handlers[i]);
      }
    }
  }

  /** How many subsections the navigators hold. */
  function TotalSubsections(navs: seq<ObjectNavigator>): nat {
    if navs == [] then 0 else TotalSubsections(navs[..|navs| - 1]) + SubsectionCount(navs[|navs| - 1].sections)
  }

  lemma {:induction false} TotalSubsectionsConcat(a: seq<ObjectNavigator>, b: seq<ObjectNavigator>)
    ensures TotalSubsections(a + b) == TotalSubsections(a) + TotalSubsections(b)
    decreases |b|
  {
    if b == [] {
      assert a + b == a;
    } else {
      TotalSubsectionsConcat(a, b[..|b| - 1]);
      assert (a + b)[..|a + b| - 1] == a + b[..|b| - 1];
    }
  }

  /** Replacing one navigator changes the total by the difference of its counts. */
  lemma TotalSubsectionsUpdate(navs: seq<ObjectNavigator>, j: int, v: ObjectNavigator)
    requires 0 <= j < |navs|
    ensures TotalSubsections(navs[j := v]) + SubsectionCount(navs[j].sections) == TotalSubsections(navs) + SubsectionCount(v.sections)
  {
    assert navs == navs[..j] + [navs[j]] + navs[j + 1..];
    assert navs[j := v] == navs[..j] + [v] + navs[j + 1..];
    TotalSubsectionsConcat(navs[..j] + [navs[j]], navs[j + 1..]);
    TotalSubsectionsConcat(navs[..j], [navs[j]]);
    TotalSubsectionsConcat(navs[..j] + [v], navs[j + 1..]);
    TotalSubsectionsConcat(navs[..j], [v]);
    assert [v][..0] == [] && [navs[j]][..0] == [];
  }

  /** Object.values after an assignment: an old key's value is replaced in place, a new one comes last. */
  lemma ValuesAfterStore(byName: Record<ObjectNavigator>, k: string, v: ObjectNavigator)
    requires KeyedByName(byName) && v.name == k
    ensures KeyedByName(Store(byName, k, v))
    ensures k in byName.entries ==> Values(Store(byName, k, v)) == Values(byName)[IndexOf(byName.order, k) := v]
    ensures k !in byName.entries ==> Values(Store(byName, k, v)) == Values(byName) + [v]
  {
    if k in byName.entries {
      var j := IndexOf(byName.order, k);
      forall i | 0 <= i < |byName.order| && i != j
        ensures byName.order[i] != k
      {
        assert byName.order[j] == k;
      }
    }
  }

  /** Each kind handler contributes exactly one subsection: the navigators hold as many as there are handlers. */
  lemma {:induction false} OneSubsectionPerHandler(handlers: seq<KindHandler>, order: seq<string>)
    ensures TotalSubsections(Navigators(handlers, order)) == |handlers|
  {
    if handlers == [] {
      assert Navigators(handlers, order) == [];
    } else {
      var prefix := handlers[..|handlers| - 1];
      OneSubsectionPerHandler(prefix, order);
      var prev := NavigatorsByName(prefix, order);
      var h := handlers[|handlers| - 1];
      var p := h.navigatorPath;
      var current := if p.navigatorName in prev.entries then prev.entries[p.navigatorName] else ObjectNavigator(p.navigatorName, []);
      var updated := current.(sections := AddSubsection(current.sections, p.sectionName, SubsectionOf(h), order));
      AddSubsectionCount(current.sections, p.sectionName, SubsectionOf(h), order);
      var before := Values(prev);
      ValuesAfterStore(prev, p.navigatorName, updated);
      if p.navigatorName in prev.entries {
        TotalSubsectionsUpdate(before, IndexOf(prev.order, p.navigatorName), updated);
      } else {
        TotalSubsectionsConcat(before, [updated]);
        assert [updated][..0] == [];
      }
    }
  }
}
