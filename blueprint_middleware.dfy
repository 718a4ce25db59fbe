/**
 * processSectionBlueprints and the middleware around it: scan every section's scope, return
 * early when nothing in it changed, rebuild the sections whose scope changed, compute their
 * visibility and check boxes, and dispatch the result when it differs from the navigator state.
 *
 * The asynchronous `each` of the source runs its iterations one after another here: none of
 * them awaits anything, so they complete in registration order.
 */
module BlueprintMiddleware {
  import opened Wrappers
  import opened AppModel
  import opened Navigator
  import opened SectionVisibility
  import opened SectionBlueprint

  // ---------------------------------------------------------------------------
  // The full scope
  // ---------------------------------------------------------------------------

  /**
   * A scope value, as far as the middleware looks at it: undefined, or a value with an identity
   * (what shallowEqual compares) and a truthiness.
   */
  datatype ScopeValue = Undefined | Defined(identity: nat, truthy: bool)

  predicate Truthy(v: ScopeValue) {
    v.Defined? && v.truthy
  }

  datatype ScopeEntry = ScopeEntry(key: string, value: ScopeValue)

  /** The full scope gathered so far and, per key, whether its value differs from the cached one. */
  datatype ScopeScan = ScopeScan(fullScope: map<string, ScopeValue>, isChangedByScopeKey: map<string, bool>)

  function Cached(cache: map<string, ScopeValue>, key: string): ScopeValue {
    if key in cache then cache[key] else Undefined
  }

  /** Every scanned key has a change flag, and it says whether the stored value differs from the cache. */
  ghost predicate FlagsAgainst(cache: map<string, ScopeValue>, scan: ScopeScan) {
    && scan.isChangedByScopeKey.Keys == scan.fullScope.Keys
    && forall k :: k in scan.fullScope ==> (scan.isChangedByScopeKey[k] <==> Cached(cache, k) != scan.fullScope[k])
  }

  /** The keys a scope's entries name. */
  function KeySet(entries: seq<ScopeEntry>): set<string> {
    if entries == [] then {} else KeySet(entries[..|entries| - 1]) + {entries[|entries| - 1].key}
  }

  /** One key of a section's scope: a key already holding a truthy value keeps it. */
  function ScanEntry(cache: map<string, ScopeValue>, scan: ScopeScan, e: ScopeEntry): ScopeScan {
    if e.key in scan.fullScope && Truthy(scan.fullScope[e.key]) then scan
    else ScopeScan(scan.fullScope[e.key := e.value], scan.isChangedByScopeKey[e.key := Cached(cache, e.key) != e.value])
  }

  function ScanEntries(cache: map<string, ScopeValue>, start: ScopeScan, entries: seq<ScopeEntry>): (r: ScopeScan)
    requires FlagsAgainst(cache, start)
    ensures FlagsAgainst(cache, r)
  {
    if entries == [] then start
    else ScanEntry(cache, ScanEntries(cache, start, entries[..|entries| - 1]), entries[|entries| - 1])
  }

  /** Scanning adds exactly the scope's keys to the full scope. */
  lemma {:induction false} ScanEntriesKeys(cache: map<string, ScopeValue>, start: ScopeScan, entries: seq<ScopeEntry>)
    requires FlagsAgainst(cache, start)
    ensures ScanEntries(cache, start, entries).fullScope.Keys == start.fullScope.Keys + KeySet(entries)
  {
    if entries != [] {
      ScanEntriesKeys(cache, start, entries[..|entries| - 1]);
    }
  }

  lemma {:induction false} ScanEntriesAppend(cache: map<string, ScopeValue>, start: ScopeScan, a: seq<ScopeEntry>, b: seq<ScopeEntry>)
    requires FlagsAgainst(cache, start)
    ensures ScanEntries(cache, ScanEntries(cache, start, a), b) == ScanEntries(cache, start, a + b)
    decreases |b|
  {
    if b == [] {
      assert a + b == a;
    } else {
      var prefix := b[..|b| - 1];
      ScanEntriesAppend(cache, start, a, prefix);
      assert (a + b)[..|a + b| - 1] == a + prefix;
    }
  }

  /** The full scope never depends on the cache: only the change flags do. */
  lemma {:induction false} ScanIgnoresCache(c1: map<string, ScopeValue>, c2: map<string, ScopeValue>, s1: ScopeScan, s2: ScopeScan,
                                           entries: seq<ScopeEntry>)
    requires FlagsAgainst(c1, s1) && FlagsAgainst(c2, s2) && s1.fullScope == s2.fullScope
    ensures ScanEntries(c1, s1, entries).fullScope == ScanEntries(c2, s2, entries).fullScope
  {
    if entries != [] {
      ScanIgnoresCache(c1, c2, s1, s2, entries[..|entries| - 1]);
    }
  }

  // ---------------------------------------------------------------------------
  // The registered sections and the scan over their scopes
  // ---------------------------------------------------------------------------

  /**
   * A registered section blueprint with what its callbacks yield: its scope's entries in order,
   * the builder's answers, and makeCheckable's checked item ids (absent without makeCheckable).
   */
  datatype RegisteredSection = RegisteredSection(
    blueprint: Blueprint,
    scope: seq<ScopeEntry>,
    facts: SectionFacts,
    checkedItemIds: Option<seq<string>>)

  /** The registry: registration order, unique ids, and `getById` agreeing with it. */
  ghost predicate Registry(sections: seq<RegisteredSection>, bps: map<string, Blueprint>, rank: string -> nat) {
    && Ranked(bps, rank)
    && (forall i, j :: 0 <= i < j < |sections| ==> sections[i].blueprint.id != sections[j].blueprint.id)
    && (forall i :: 0 <= i < |sections| ==> sections[i].blueprint.id in bps && bps[sections[i].blueprint.id] == sections[i].blueprint)
  }

  /** Every section's scope entries, one section after the other. */
  function AllEntries(sections: seq<RegisteredSection>): seq<ScopeEntry> {
    if sections == [] then [] else AllEntries(sections[..|sections| - 1]) + sections[|sections| - 1].scope
  }

  function EmptyScan(): (r: ScopeScan)
    ensures forall cache :: FlagsAgainst(cache, r)
  {
    ScopeScan(map[], map[])
  }

  function Scan(cache: map<string, ScopeValue>, sections: seq<RegisteredSection>): (r: ScopeScan)
    ensures FlagsAgainst(cache, r)
  {
    ScanEntries(cache, EmptyScan(), AllEntries(sections))
  }

  function Keys(entries: seq<ScopeEntry>): (keys: seq<string>)
    ensures |keys| == |entries| && forall i :: 0 <= i < |entries| ==> keys[i] == entries[i].key
  {
    if entries == [] then [] else Keys(entries[..|entries| - 1]) + [entries[|entries| - 1].key]
  }

  /** scopeKeysBySectionId: every section's keys, including those whose value was skipped. */
  function KeysBySection(sections: seq<RegisteredSection>): (r: map<string, seq<string>>)
    ensures forall id :: id in r <==> exists i :: 0 <= i < |sections| && sections[i].blueprint.id == id
  {
    if sections == [] then map[]
    else
      var s := sections[|sections| - 1];
      var before := KeysBySection(sections[..|sections| - 1]);
      assert forall i :: 0 <= i < |sections| - 1 ==> sections[..|sections| - 1][i] == sections[i];
      before[s.blueprint.id := Keys(s.scope)]
  }

  lemma {:induction false} KeysBySectionAt(sections: seq<RegisteredSection>, i: int)
    requires 0 <= i < |sections|
    requires forall a, b :: 0 <= a < b < |sections| ==> sections[a].blueprint.id != sections[b].blueprint.id
    ensures KeysBySection(sections)[sections[i].blueprint.id] == Keys(sections[i].scope)
  {
    if i < |sections| - 1 {
      var prefix := sections[..|sections| - 1];
      KeysBySectionAt(prefix, i);
    }
  }

  lemma ScanEntriesSnoc(cache: map<string, ScopeValue>, start: ScopeScan, entries: seq<ScopeEntry>, e: ScopeEntry)
    requires FlagsAgainst(cache, start)
    ensures ScanEntries(cache, start, entries + [e]) == ScanEntry(cache, ScanEntries(cache, start, entries), e)
  {
    assert (entries + [e])[..|entries|] == entries;
  }

  lemma KeysSnoc(entries: seq<ScopeEntry>, e: ScopeEntry)
    ensures Keys(entries + [e]) == Keys(entries) + [e.key]
  {
    assert (entries + [e])[..|entries|] == entries;
  }

  predicate HoldsTruthy(fullScope: map<string, ScopeValue>, k: string) {
    k in fullScope && Truthy(fullScope[k])
  }

  /** No entry for key `k` among the first `n` entries carries a truthy value. */
  predicate NoTruthyBefore(entries: seq<ScopeEntry>, k: string, n: int)
    requires n <= |entries|
  {
    forall j :: 0 <= j < n && entries[j].key == k ==> !Truthy(entries[j].value)
  }

  /** A key that already holds a truthy value keeps it through the whole scan. */
  lemma {:induction false} ScanKeepsTruthy(cache: map<string, ScopeValue>, start: ScopeScan, entries: seq<ScopeEntry>, k: string)
    requires FlagsAgainst(cache, start) && HoldsTruthy(start.fullScope, k)
    ensures k in ScanEntries(cache, start, entries).fullScope
    ensures ScanEntries(cache, start, entries).fullScope[k] == start.fullScope[k]
  {
    if entries != [] {
      ScanKeepsTruthy(cache, start, entries[..|entries| - 1], k);
    }
  }

  /** A key that holds no truthy value and is given none keeps holding none. */
  lemma {:induction false} ScanNeverTruthy(cache: map<string, ScopeValue>, start: ScopeScan, entries: seq<ScopeEntry>, k: string)
    requires FlagsAgainst(cache, start) && !HoldsTruthy(start.fullScope, k) && NoTruthyBefore(entries, k, |entries|)
    ensures !HoldsTruthy(ScanEntries(cache, start, entries).fullScope, k)
  {
    if entries != [] {
      var n := |entries| - 1;
      assert forall j :: 0 <= j < n ==> entries[..n][j] == entries[j];
      ScanNeverTruthy(cache, start, entries[..n], k);
    }
  }

  /** Otherwise the first truthy value scanned for the key is the one kept: later values are skipped. */
  lemma {:induction false} ScanFirstTruthyWins(cache: map<string, ScopeValue>, start: ScopeScan, entries: seq<ScopeEntry>, k: string, i: nat)
    requires FlagsAgainst(cache, start) && !HoldsTruthy(start.fullScope, k)
    requires i < |entries| && entries[i].key == k && Truthy(entries[i].value) && NoTruthyBefore(entries, k, i)
    ensures k in ScanEntries(cache, start, entries).fullScope
    ensures ScanEntries(cache, start, entries).fullScope[k] == entries[i].value
  {
    var n := |entries| - 1;
    var prefix := entries[..n];
    assert forall j :: 0 <= j < n ==> prefix[j] == entries[j];
    if i == n {
      ScanNeverTruthy(cache, start, prefix, k);
    } else {
      ScanFirstTruthyWins(cache, start, prefix, k, i);
    }
  }

  /** When no scanned value for the key is truthy, the last one scanned is kept. */
  lemma {:induction false} ScanLastWins(cache: map<string, ScopeValue>, start: ScopeScan, entries: seq<ScopeEntry>, k: string, i: nat)
    requires FlagsAgainst(cache, start) && !HoldsTruthy(start.fullScope, k)
    requires i < |entries| && entries[i].key == k && NoTruthyBefore(entries, k, |entries|)
    requires forall j :: i < j < |entries| ==> entries[j].key != k
    ensures k in ScanEntries(cache, start, entries).fullScope
    ensures ScanEntries(cache, start, entries).fullScope[k] == entries[i].value
  {
    var n := |entries| - 1;
    var prefix := entries[..n];
    assert forall j :: 0 <= j < n ==> prefix[j] == entries[j];
    if i == n {
      ScanNeverTruthy(cache, start, prefix, k);
    } else {
      ScanLastWins(cache, start, prefix, k, i);
    }
  }

  /** One key of a section's scope: a key that already holds a truthy value is not overwritten. */
  method ScanOne(cache: map<string, ScopeValue>, scan: ScopeScan, e: ScopeEntry) returns (r: ScopeScan)
    ensures r == ScanEntry(cache, scan, e)
    ensures e.key in scan.fullScope && Truthy(scan.fullScope[e.key]) ==> r == scan
    ensures e.key in r.fullScope && (Truthy(r.fullScope[e.key]) || r.fullScope[e.key] == e.value)
    ensures forall k :: k != e.key && k in scan.fullScope ==> k in r.fullScope && r.fullScope[k] == scan.fullScope[k]
  {
    r := scan;
    if !(e.key in scan.fullScope && Truthy(scan.fullScope[e.key])) {
      r := ScopeScan(scan.fullScope[e.key := e.value], scan.isChangedByScopeKey[e.key := Cached(cache, e.key) != e.value]);
    }
  }

  /** With unique ids, every section's keys are found under its id. */
  lemma KeysBySectionMeaning(sections: seq<RegisteredSection>)
    requires forall a, b :: 0 <= a < b < |sections| ==> sections[a].blueprint.id != sections[b].blueprint.id
    ensures forall i :: 0 <= i < |sections| ==>
      sections[i].blueprint.id in KeysBySection(sections) && KeysBySection(sections)[sections[i].blueprint.id] == Keys(sections[i].scope)
  {
    forall i | 0 <= i < |sections|
      ensures sections[i].blueprint.id in KeysBySection(sections) && KeysBySection(sections)[sections[i].blueprint.id] == Keys(sections[i].scope)
    {
      KeysBySectionAt(sections, i);
    }
  }

  /** One section's part of the scan loop: its keys, and the full scope and flags updated with its values. */
  method ScanSection(cache: map<string, ScopeValue>, start: ScopeScan, entries: seq<ScopeEntry>)
    returns (scan: ScopeScan, keys: seq<string>)
    requires FlagsAgainst(cache, start)
    ensures scan == ScanEntries(cache, start, entries)
    ensures keys == Keys(entries)
  {
    scan := start;
    keys := [];
    ghost var done: seq<ScopeEntry> := [];
    var j := 0;
    while j < |entries|
      invariant 0 <= j <= |entries|
      invariant done == entries[..j]
      invariant scan == ScanEntries(cache, start, done)
      invariant keys == Keys(done)
    {
      var e := entries[j];
      assert entries[..j + 1] == done + [e];
      ScanEntriesSnoc(cache, start, done, e);
      KeysSnoc(done, e);
      keys := keys + [e.key];
      scan := ScanOne(cache, scan, e);
      done := done + [e];
      j := j + 1;
    }
    assert done == entries;
  }

  /** The scan loop of processSectionBlueprints. */
  method ScanScopes(cache: map<string, ScopeValue>, sections: seq<RegisteredSection>)
    returns (scan: ScopeScan, keysBySection: map<string, seq<string>>)
    ensures scan == Scan(cache, sections)
    ensures keysBySection == KeysBySection(sections)
  {
    scan := EmptyScan();
    keysBySection := map[];
    var i := 0;
    while i < |sections|
      invariant 0 <= i <= |sections|
      invariant scan == ScanEntries(cache, EmptyScan(), AllEntries(sections[..i]))
      invariant keysBySection == KeysBySection(sections[..i])
    {
      ghost var before := scan;
      var keys;
      scan, keys := ScanSection(cache, scan, sections[i].scope);
      ScanEntriesAppend(cache, EmptyScan(), AllEntries(sections[..i]), sections[i].scope);
      assert sections[..i + 1][..i] == sections[..i];
      keysBySection := keysBySection[sections[i].blueprint.id := keys];
      i := i + 1;
    }
    assert sections[..|sections|] == sections;
  }

  /** The early return: no scanned key changed. */
  predicate NothingChanged(isChangedByScopeKey: map<string, bool>) {
    forall k :: k in isChangedByScopeKey ==> !isChangedByScopeKey[k]
  }

  /** The early return is taken exactly when every value of the full scope is the cached one. */
  lemma NothingChangedMeaning(cache: map<string, ScopeValue>, sections: seq<RegisteredSection>)
    ensures var scan := Scan(cache, sections);
      NothingChanged(scan.isChangedByScopeKey) <==> forall k :: k in scan.fullScope ==> Cached(cache, k) == scan.fullScope[k]
  {
  }

  /** A section is rebuilt when one of its keys changed. */
  predicate SectionScopeChanged(isChangedByScopeKey: map<string, bool>, keys: seq<string>) {
    exists k :: k in isChangedByScopeKey && k in keys && isChangedByScopeKey[k]
  }

  // ---------------------------------------------------------------------------
  // The scope cache
  // ---------------------------------------------------------------------------

  /**
   * As written, the module's scope cache starts empty and nothing stores into it, so every scan
   * compares against the empty cache: a key counts as changed whenever its value is defined.
   */
  function ChangedAsWritten(sections: seq<RegisteredSection>): (r: map<string, bool>)
    ensures forall k :: k in r <==> k in KeySet(AllEntries(sections))
    ensures forall k :: k in r ==> k in Scan(map[], sections).fullScope && (r[k] <==> Scan(map[], sections).fullScope[k].Defined?)
  {
    ScanEntriesKeys(map[], EmptyScan(), AllEntries(sections));
    Scan(map[], sections).isChangedByScopeKey
  }

  /**
   * The same scope, scanned on two actions in a row, still counts as changed on the second:
   * the early return never fires for a scope holding a defined value.
   */
  lemma AsWrittenRescanStillChanges()
    ensures var sections := [RegisteredSection(Blueprint("s", "s", None, false, false), [ScopeEntry("resourceMap", Defined(1, true))],
                                               SectionFacts([], None, None, None, None, false, []), None)];
      && Scan(map[], sections).fullScope == map["resourceMap" := Defined(1, true)]
      && !NothingChanged(ChangedAsWritten(sections))
  {
    var sections := [RegisteredSection(Blueprint("s", "s", None, false, false), [ScopeEntry("resourceMap", Defined(1, true))],
                                       SectionFacts([], None, None, None, None, false, []), None)];
    assert sections[..0] == [];
    assert AllEntries(sections) == [ScopeEntry("resourceMap", Defined(1, true))];
    var entries := AllEntries(sections);
    assert entries[..0] == [];
    var scan := Scan(map[], sections);
    assert scan.isChangedByScopeKey["resourceMap"];
  }

  /** The corrected cache: after a scan it holds the full scope that was seen. */
  function CacheAfterScan(cache: map<string, ScopeValue>, scan: ScopeScan): (r: map<string, ScopeValue>)
    ensures forall k :: k in scan.fullScope ==> Cached(r, k) == scan.fullScope[k]
    ensures forall k :: k in cache && k !in scan.fullScope ==> k in r && r[k] == cache[k]
  {
    cache + scan.fullScope
  }

  /** With the corrected cache, scanning an unchanged state again takes the early return. */
  lemma RescanReportsNothingChanged(cache: map<string, ScopeValue>, sections: seq<RegisteredSection>)
    ensures NothingChanged(Scan(CacheAfterScan(cache, Scan(cache, sections)), sections).isChangedByScopeKey)
  {
    var first := Scan(cache, sections);
    var cache' := CacheAfterScan(cache, first);
    ScanIgnoresCache(cache, cache', EmptyScan(), EmptyScan(), AllEntries(sections));
  }

  // ---------------------------------------------------------------------------
  // Building the instances
  // ---------------------------------------------------------------------------

  /** Stores every item instance under its id, in order; a later item with the same id replaces an earlier one. */
  function StoreItems(rec: Record<ItemInstance>, items: seq<ItemInstance>): (r: Record<ItemInstance>)
    requires EnumeratesKeys(rec.order, rec.entries)
    ensures EnumeratesKeys(r.order, r.entries)
    ensures rec.order <= r.order
  {
    if items == [] then rec
    else Store(StoreItems(rec, items[..|items| - 1]), items[|items| - 1].id, items[|items| - 1])
  }

  /** After storing, the record holds exactly its earlier keys and the ids of the stored items. */
  lemma {:induction false} StoreItemsKeys(rec: Record<ItemInstance>, items: seq<ItemInstance>)
    requires EnumeratesKeys(rec.order, rec.entries)
    ensures forall k :: k in StoreItems(rec, items).entries <==> k in rec.entries || exists i :: 0 <= i < |items| && items[i].id == k
  {
    if items != [] {
      var prefix := items[..|items| - 1];
      StoreItemsKeys(rec, prefix);
      assert forall i :: 0 <= i < |prefix| ==> prefix[i] == items[i];
    }
  }

  /** An item whose id no later item shares is the one stored under that id: a later item replaces an earlier one. */
  lemma {:induction false} StoreItemsLastWins(rec: Record<ItemInstance>, items: seq<ItemInstance>, i: nat)
    requires EnumeratesKeys(rec.order, rec.entries)
    requires i < |items| && forall j :: i < j < |items| ==> items[j].id != items[i].id
    ensures items[i].id in StoreItems(rec, items).entries && StoreItems(rec, items).entries[items[i].id] == items[i]
  {
    var n := |items| - 1;
    if i < n {
      var prefix := items[..n];
      assert forall j :: 0 <= j < n ==> prefix[j] == items[j];
      StoreItemsLastWins(rec, prefix, i);
    }
  }

  /** A key no stored item has keeps its earlier value. */
  lemma {:induction false} StoreItemsKeepsOthers(rec: Record<ItemInstance>, items: seq<ItemInstance>, k: string)
    requires EnumeratesKeys(rec.order, rec.entries)
    requires k in rec.entries && forall j :: 0 <= j < |items| ==> items[j].id != k
    ensures k in StoreItems(rec, items).entries && StoreItems(rec, items).entries[k] == rec.entries[k]
  {
    if items != [] {
      var n := |items| - 1;
      var prefix := items[..n];
      assert forall j :: 0 <= j < n ==> prefix[j] == items[j];
      StoreItemsKeepsOthers(rec, prefix, k);
    }
  }

  lemma StoreItemsSnoc(rec: Record<ItemInstance>, items: seq<ItemInstance>, item: ItemInstance)
    requires EnumeratesKeys(rec.order, rec.entries)
    ensures StoreItems(rec, items + [item]) == Store(StoreItems(rec, items), item.id, item)
  {
    assert (items + [item])[..|items|] == items;
  }

  function EmptyRecord<V>(): (r: Record<V>)
    ensures EnumeratesKeys(r.order, r.entries) && r.entries == map[]
  {
    Record([], map[])
  }

  /** A section is rebuilt when one of its scope keys changed. */
  predicate Rebuilt(changed: map<string, bool>, s: RegisteredSection) {
    SectionScopeChanged(changed, Keys(s.scope))
  }

  /** The item instances of a rebuilt section. */
  function ItemsOf(s: RegisteredSection): seq<ItemInstance> {
    if s.blueprint.hasItemBlueprint then BuildItems(s.blueprint, s.facts.rawItems) else []
  }

  /** One section's turn in the building loop. */
  function BuildStep(before: NavigatorInstanceState, changed: map<string, bool>, s: RegisteredSection): (r: NavigatorInstanceState)
    requires EnumeratesKeys(before.sectionInstanceMap.order, before.sectionInstanceMap.entries)
    requires EnumeratesKeys(before.itemInstanceMap.order, before.itemInstanceMap.entries)
    ensures EnumeratesKeys(r.sectionInstanceMap.order, r.sectionInstanceMap.entries)
    ensures EnumeratesKeys(r.itemInstanceMap.order, r.itemInstanceMap.entries)
    ensures r.sectionInstanceMap.entries.Keys ==
      before.sectionInstanceMap.entries.Keys + if Rebuilt(changed, s) then {s.blueprint.id} else {}
    ensures forall id :: id in r.sectionInstanceMap.entries && id != s.blueprint.id ==>
      r.sectionInstanceMap.entries[id] == before.sectionInstanceMap.entries[id]
    ensures Rebuilt(changed, s) ==> r.sectionInstanceMap.entries[s.blueprint.id].id == s.blueprint.id
  {
    if !Rebuilt(changed, s) then before
    else
      var itemMap := StoreItems(before.itemInstanceMap, ItemsOf(s));
      var sec := BuildSectionInstance(s.blueprint, s.facts, itemMap.entries);
      NavigatorInstanceState(Store(before.sectionInstanceMap, s.blueprint.id, sec), itemMap)
  }

  /** The section and item instances built for the sections whose scope changed, in registration order. */
  function BuildInstances(sections: seq<RegisteredSection>, changed: map<string, bool>): (r: NavigatorInstanceState)
    ensures EnumeratesKeys(r.sectionInstanceMap.order, r.sectionInstanceMap.entries)
    ensures EnumeratesKeys(r.itemInstanceMap.order, r.itemInstanceMap.entries)
  {
    if sections == [] then NavigatorInstanceState(EmptyRecord(), EmptyRecord())
    else BuildStep(BuildInstances(sections[..|sections| - 1], changed), changed, sections[|sections| - 1])
  }

  /** Instances are built for exactly the sections whose scope changed, each stored under its own id. */
  lemma {:induction false} BuildInstancesKeys(sections: seq<RegisteredSection>, changed: map<string, bool>)
    ensures var r := BuildInstances(sections, changed);
      && r.sectionInstanceMap.entries.Keys == RebuiltIds(sections, changed)
      && forall id :: id in r.sectionInstanceMap.entries ==> r.sectionInstanceMap.entries[id].id == id
  {
    if sections != [] {
      BuildInstancesKeys(sections[..|sections| - 1], changed);
    }
  }

  /** The ids of the sections whose scope changed, in registration order. */
  function RebuiltOrder(sections: seq<RegisteredSection>, changed: map<string, bool>): (ids: seq<string>)
    ensures forall id :: id in ids <==> id in RebuiltIds(sections, changed)
  {
    if sections == [] then []
    else
      var s := sections[|sections| - 1];
      RebuiltOrder(sections[..|sections| - 1], changed) + if Rebuilt(changed, s) then [s.blueprint.id] else []
  }

  /** With unique section ids, the rebuilt sections are stored in registration order. */
  lemma {:induction false} BuildInstancesOrder(sections: seq<RegisteredSection>, changed: map<string, bool>)
    requires forall i, j :: 0 <= i < j < |sections| ==> sections[i].blueprint.id != sections[j].blueprint.id
    ensures BuildInstances(sections, changed).sectionInstanceMap.order == RebuiltOrder(sections, changed)
  {
    if sections != [] {
      var n := |sections| - 1;
      var prefix := sections[..n];
      var s := sections[n];
      assert forall j :: 0 <= j < n ==> prefix[j] == sections[j];
      BuildInstancesOrder(prefix, changed);
      BuildInstancesKeys(prefix, changed);
      assert s.blueprint.id !in RebuiltIds(prefix, changed);
      BuildStepOrder(BuildInstances(prefix, changed), changed, s);
    }
  }

  lemma BuildStepOrder(before: NavigatorInstanceState, changed: map<string, bool>, s: RegisteredSection)
    requires EnumeratesKeys(before.sectionInstanceMap.order, before.sectionInstanceMap.entries)
    requires EnumeratesKeys(before.itemInstanceMap.order, before.itemInstanceMap.entries)
    requires s.blueprint.id !in before.sectionInstanceMap.entries
    ensures BuildStep(before, changed, s).sectionInstanceMap.order ==
      before.sectionInstanceMap.order + if Rebuilt(changed, s) then [s.blueprint.id] else []
  {
  }

  lemma BuildInstancesSnoc(sections: seq<RegisteredSection>, s: RegisteredSection, changed: map<string, bool>)
    ensures BuildInstances(sections + [s], changed) == BuildStep(BuildInstances(sections, changed), changed, s)
  {
    assert (sections + [s])[..|sections|] == sections;
  }

  /** The ids of the sections whose scope changed. */
  function RebuiltIds(sections: seq<RegisteredSection>, changed: map<string, bool>): (ids: set<string>)
    ensures forall id :: id in ids <==> exists i :: 0 <= i < |sections| && sections[i].blueprint.id == id && Rebuilt(changed, sections[i])
  {
    if sections == [] then {}
    else
      var s := sections[|sections| - 1];
      assert forall i :: 0 <= i < |sections| - 1 ==> sections[..|sections| - 1][i] == sections[i];
      RebuiltIds(sections[..|sections| - 1], changed) + if Rebuilt(changed, s) then {s.blueprint.id} else {}
  }

  method StoreItemInstances(rec: Record<ItemInstance>, items: seq<ItemInstance>) returns (r: Record<ItemInstance>)
    requires EnumeratesKeys(rec.order, rec.entries)
    ensures r == StoreItems(rec, items)
  {
    r := rec;
    ghost var done: seq<ItemInstance> := [];
    var j := 0;
    while j < |items|
      invariant 0 <= j <= |items|
      invariant done == items[..j]
      invariant r == StoreItems(rec, done)
    {
      assert items[..j + 1] == done + [items[j]];
      StoreItemsSnoc(rec, done, items[j]);
      r := Store(r, items[j].id, items[j]);
      done := done + [items[j]];
      j := j + 1;
    }
    assert done == items;
  }

  /** One section's turn in the building loop: rebuilt, with its items, when one of its scope keys changed. */
  method BuildSection(built: NavigatorInstanceState, changed: map<string, bool>, s: RegisteredSection, keys: seq<string>)
    returns (r: NavigatorInstanceState)
    requires EnumeratesKeys(built.sectionInstanceMap.order, built.sectionInstanceMap.entries)
    requires EnumeratesKeys(built.itemInstanceMap.order, built.itemInstanceMap.entries)
    requires keys == Keys(s.scope)
    ensures r == BuildStep(built, changed, s)
  {
    r := built;
    if SectionScopeChanged(changed, keys) {
      var items := if s.blueprint.hasItemBlueprint then BuildItems(s.blueprint, s.facts.rawItems) else [];
      var itemMap := StoreItemInstances(built.itemInstanceMap, items);
      var sec := BuildSectionInstance(s.blueprint, s.facts, itemMap.entries);
      r := NavigatorInstanceState(Store(built.sectionInstanceMap, s.blueprint.id, sec), itemMap);
    }
  }

  /** The loop of processSectionBlueprints that builds the instances of every section whose scope changed. */
  method BuildSectionInstances(sections: seq<RegisteredSection>, keysBySection: map<string, seq<string>>, changed: map<string, bool>)
    returns (built: NavigatorInstanceState)
    requires forall i :: 0 <= i < |sections| ==>
      sections[i].blueprint.id in keysBySection && keysBySection[sections[i].blueprint.id] == Keys(sections[i].scope)
    ensures built == BuildInstances(sections, changed)
  {
    built := NavigatorInstanceState(EmptyRecord(), EmptyRecord());
    ghost var done: seq<RegisteredSection> := [];
    var i := 0;
    while i < |sections|
      invariant 0 <= i <= |sections|
      invariant done == sections[..i]
      invariant built == BuildInstances(done, changed)
    {
      var s := sections[i];
      assert sections[..i + 1] == done + [s];
      BuildInstancesSnoc(done, s, changed);
      built := BuildSection(built, changed, s, keysBySection[s.blueprint.id]);
      done := done + [s];
      i := i + 1;
    }
    assert done == sections;
  }

  // ---------------------------------------------------------------------------
  // Visibility and check boxes
  // ---------------------------------------------------------------------------

  /** The built sections whose blueprint is its own root, in the map's order. */
  function Roots(bps: map<string, Blueprint>, order: seq<string>): (roots: seq<string>)
    ensures forall id :: id in roots <==> id in order && id in bps && bps[id].rootSectionId == id
  {
    if order == [] then []
    else
      var id := order[|order| - 1];
      Roots(bps, order[..|order| - 1]) + if id in bps && bps[id].rootSectionId == id then [id] else []
  }

  /**
   * computeSectionVisibility on every root in turn. A root whose tree misses a section instance
   * throws; the throw ends that root's computation only, and the next root goes on.
   */
  function VisitRoots(bps: map<string, Blueprint>, ghost rank: string -> nat, m: map<string, SectionInstance>, roots: seq<string>)
    : (r: map<string, SectionInstance>)
    requires Ranked(bps, rank) && m.Keys <= bps.Keys
    requires forall id :: id in roots ==> id in m
    ensures r.Keys == m.Keys
  {
    if roots == [] then m
    else
      var before := VisitRoots(bps, rank, m, roots[..|roots| - 1]);
      match Visit(bps, rank, before, roots[|roots| - 1])
      case Ok(v) => v.sections
      case Error(_) => before
  }

  method ComputeRootsVisibility(bps: map<string, Blueprint>, ghost rank: string -> nat, m: map<string, SectionInstance>, roots: seq<string>)
    returns (r: map<string, SectionInstance>)
    requires Ranked(bps, rank) && m.Keys <= bps.Keys
    requires forall id :: id in roots ==> id in m
    ensures r == VisitRoots(bps, rank, m, roots)
  {
    r := m;
    var i := 0;
    while i < |roots|
      invariant 0 <= i <= |roots|
      invariant r == VisitRoots(bps, rank, m, roots[..i])
    {
      assert roots[..i + 1][..i] == roots[..i];
      var res := ComputeSectionVisibility(bps, rank, r, roots[i]);
      if res.Ok? {
        r := res.value.sections;
      }
      i := i + 1;
    }
    assert roots[..|roots|] == roots;
  }

  /** The registered section with id `id`. */
  function RegisteredById(sections: seq<RegisteredSection>, id: string): (r: Option<RegisteredSection>)
    ensures r.Some? <==> exists i :: 0 <= i < |sections| && sections[i].blueprint.id == id
    ensures r.Some? ==> r.value in sections && r.value.blueprint.id == id
  {
    if sections == [] then None
    else if sections[0].blueprint.id == id then Some(sections[0])
    else RegisteredById(sections[1..], id)
  }

  /** computeSectionCheckable on one section, when it is registered. */
  function CheckStep(sections: seq<RegisteredSection>, m: map<string, SectionInstance>, id: string): (r: map<string, SectionInstance>)
    ensures r.Keys == m.Keys
    ensures forall k :: k in m && k != id ==> r[k] == m[k]
  {
    var registered := RegisteredById(sections, id);
    if id !in m || registered.None? then m
    else m[id := m[id].(checkable := CheckableFor(registered.value.checkedItemIds, m[id].visibleDescendantItemIds))]
  }

  /** computeSectionCheckable on the sections listed in `order`. */
  function CheckAll(sections: seq<RegisteredSection>, m: map<string, SectionInstance>, order: seq<string>): (r: map<string, SectionInstance>)
    ensures r.Keys == m.Keys
  {
    if order == [] then m
    else CheckStep(sections, CheckAll(sections, m, order[..|order| - 1]), order[|order| - 1])
  }

  /**
   * Every listed section of a registered blueprint gets the check box its makeCheckable asks for;
   * every other section stays as it is.
   */
  lemma {:induction false} CheckAllMeaning(sections: seq<RegisteredSection>, m: map<string, SectionInstance>, order: seq<string>)
    requires Distinct(order)
    ensures forall id :: id in m ==>
      (CheckAll(sections, m, order)[id]
         == if id in order && RegisteredById(sections, id).Some?
            then m[id].(checkable := CheckableFor(RegisteredById(sections, id).value.checkedItemIds, m[id].visibleDescendantItemIds))
            else m[id])
  {
    if order != [] {
      var prefix := order[..|order| - 1];
      var id := order[|order| - 1];
      assert forall i :: 0 <= i < |prefix| ==> prefix[i] != id;
      CheckAllMeaning(sections, m, prefix);
      assert order == prefix + [id];
    }
  }

  lemma CheckAllSnoc(sections: seq<RegisteredSection>, m: map<string, SectionInstance>, order: seq<string>, id: string)
    ensures CheckAll(sections, m, order + [id]) == CheckStep(sections, CheckAll(sections, m, order), id)
  {
    assert (order + [id])[..|order|] == order;
  }

  method ComputeCheckables(sections: seq<RegisteredSection>, m: map<string, SectionInstance>, order: seq<string>)
    returns (r: map<string, SectionInstance>)
    ensures r == CheckAll(sections, m, order)
  {
    r := m;
    ghost var done: seq<string> := [];
    var i := 0;
    while i < |order|
      invariant 0 <= i <= |order|
      invariant done == order[..i]
      invariant r == CheckAll(sections, m, done)
    {
      var id := order[i];
      assert order[..i + 1] == done + [id];
      CheckAllSnoc(sections, m, done, id);
      var registered := RegisteredById(sections, id);
      if id in r && registered.Some? {
        var sec := ComputeSectionCheckable(registered.value.checkedItemIds, r[id]);
        r := r[id := sec];
      }
      done := done + [id];
      i := i + 1;
    }
    assert done == order;
  }

  // ---------------------------------------------------------------------------
  // processSectionBlueprints and the middleware
  // ---------------------------------------------------------------------------

  /** The navigator instance state processSectionBlueprints assembles once the scan found a change. */
  function Processed(bps: map<string, Blueprint>, ghost rank: string -> nat, sections: seq<RegisteredSection>, scan: ScopeScan)
    : (r: NavigatorInstanceState)
    requires Registry(sections, bps, rank)
    ensures EnumeratesKeys(r.sectionInstanceMap.order, r.sectionInstanceMap.entries)
    ensures EnumeratesKeys(r.itemInstanceMap.order, r.itemInstanceMap.entries)
  {
    var built := BuildInstances(sections, scan.isChangedByScopeKey);
    BuildInstancesKeys(sections, scan.isChangedByScopeKey);
    var sm := built.sectionInstanceMap;
    var visited := VisitRoots(bps, rank, sm.entries, Roots(bps, sm.order));
    NavigatorInstanceState(Record(sm.order, CheckAll(sections, visited, sm.order)), built.itemInstanceMap)
  }

  /** The final step: nothing is dispatched for an empty state or one that the navigator already holds. */
  function Dispatched(navigatorState: NavigatorInstanceState, next: NavigatorInstanceState): Option<NavigatorInstanceState> {
    if |next.itemInstanceMap.order| == 0 && |next.sectionInstanceMap.order| == 0 then None
    else if HasNavigatorInstanceStateChanged(navigatorState, next) then Some(next)
    else None
  }

  /** What one run of processSectionBlueprints dispatches. */
  function ProcessOutcome(bps: map<string, Blueprint>, ghost rank: string -> nat, sections: seq<RegisteredSection>,
                          navigatorState: NavigatorInstanceState, cache: map<string, ScopeValue>): Option<NavigatorInstanceState>
    requires Registry(sections, bps, rank)
  {
    var scan := Scan(cache, sections);
    if NothingChanged(scan.isChangedByScopeKey) then None
    else Dispatched(navigatorState, Processed(bps, rank, sections, scan))
  }

  /**
   * processSectionBlueprints, with the scope cache stored after the scan (as written the cache is
   * never stored; see ChangedAsWritten).
   */
  method ProcessSectionBlueprints(bps: map<string, Blueprint>, ghost rank: string -> nat, sections: seq<RegisteredSection>,
                                  navigatorState: NavigatorInstanceState, cache: map<string, ScopeValue>)
    returns (dispatched: Option<NavigatorInstanceState>, newCache: map<string, ScopeValue>)
    requires Registry(sections, bps, rank)
    ensures newCache == CacheAfterScan(cache, Scan(cache, sections))
    ensures dispatched == ProcessOutcome(bps, rank, sections, navigatorState, cache)
  {
    var scan, keysBySection := ScanScopes(cache, sections);
    newCache := cache + scan.fullScope;
    if NothingChanged(scan.isChangedByScopeKey) {
      return None, newCache;
    }
    var next := AssembleInstances(bps, rank, sections, keysBySection, scan);
    assert ProcessOutcome(bps, rank, sections, navigatorState, cache) == Dispatched(navigatorState, next);
    dispatched := DispatchIfChanged(navigatorState, next);
  }

  /** The part of processSectionBlueprints after the scan: build, compute visibility, then the check boxes. */
  method AssembleInstances(bps: map<string, Blueprint>, ghost rank: string -> nat, sections: seq<RegisteredSection>,
                           keysBySection: map<string, seq<string>>, scan: ScopeScan)
    returns (next: NavigatorInstanceState)
    requires Registry(sections, bps, rank)
    requires keysBySection == KeysBySection(sections)
    ensures next == Processed(bps, rank, sections, scan)
  {
    KeysBySectionMeaning(sections);
    var built := BuildSectionInstances(sections, keysBySection, scan.isChangedByScopeKey);
    BuildInstancesKeys(sections, scan.isChangedByScopeKey);
    var sm := built.sectionInstanceMap;
    forall id | id in sm.entries
      ensures id in bps
    {
      var i :| 0 <= i < |sections| && sections[i].blueprint.id == id && Rebuilt(scan.isChangedByScopeKey, sections[i]);
    }
    var roots := Roots(bps, sm.order);
    var visited := ComputeRootsVisibility(bps, rank, sm.entries, roots);
    var checked := ComputeCheckables(sections, visited, sm.order);
    next := NavigatorInstanceState(Record(sm.order, checked), built.itemInstanceMap);
  }

  /** The end of processSectionBlueprints: return on an empty state, dispatch a changed one. */
  method DispatchIfChanged(navigatorState: NavigatorInstanceState, next: NavigatorInstanceState)
    returns (dispatched: Option<NavigatorInstanceState>)
    ensures dispatched == Dispatched(navigatorState, next)
  {
    if |next.itemInstanceMap.order| == 0 && |next.sectionInstanceMap.order| == 0 {
      return None;
    }
    if HasNavigatorInstanceStateChanged(navigatorState, next) {
      dispatched := Some(next);
    } else {
      dispatched := None;
    }
  }

  /**
   * The dispatched sections are exactly the rebuilt ones, each with the check box its blueprint's
   * makeCheckable asks for over the visible descendant items found for it.
   */
  lemma ProcessedSections(bps: map<string, Blueprint>, rank: string -> nat, sections: seq<RegisteredSection>, scan: ScopeScan)
    requires Registry(sections, bps, rank)
    ensures var r := Processed(bps, rank, sections, scan).sectionInstanceMap.entries;
      && r.Keys == RebuiltIds(sections, scan.isChangedByScopeKey)
      && forall id :: id in r ==>
           && RegisteredById(sections, id).Some?
           && r[id].checkable == CheckableFor(RegisteredById(sections, id).value.checkedItemIds, r[id].visibleDescendantItemIds)
  {
    var built := BuildInstances(sections, scan.isChangedByScopeKey);
    BuildInstancesKeys(sections, scan.isChangedByScopeKey);
    var sm := built.sectionInstanceMap;
    forall id | id in sm.entries
      ensures id in bps && RegisteredById(sections, id).Some?
    {
      var i :| 0 <= i < |sections| && sections[i].blueprint.id == id && Rebuilt(scan.isChangedByScopeKey, sections[i]);
    }
    var visited := VisitRoots(bps, rank, sm.entries, Roots(bps, sm.order));
    var r := CheckAll(sections, visited, sm.order);
    CheckAllMeaning(sections, visited, sm.order);
    forall id | id in r
      ensures r[id].checkable == CheckableFor(RegisteredById(sections, id).value.checkedItemIds, r[id].visibleDescendantItemIds)
    {
      assert id in sm.order;
    }
  }

  /**
   * Something is dispatched exactly when the new state is not empty and holds a section or item
   * instance the navigator does not already hold as it is; what is dispatched is the new state.
   */
  lemma DispatchedMeaning(navigatorState: NavigatorInstanceState, next: NavigatorInstanceState)
    requires EnumeratesKeys(navigatorState.itemInstanceMap.order, navigatorState.itemInstanceMap.entries)
    requires EnumeratesKeys(navigatorState.sectionInstanceMap.order, navigatorState.sectionInstanceMap.entries)
    requires EnumeratesKeys(next.itemInstanceMap.order, next.itemInstanceMap.entries)
    requires EnumeratesKeys(next.sectionInstanceMap.order, next.sectionInstanceMap.entries)
    ensures Dispatched(navigatorState, next).Some? <==>
      && (|next.itemInstanceMap.entries| > 0 || |next.sectionInstanceMap.entries| > 0)
      && (|| !AlreadyStored(next.itemInstanceMap.entries, navigatorState.itemInstanceMap.entries)
          || !AlreadyStored(next.sectionInstanceMap.entries, navigatorState.sectionInstanceMap.entries))
    ensures Dispatched(navigatorState, next).Some? ==> Dispatched(navigatorState, next).value == next
  {
    HasNavigatorInstanceStateChangedMeaning(navigatorState, next);
    EmptyOrderEmptyMap(next.itemInstanceMap);
    EmptyOrderEmptyMap(next.sectionInstanceMap);
  }

  lemma EmptyOrderEmptyMap<V>(rec: Record<V>)
    requires EnumeratesKeys(rec.order, rec.entries)
    ensures |rec.order| == 0 <==> |rec.entries| == 0
  {
    if |rec.order| > 0 {
      assert rec.order[0] in rec.entries;
    }
  }

  /** The action types the middleware ignores: the navigator's own actions. */
  const UPDATE_NAVIGATOR_INSTANCE_STATE := "navigator/updateNavigatorInstanceState"
  const EXPAND_SECTION_IDS := "navigator/expandSectionIds"
  const COLLAPSE_SECTION_IDS := "navigator/collapseSectionIds"

  predicate IgnoredAction(actionType: Option<string>) {
    actionType in {Some(UPDATE_NAVIGATOR_INSTANCE_STATE), Some(EXPAND_SECTION_IDS), Some(COLLAPSE_SECTION_IDS)}
  }

  /**
   * sectionBlueprintMiddleware, after the action has been passed on: the navigator's own actions
   * change no section scope and are ignored; every other action (or none) processes the blueprints.
   */
  method SectionBlueprintMiddleware(actionType: Option<string>, bps: map<string, Blueprint>, ghost rank: string -> nat,
                                    sections: seq<RegisteredSection>, navigatorState: NavigatorInstanceState,
                                    cache: map<string, ScopeValue>)
    returns (dispatched: Option<NavigatorInstanceState>, newCache: map<string, ScopeValue>)
    requires Registry(sections, bps, rank)
    ensures IgnoredAction(actionType) ==> dispatched.None? && newCache == cache
    ensures !IgnoredAction(actionType) ==>
      dispatched == ProcessOutcome(bps, rank, sections, navigatorState, cache)
      && newCache == CacheAfterScan(cache, Scan(cache, sections))
  {
    if actionType == Some(UPDATE_NAVIGATOR_INSTANCE_STATE) || actionType == Some(EXPAND_SECTION_IDS)
       || actionType == Some(COLLAPSE_SECTION_IDS) {
      return None, cache;
    }
    dispatched, newCache := ProcessSectionBlueprints(bps, rank, sections, navigatorState, cache);
  }
}
