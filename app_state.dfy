/**
 * File entries, Helm records and the resource-map queries that the reducers and the
 * kustomization composer share.
 */
module AppModel {
  import opened Wrappers
  import opened K8sResource

  /** One path under the scanned root; `children` is present exactly for folders. */
  datatype FileEntry = FileEntry(filePath: string, name: string, children: Option<seq<string>>)

  datatype HelmValuesFile = HelmValuesFile(id: string, filePath: string, name: string, isSelected: bool, helmChartId: string)

  datatype HelmChart = HelmChart(id: string, filePath: string, name: string, valueFileIds: seq<string>)

  /** Ids of the resources stored in file `p`, in map order (the source's getResourcesForPath). */
  function ResourcesForPath(order: seq<string>, m: map<string, Resource>, p: string): seq<string> {
    if order == [] then []
    else
      var id := order[|order| - 1];
      ResourcesForPath(order[..|order| - 1], m, p) + (if id in m && m[id].filePath == p then [id] else [])
  }

  /** The ids found for a path are exactly the map's resources stored in that file, each once. */
  lemma {:induction false} ResourcesForPathMembers(order: seq<string>, m: map<string, Resource>, p: string)
    requires Distinct(order)
    ensures forall id :: id in ResourcesForPath(order, m, p) <==> id in order && id in m && m[id].filePath == p
    ensures Distinct(ResourcesForPath(order, m, p))
  {
    if order != [] {
      var prefix := order[..|order| - 1];
      ResourcesForPathMembers(prefix, m, p);
      assert order == prefix + [order[|order| - 1]];
      assert order[|order| - 1] !in prefix;
      var last := order[|order| - 1];
      assert last !in ResourcesForPath(prefix, m, p);
      var r0 := ResourcesForPath(prefix, m, p);
      var rs := ResourcesForPath(order, m, p);
      assert rs == r0 + (if last in m && m[last].filePath == p then [last] else []);
      forall i, j | 0 <= i < j < |rs| ensures rs[i] != rs[j] {
        if j >= |r0| {
          assert rs[j] == last && rs[i] == r0[i] && r0[i] in r0;
        } else {
          assert rs[i] == r0[i] && rs[j] == r0[j];
        }
      }
      assert prefix == order[..|order| - 1];
    }
  }

  /** The result depends only on the keys and file paths of the map. */
  lemma {:induction false} ResourcesForPathSamePaths(order: seq<string>, m1: map<string, Resource>, m2: map<string, Resource>, p: string)
    requires m1.Keys == m2.Keys
    requires forall k :: k in m1 ==> m1[k].filePath == m2[k].filePath
    ensures ResourcesForPath(order, m1, p) == ResourcesForPath(order, m2, p)
  {
    if order != [] {
      ResourcesForPathSamePaths(order[..|order| - 1], m1, m2, p);
    }
  }
}
