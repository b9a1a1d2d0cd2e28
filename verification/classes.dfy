/** Semantic classes of the segmentation and the class-name to label-id map. */
module Classes {
  import opened Results

  const YellowLane: string := "yellow-lane"
  const WhiteLane: string := "white-lane"
  const Duckiebot: string := "duckiebot"
  const Duck: string := "duck"
  const Sign: string := "sign"

  /** The mapping from class name to the integer label the segmentation uses. */
  type ClassMap = map<string, int>

  /** Looking up `names` in order, the first one that is not a key of `cm`.
      This is the key whose lookup raises first when the source indexes the map. */
  function FirstMissing(cm: ClassMap, names: seq<string>): (r: Option<string>)
    ensures r.None? <==> forall k :: 0 <= k < |names| ==> names[k] in cm
    ensures r.Some? ==>
      exists k :: 0 <= k < |names| && names[k] == r.value && r.value !in cm
        && forall p :: 0 <= p < k ==> names[p] in cm
    decreases |names|
  {
    if |names| == 0 then None
    else if names[0] !in cm then Some(names[0])
    else
      var r := FirstMissing(cm, names[1..]);
      assert r.None? ==> forall k :: 0 <= k < |names| ==> names[k] in cm by {
        if r.None? {
          forall k | 0 <= k < |names| ensures names[k] in cm {
            if k > 0 { assert names[k] == names[1..][k - 1]; }
          }
        }
      }
      assert r.Some? ==>
        exists k :: 0 <= k < |names| && names[k] == r.value && r.value !in cm
          && forall p :: 0 <= p < k ==> names[p] in cm
      by {
        if r.Some? {
          var k :| 0 <= k < |names[1..]| && names[1..][k] == r.value && r.value !in cm
            && forall p :: 0 <= p < k ==> names[1..][p] in cm;
          assert names[k + 1] == r.value;
          forall p | 0 <= p < k + 1 ensures names[p] in cm {
            if p > 0 { assert names[p] == names[1..][p - 1]; }
          }
        }
      }
      r
  }

  /** The first missing name is determined by position alone: any missing name
      whose predecessors are all present is the one reported. */
  lemma FirstMissingAt(cm: ClassMap, names: seq<string>, p: nat)
    requires p < |names| && names[p] !in cm
    requires forall q :: 0 <= q < p ==> names[q] in cm
    ensures FirstMissing(cm, names) == Some(names[p])
  {
    var r := FirstMissing(cm, names);
    var k :| 0 <= k < |names| && names[k] == r.value && r.value !in cm
      && forall q :: 0 <= q < k ==> names[q] in cm;
    assert k == p;
  }

  /** `FirstMissingAt` for every position at once. */
  lemma FirstMissingUnique(cm: ClassMap, names: seq<string>)
    ensures forall p :: 0 <= p < |names| && names[p] !in cm && (forall q :: 0 <= q < p ==> names[q] in cm) ==>
      FirstMissing(cm, names) == Some(names[p])
  {
    forall p | 0 <= p < |names| && names[p] !in cm && (forall q :: 0 <= q < p ==> names[q] in cm)
      ensures FirstMissing(cm, names) == Some(names[p])
    {
      FirstMissingAt(cm, names, p);
    }
  }

  /** Every name in `names` is a key of `cm`, and no two of them share a label id. */
  predicate DistinctIds(cm: ClassMap, names: set<string>) {
    && (forall a :: a in names ==> a in cm)
    && (forall a, b :: a in names && b in names && a != b && a in cm && b in cm ==> cm[a] != cm[b])
  }

  /** The weight a per-class weight table gives to a pixel labelled `l`: the weight
      of the class whose id is `l`, or 0 when no class of the table has that id.
      This is the reference reading of a weighted servoing mask. */
  ghost function TableWeight(table: map<string, real>, cm: ClassMap, l: int): real {
    if exists c :: c in table && c in cm && cm[c] == l then
      var c :| c in table && c in cm && cm[c] == l; table[c]
    else 0.0
  }

  lemma TableWeightOfClass(table: map<string, real>, cm: ClassMap, c: string)
    requires DistinctIds(cm, table.Keys)
    requires c in table
    ensures TableWeight(table, cm, cm[c]) == table[c]
  {
    var c' :| c' in table && c' in cm && cm[c'] == cm[c];
    assert c' == c;
  }

  lemma TableWeightOfOther(table: map<string, real>, cm: ClassMap, l: int)
    requires forall c :: c in table && c in cm ==> cm[c] != l
    ensures TableWeight(table, cm, l) == 0.0
  {
  }
}
