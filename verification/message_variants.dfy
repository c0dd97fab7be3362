/** The A/B variants panel (src/components/campaigns/sequence/MessageVariants.tsx):
    add, edit, guarded remove, duplicate into the remaining weight budget,
    and the weight clamp. Weights are never renormalised here. */
module MessageVariants {
  import opened Options
  import opened Seqs
  import opened CampaignTypes

  /** A `Partial<Variant>`. */
  datatype VariantPatch = VariantPatch(id: Option<string>, content: Option<string>, weight: Option<int>)

  /** `variants.reduce((sum, v) => sum + v.weight, 0)`: the displayed total,
      added up from the front as the left fold does. It is a plain sum: with
      every weight in range it lies between 0 and 100 per variant, and nothing
      forces it to be 100. */
  function TotalWeight(vs: seq<Variant>): (total: int)
    ensures WeightsInRange(vs) ==> 0 <= total <= 100 * |vs|
  {
    if |vs| == 0 then 0
    else
      assert WeightsInRange(vs) ==> WeightsInRange(vs[..|vs| - 1]);
      TotalWeight(vs[..|vs| - 1]) + vs[|vs| - 1].weight
  }

  /** The total of two lists shown one after the other is the sum of their
      totals. */
  lemma {:induction false} TotalWeightConcat(a: seq<Variant>, b: seq<Variant>)
    ensures TotalWeight(a + b) == TotalWeight(a) + TotalWeight(b)
    decreases |b|
  {
    if |b| == 0 {
      assert a + b == a;
    } else {
      assert (a + b)[..|a + b| - 1] == a + b[..|b| - 1];
      TotalWeightConcat(a, b[..|b| - 1]);
    }
  }

  predicate UniqueIds(vs: seq<Variant>) {
    forall i, j :: 0 <= i < j < |vs| ==> vs[i].id != vs[j].id
  }

  predicate WeightsInRange(vs: seq<Variant>) {
    forall i :: 0 <= i < |vs| ==> 0 <= vs[i].weight <= 100
  }

  /** Sum of a list of variants that all carry the same weight. */
  lemma {:induction false} TotalOfEqualWeights(vs: seq<Variant>, w: int)
    requires forall i :: 0 <= i < |vs| ==> vs[i].weight == w
    ensures TotalWeight(vs) == |vs| * w
  {
    if |vs| > 0 {
      TotalOfEqualWeights(vs[..|vs| - 1], w);
      MulStep(|vs|, w);
    }
  }

  lemma MulStep(n: int, w: int)
    ensures (n - 1) * w + w == n * w
  {
  }

  /** `addVariant`: one empty variant of weight 50 goes at the end; the others
      are left as they were, so the total grows by exactly 50. */
  function AddVariant(vs: seq<Variant>, freshId: string): (r: seq<Variant>)
    ensures |r| == |vs| + 1 && r[..|vs|] == vs
    ensures r[|vs|] == Variant(freshId, "", 50)
    ensures TotalWeight(r) == TotalWeight(vs) + 50
  {
    var r := vs + [Variant(freshId, "", 50)];
    assert r[..|r| - 1] == vs;
    r
  }

  /** `{ ...v, ...updates }`. */
  function ApplyPatch(v: Variant, p: VariantPatch): Variant {
    Variant(Override(v.id, p.id), Override(v.content, p.content), Override(v.weight, p.weight))
  }

  /** `updateVariant`: only variants with the matching id change; length and
      order are kept. */
  function UpdateVariant(vs: seq<Variant>, id: string, updates: VariantPatch): (r: seq<Variant>)
    ensures |r| == |vs|
    ensures forall i :: 0 <= i < |vs| && vs[i].id != id ==> r[i] == vs[i]
    ensures forall i :: 0 <= i < |vs| && vs[i].id == id ==> r[i] == ApplyPatch(vs[i], updates)
  {
    seq(|vs|, i requires 0 <= i < |vs| => if vs[i].id == id then ApplyPatch(vs[i], updates) else vs[i])
  }

  /** An update naming no variant changes nothing. */
  lemma UpdateVariantUnknownId(vs: seq<Variant>, id: string, updates: VariantPatch)
    requires forall i :: 0 <= i < |vs| ==> vs[i].id != id
    ensures UpdateVariant(vs, id, updates) == vs
  {
  }

  /** Sending the same partial twice is sending it once, even when the partial
      renames the variant: the renamed variant no longer matches the id. */
  lemma UpdateVariantIdempotent(vs: seq<Variant>, id: string, updates: VariantPatch)
    ensures UpdateVariant(UpdateVariant(vs, id, updates), id, updates) == UpdateVariant(vs, id, updates)
  {
    var once := UpdateVariant(vs, id, updates);
    var twice := UpdateVariant(once, id, updates);
    forall i | 0 <= i < |vs| ensures twice[i] == once[i] {
      if vs[i].id == id && once[i].id == id {
        OverrideIdempotent(vs[i].content, updates.content);
        OverrideIdempotent(vs[i].weight, updates.weight);
      }
    }
  }

  function KeepVariant(id: string): Variant -> bool {
    (v: Variant) => v.id != id
  }

  /** `removeVariant`: refused while at most one variant exists; otherwise every
      variant with that id goes and the others stay in order. With distinct ids
      a non-empty list therefore never becomes empty. */
  function RemoveVariant(vs: seq<Variant>, id: string): (r: seq<Variant>)
    ensures |vs| <= 1 ==> r == vs
    ensures |vs| > 1 ==> forall i :: 0 <= i < |r| ==> r[i].id != id
    ensures forall i :: 0 <= i < |vs| && vs[i].id != id ==> vs[i] in r
    ensures Subsequence(r, vs)
    ensures |vs| > 1 ==> forall v :: multiset(r)[v] == if v.id != id then multiset(vs)[v] else 0
    ensures UniqueIds(vs) && |vs| >= 1 ==> |r| >= 1
  {
    if |vs| > 1 then
      assert UniqueIds(vs) ==> vs[0].id != id || vs[1].id != id;
      FilterCounts(vs, KeepVariant(id));
      Filter(vs, KeepVariant(id))
    else vs
  }

  /** Removing a present id from several variants with distinct ids removes
      exactly one. */
  lemma RemoveVariantCount(vs: seq<Variant>, id: string)
    requires UniqueIds(vs) && |vs| > 1
    requires exists i :: 0 <= i < |vs| && vs[i].id == id
    ensures |RemoveVariant(vs, id)| == |vs| - 1
  {
    var k :| 0 <= k < |vs| && vs[k].id == id;
    var keep := KeepVariant(id);
    var a, b := vs[..k], vs[k + 1..];
    assert vs == a + [vs[k]] + b;
    forall i | 0 <= i < |a + b| ensures keep((a + b)[i]) {
      if i < k {
        assert (a + b)[i] == vs[i];
      } else {
        assert (a + b)[i] == vs[i + 1];
      }
    }
    FilterSkips(a, vs[k], b, keep);
    FilterKeepsAll(a + b, keep);
  }

  /** `duplicateVariant`: a copy of `v` with a fresh id and the weight left in
      the 100 budget (never negative) goes at the end; the total becomes the
      larger of the old total and 100. */
  function DuplicateVariant(vs: seq<Variant>, v: Variant, freshId: string): (r: seq<Variant>)
    ensures |r| == |vs| + 1 && r[..|vs|] == vs
    ensures r[|vs|].id == freshId && r[|vs|].content == v.content
    ensures r[|vs|].weight >= 0
    ensures TotalWeight(vs) <= 100 ==> r[|vs|].weight == 100 - TotalWeight(vs)
    ensures TotalWeight(vs) >= 100 ==> r[|vs|].weight == 0
    ensures TotalWeight(r) == if TotalWeight(vs) >= 100 then TotalWeight(vs) else 100
  {
    var remaining := 100 - TotalWeight(vs);
    var r := vs + [v.(id := freshId, weight := if remaining > 0 then remaining else 0)];
    assert r[..|r| - 1] == vs;
    r
  }

  /** `Math.min(100, Math.max(0, w))`. */
  function ClampWeight(w: int): (r: int)
    ensures 0 <= r <= 100
    ensures 0 <= w <= 100 ==> r == w
    ensures w < 0 ==> r == 0
    ensures w > 100 ==> r == 100
  {
    var low := if w > 0 then w else 0;
    if low < 100 then low else 100
  }

  /** Editing a weight field: the typed number is clamped and written into
      the matching variant, every other variant is left as it was, and
      weights in range stay in range. */
  function SetWeight(vs: seq<Variant>, id: string, typed: int): (r: seq<Variant>)
    ensures |r| == |vs|
    ensures forall i :: 0 <= i < |vs| ==> r[i].id == vs[i].id && r[i].content == vs[i].content
    ensures forall i :: 0 <= i < |vs| && vs[i].id == id ==> r[i].weight == ClampWeight(typed)
    ensures forall i :: 0 <= i < |vs| && vs[i].id != id ==> r[i] == vs[i]
    ensures WeightsInRange(vs) ==> WeightsInRange(r)
  {
    UpdateVariant(vs, id, VariantPatch(None, None, Some(ClampWeight(typed))))
  }

  /** Adding a variant to a set that sums to 100 over-subscribes it to 150:
      the panel never renormalises. */
  lemma AddVariantOversubscribes(vs: seq<Variant>, freshId: string)
    requires TotalWeight(vs) == 100
    ensures TotalWeight(AddVariant(vs, freshId)) == 150
  {
  }
}
