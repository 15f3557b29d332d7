/**
 * Seed randomisation in `benchmark_workflow` (scripts/benchmark_workflows.py):
 * before a run, every node that has an `inputs` object gets fresh values for
 * its `seed` and `noise_seed` inputs, where present. A workflow is an
 * ordered list of (node id, node) pairs, as the JSON object is iterated.
 * The random generator is a parameter: `rng(k)` is the k-th number drawn.
 */
module Seeds {
  import opened Options

  /** The upper end of `random.randint(1, 100000000000000)`. */
  const MaxSeed: int := 100000000000000

  /** A number `random.randint(1, MaxSeed)` can return. */
  type Seed = x: int | 1 <= x <= MaxSeed witness 1

  /** The input keys that are re-drawn, in the order they are visited. */
  const SeedKeys: seq<string> := ["seed", "noise_seed"]

  /** A JSON value. */
  datatype Value =
    | Null
    | Bool(b: bool)
    | Num(n: int)
    | Frac(r: real)
    | Text(s: string)
    | List(items: seq<Value>)
    | Object(fields: map<string, Value>)

  /** A workflow node: its `inputs` object, if it has one, and every other key. */
  datatype Node = Node(inputs: Option<map<string, Value>>, rest: map<string, Value>)

  type Workflow = seq<(string, Node)>

  predicate IsFreshSeed(v: Value)
  {
    v.Num? && 1 <= v.n <= MaxSeed
  }

  predicate HasSlot(node: Node, key: string)
  {
    node.inputs.Some? && key in node.inputs.value
  }

  /** Every (node position, key) pair whose value gets re-drawn. */
  ghost function Slots(wf: Workflow, upTo: nat): set<(nat, string)>
    requires upTo <= |wf|
  {
    set j: nat, k | j < upTo && k in SeedKeys && HasSlot(wf[j].1, k) :: (j, k)
  }

  /** `after` differs from `before` at most in the seed keys, which now hold fresh seeds. */
  predicate OnlySeedsRedrawn(before: map<string, Value>, after: map<string, Value>)
  {
    && after.Keys == before.Keys
    && (forall k :: k in before && k !in SeedKeys ==> after[k] == before[k])
    && (forall k :: k in before && k in SeedKeys ==> IsFreshSeed(after[k]))
  }

  /** One node: each present seed key, in order, takes the next draw. */
  function RedrawNode(node: Node, rng: nat -> Seed, next: nat): (r: (Node, nat))
    ensures r.0.rest == node.rest
    ensures r.0.inputs.Some? == node.inputs.Some?
    ensures node.inputs.None? ==> r.0 == node && r.1 == next
    ensures node.inputs.Some? ==> OnlySeedsRedrawn(node.inputs.value, r.0.inputs.value)
    ensures r.1 == next + |set k | k in SeedKeys && HasSlot(node, k)|
  {
    match node.inputs
    case None =>
      assert (set k | k in SeedKeys && HasSlot(node, k)) == {};
      (node, next)
    case Some(m) =>
      var (a, n1) := if "seed" in m then (m["seed" := Num(rng(next))], next + 1) else (m, next);
      var (b, n2) := if "noise_seed" in a then (a["noise_seed" := Num(rng(n1))], n1 + 1) else (a, n1);
      PresentKeysCount(node);
      (Node(Some(b), node.rest), n2)
  }

  lemma PresentKeysCount(node: Node)
    requires node.inputs.Some?
    ensures |set k | k in SeedKeys && HasSlot(node, k)| ==
      (if "seed" in node.inputs.value then 1 else 0) + (if "noise_seed" in node.inputs.value then 1 else 0)
  {
    var m := node.inputs.value;
    var present := set k | k in SeedKeys && HasSlot(node, k);
    if "seed" in m && "noise_seed" in m {
      assert present == {"seed", "noise_seed"};
    } else if "seed" in m {
      assert present == {"seed"};
    } else if "noise_seed" in m {
      assert present == {"noise_seed"};
    } else {
      assert present == {};
    }
  }

  /** Adding node `i` adds exactly its present seed keys to the slots. */
  lemma SlotsStep(wf: Workflow, i: nat)
    requires i < |wf|
    ensures |Slots(wf, i + 1)| == |Slots(wf, i)| + |set k | k in SeedKeys && HasSlot(wf[i].1, k)|
  {
    var node := wf[i].1;
    var s0 := Slots(wf, i);
    var s1 := Slots(wf, i + 1);
    var added := set k | k in SeedKeys && HasSlot(node, k) :: (i, k);
    forall p | p in s1
      ensures p in s0 || p in added
    {
      if p.0 < i {
        assert p in s0;
      }
    }
    assert s1 == s0 + added;
    forall p | p in added
      ensures p !in s0
    {
    }
    AddedCount(node, i);
  }

  lemma AddedCount(node: Node, i: nat)
    ensures |set k | k in SeedKeys && HasSlot(node, k) :: (i, k)| == |set k | k in SeedKeys && HasSlot(node, k)|
  {
    var present := set k | k in SeedKeys && HasSlot(node, k);
    var added := set k | k in SeedKeys && HasSlot(node, k) :: (i, k);
    if HasSlot(node, "seed") && HasSlot(node, "noise_seed") {
      assert present == {"seed", "noise_seed"};
      assert added == {(i, "seed"), (i, "noise_seed")};
    } else if HasSlot(node, "seed") {
      assert present == {"seed"};
      assert added == {(i, "seed")};
    } else if HasSlot(node, "noise_seed") {
      assert present == {"noise_seed"};
      assert added == {(i, "noise_seed")};
    } else {
      assert present == {};
      assert added == {};
    }
  }

  /**
   * What randomisation does to one (id, node) pair: the id and the non-input
   * keys stay, a node without inputs is untouched, and the inputs change
   * only in their seed keys, which hold fresh seeds.
   */
  predicate NodeRedrawn(before: (string, Node), after: (string, Node))
  {
    && after.0 == before.0
    && after.1.rest == before.1.rest
    && after.1.inputs.Some? == before.1.inputs.Some?
    && (before.1.inputs.None? ==> after == before)
    && (before.1.inputs.Some? ==> OnlySeedsRedrawn(before.1.inputs.value, after.1.inputs.value))
  }

  /**
   * The randomisation loop. Node ids, node order, non-input keys and
   * non-seed inputs are untouched; every present seed key holds a fresh
   * seed; `updated` counts the (node, key) pairs that were present.
   */
  method RandomizeSeeds(wf: Workflow, rng: nat -> Seed) returns (out: Workflow, updated: nat)
    ensures |out| == |wf|
    ensures forall i :: 0 <= i < |wf| ==> NodeRedrawn(wf[i], out[i])
    ensures updated == |Slots(wf, |wf|)|
  {
    out := [];
    updated := 0;
    var i := 0;
    while i < |wf|
      invariant 0 <= i <= |wf|
      invariant |out| == i
      invariant forall j :: 0 <= j < i ==> NodeRedrawn(wf[j], out[j])
      invariant updated == |Slots(wf, i)|
    {
      var (node, next) := RedrawNode(wf[i].1, rng, updated);
      assert NodeRedrawn(wf[i], (wf[i].0, node));
      SlotsStep(wf, i);
      out := out + [(wf[i].0, node)];
      updated := next;
      i := i + 1;
    }
  }

  /** The `if randomize_seed:` guard: without it the workflow is sent as loaded. */
  method PrepareWorkflow(wf: Workflow, randomize: bool, rng: nat -> Seed)
    returns (out: Workflow, updated: nat)
    ensures !randomize ==> out == wf && updated == 0
    ensures randomize ==> updated == |Slots(wf, |wf|)| && |out| == |wf|
    ensures randomize ==> forall i :: 0 <= i < |wf| ==> NodeRedrawn(wf[i], out[i])
  {
    if randomize {
      out, updated := RandomizeSeeds(wf, rng);
    } else {
      out, updated := wf, 0;
    }
  }
}
