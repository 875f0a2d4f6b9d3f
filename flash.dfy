/** createFlashingEffect: on a correct placement each revealed node alternates
    between a green emissive material and its original one, driven by a chain of
    timer callbacks, and ends with its original material. Each timer callback is
    an explicit `Step`. */
module Flash {
  import opened Scene

  /** A material value. MeshStandardMaterial copies the color of the material it
      highlights; `originalMaterials` keeps a clone (an equal value). */
  datatype Material = AssetMaterial(tag: nat) | Highlight(base: Material)

  /** The scene's materials (`organ.material`) and the `originalMaterials` cache. */
  class Materials {
    var current: map<NodeId, Material>
    var originals: map<NodeId, Material>

    constructor (current: map<NodeId, Material>)
      ensures this.current == current && originals == map[]
    {
      this.current := current;
      originals := map[];
    }
  }

  const MaxFlashes: nat := 3

  /** The material applied by the `k`-th call of the `flash` closure
      (`k` = the value of `flashCount` when it runs). */
  function Scheduled(k: nat, flash: Material, original: Material): Material
    requires k <= 2 * MaxFlashes
  {
    if k < 2 * MaxFlashes && k % 2 == 0 then flash else original
  }

  /** Every assignment of one effect, from the first call to the final restore. */
  function Schedule(flash: Material, original: Material): (r: seq<Material>)
    ensures |r| == 2 * MaxFlashes + 1
  {
    seq(2 * MaxFlashes + 1, k requires 0 <= k < 2 * MaxFlashes + 1 => Scheduled(k, flash, original))
  }

  /** flash, original, flash, original, flash, original, then the restore,
      which leaves the original material. */
  lemma ScheduleShape(flash: Material, original: Material)
    ensures Schedule(flash, original) == [flash, original, flash, original, flash, original, original]
    ensures Schedule(flash, original)[2 * MaxFlashes] == original
  {
    var s := Schedule(flash, original);
    assert s[0] == flash && s[1] == original && s[2] == flash && s[3] == original;
    assert s[4] == flash && s[5] == original && s[6] == original;
  }

  /** Exactly three of the assignments are the highlight. */
  lemma ScheduleFlashesThrice(flash: Material, original: Material)
    requires flash != original
    ensures multiset(Schedule(flash, original))[flash] == MaxFlashes
  {
    ScheduleShape(flash, original);
    var pair := [flash, original];
    assert Schedule(flash, original) == pair + pair + pair + [original];
    assert multiset(pair)[flash] == 1;
  }

  /** A highlight is never the material it was built from. */
  lemma {:induction false} HighlightDiffers(m: Material)
    ensures Highlight(m) != m
  {
    match m
    case AssetMaterial(_) =>
    case Highlight(b) => HighlightDiffers(b);
  }

  /** One flashing effect on one node: the state of the `flash` closure. */
  class FlashingEffect {
    const store: Materials
    const node: NodeId
    const flashMaterial: Material
    const original: Material
    var flashCount: nat
    /** A `setTimeout(flash, 200)` is outstanding. */
    var pending: bool
    /** The materials applied to the node so far by this effect. */
    ghost var log: seq<Material>

    ghost predicate Valid()
      reads this, store
    {
      node in store.originals && store.originals[node] == original
      && node in store.current
      && 1 <= flashCount <= 2 * MaxFlashes
      && (!pending ==> flashCount == 2 * MaxFlashes)
      && log == Schedule(flashMaterial, original)[..flashCount + (if pending then 0 else 1)]
      && store.current[node] == log[|log| - 1]
    }

    /** createFlashingEffect(organ): cache the original material on the first
        call for this node only, build the highlight, and run the first flash. */
    constructor Start(store: Materials, node: NodeId)
      requires node in store.current
      modifies store
      ensures Valid() && pending && flashCount == 1
      ensures this.store == store && this.node == node
      ensures store.originals == if node in old(store.originals) then old(store.originals)
                                 else old(store.originals)[node := old(store.current)[node]]
      ensures original == store.originals[node]
      ensures flashMaterial == Highlight(old(store.current)[node])
      ensures node !in old(store.originals) ==> flashMaterial != original
      ensures store.current == old(store.current)[node := flashMaterial]
      ensures log == [flashMaterial]
    {
      this.store := store;
      this.node := node;
      flashMaterial := Highlight(store.current[node]);
      original := if node in store.originals then store.originals[node] else store.current[node];
      flashCount := 1;
      pending := true;
      log := [Highlight(store.current[node])];
      new;
      if node !in store.originals {
        store.originals := store.originals[node := store.current[node]];
      }
      store.current := store.current[node := flashMaterial];
      HighlightDiffers(old(store.current)[node]);
      assert Schedule(flashMaterial, original)[..1] == [flashMaterial];
    }

    /** One timer callback of the `flash` closure. */
    method Step() returns (applied: Material)
      requires Valid() && pending
      modifies this, store
      ensures Valid()
      ensures store.originals == old(store.originals)
      ensures applied == Scheduled(old(flashCount), flashMaterial, original)
      ensures store.current == old(store.current)[node := applied]
      ensures flashCount == if old(flashCount) < 2 * MaxFlashes then old(flashCount) + 1 else old(flashCount)
      ensures pending <==> old(flashCount) < 2 * MaxFlashes
      ensures log == old(log) + [applied]
      ensures !pending ==> log == Schedule(flashMaterial, original) && store.current[node] == original
    {
      var sched := Schedule(flashMaterial, original);
      if flashCount >= 2 * MaxFlashes {
        applied := store.originals[node];
        store.current := store.current[node := applied];
        pending := false;
      } else {
        applied := if flashCount % 2 == 0 then flashMaterial else store.originals[node];
        store.current := store.current[node := applied];
        flashCount := flashCount + 1;
      }
      assert sched[..|old(log)| + 1] == sched[..|old(log)|] + [sched[|old(log)|]];
      log := log + [applied];
    }
  }
}
