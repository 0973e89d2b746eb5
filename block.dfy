/**
 * Model of the id allocation in model/rbd/block.cc. The three statics of `Block`
 * (`max_allocated`, `reclaimed_ids`, `references`) become the fields of an explicit
 * registry object that every block refers to; a NULL table is `None`.
 */
module Blocks {
  import opened Optional

  /** The least element of a non-empty set of ids: the one `std::set::begin()` yields. */
  ghost function Smallest(ids: set<nat>): (least: nat)
    requires ids != {}
    ensures least in ids
    ensures forall id :: id in ids ==> least <= id
    decreases ids
  {
    var some :| some in ids;
    if ids == {some} then
      assert forall id :: id in ids ==> id in {some};
      some
    else
      var rest := Smallest(ids - {some});
      assert forall id :: id in ids && id != some ==> id in ids - {some};
      if some < rest then some else rest
  }

  /** The live-reference count of `id`; an id missing from the table has none. */
  function ReferenceCount(table: map<nat, nat>, id: nat): (count: nat)
    ensures count > 0 ==> id in table
  {
    if id in table then table[id] else 0
  }

  /** The blocks among `live` that hold `id`. */
  ghost function HoldersIn(live: set<Block>, id: nat): (holders: set<Block>)
  {
    set b | b in live && b.id == id
  }

  /** A block coming to life adds itself to the holders of its id and of no other. */
  lemma HoldersAdd(live: set<Block>, block: Block, id: nat)
    requires block !in live
    ensures |HoldersIn(live + {block}, id)| == |HoldersIn(live, id)| + (if block.id == id then 1 else 0)
  {
    if block.id == id {
      assert HoldersIn(live + {block}, id) == HoldersIn(live, id) + {block};
    } else {
      assert HoldersIn(live + {block}, id) == HoldersIn(live, id);
    }
  }

  /** A block going away removes itself from the holders of its id and of no other. */
  lemma HoldersRemove(live: set<Block>, block: Block, id: nat)
    requires block in live
    ensures |HoldersIn(live - {block}, id)| == |HoldersIn(live, id)| - (if block.id == id then 1 else 0)
  {
    if block.id == id {
      assert HoldersIn(live - {block}, id) == HoldersIn(live, id) - {block};
    } else {
      assert HoldersIn(live - {block}, id) == HoldersIn(live, id);
    }
  }

  /** An id with no holders among `live` is held by none of them. */
  lemma NoHolders(live: set<Block>, id: nat)
    requires |HoldersIn(live, id)| == 0
    ensures forall b :: b in live ==> b.id != id
  {
    assert HoldersIn(live, id) == {};
    assert forall b :: b in live && b.id == id ==> b in HoldersIn(live, id);
  }

  class BlockRegistry {
    /** The next id never handed out so far. */
    var maxAllocated: nat
    /** Ids given back and waiting for reuse; `None` while the tables are released. */
    var reclaimedIds: Option<set<nat>>
    /** Live-reference count per id (a `function<id, count>`); `None` while released. */
    var references: Option<map<nat, nat>>
    /** The blocks constructed on this registry and not yet destroyed. */
    ghost var live: set<Block>

    /**
     * Both tables exist together; every issued id is below the counter; the count
     * of every id is the number of live blocks holding it; and no reclaimed id is
     * still counted.
     */
    ghost predicate Valid()
      reads this
    {
      && (references.None? <==> reclaimedIds.None?)
      && (forall id :: id in Table() ==> id < maxAllocated && Table()[id] > 0)
      && (forall id :: id in Pool() ==> id < maxAllocated && id !in Table())
      && (forall b :: b in live ==> b.registry == this)
      && (forall id :: ReferenceCount(Table(), id) == |HoldersIn(live, id)|)
    }

    /** The reclaimed pool, read as empty while it is not allocated. */
    function Pool(): (pool: set<nat>)
      reads this
    {
      if reclaimedIds.Some? then reclaimedIds.value else {}
    }

    /** The reference table, read as empty while it is not allocated. */
    function Table(): (table: map<nat, nat>)
      reads this
    {
      if references.Some? then references.value else map[]
    }

    /** The reference table holds an entry for `id`. */
    predicate IsCounted(id: nat)
      reads this
    {
      references.Some? && id in references.value
    }

    /** The static initialisers: nothing allocated yet, both tables NULL. */
    constructor ()
      ensures Valid()
      ensures maxAllocated == 0 && reclaimedIds == None && references == None
      ensures live == {}
    {
      maxAllocated := 0;
      reclaimedIds := None;
      references := None;
      live := {};
    }

    /**
     * `Increase_Reference_Count` (defined in block.h, which is not part of this
     * model): one more live reference to `id`.
     */
    method IncreaseReferenceCount(id: nat)
      requires references.Some?
      modifies this`references
      ensures references == Some(old(references.value)[id := ReferenceCount(old(references.value), id) + 1])
    {
      var table := references.value;
      references := Some(table[id := ReferenceCount(table, id) + 1]);
    }

    /**
     * `Decrease_Reference_Count` (defined in block.h, which is not part of this
     * model): one live reference fewer; the last one erases the entry and gives
     * the id back to the reclaimed pool.
     */
    method DecreaseReferenceCount(id: nat)
      requires IsCounted(id) && reclaimedIds.Some?
      modifies this`references, this`reclaimedIds
      ensures var table := old(references.value);
        if table[id] <= 1 then
          references == Some(table - {id}) && reclaimedIds == Some(old(reclaimedIds.value) + {id})
        else
          references == Some(table[id := table[id] - 1]) && reclaimedIds == old(reclaimedIds)
    {
      var table := references.value;
      if table[id] <= 1 {
        references := Some(table - {id});
        reclaimedIds := Some(reclaimedIds.value + {id});
      } else {
        references := Some(table[id := table[id] - 1]);
      }
    }
  }

  class Block {
    /** The registry standing for the statics this block shares with all others. */
    const registry: BlockRegistry
    const id: nat

    /**
     * `Block()`: allocates the tables on first use, takes the smallest reclaimed id
     * or else a fresh one from the counter, and counts one live reference to it.
     */
    constructor (registry: BlockRegistry)
      requires registry.Valid()
      modifies registry
      ensures this.registry == registry && registry.Valid()
      ensures registry.live == old(registry.live) + {this}
      ensures registry.references.Some? && registry.reclaimedIds.Some?
      // an empty (or absent) pool: a fresh id from the counter
      ensures old(registry.Pool()) == {} ==>
        id == old(registry.maxAllocated) && registry.maxAllocated == old(registry.maxAllocated) + 1
        && registry.Pool() == {}
      // otherwise the smallest reclaimed id, taken out of the pool
      ensures old(registry.Pool()) != {} ==>
        && id in old(registry.Pool())
        && (forall other :: other in old(registry.Pool()) ==> id <= other)
        && registry.Pool() == old(registry.Pool()) - {id}
        && registry.maxAllocated == old(registry.maxAllocated)
      ensures id !in registry.Pool()
      // no block alive before holds the id: it now has exactly one reference
      ensures forall b :: b in old(registry.live) ==> b.id != id
      ensures id !in old(registry.Table())
      ensures registry.Table() == old(registry.Table())[id := 1]
    {
      ghost var table0 := registry.Table();
      ghost var live0 := registry.live;
      assert forall x :: x in table0 ==> x < registry.maxAllocated;
      assert forall x :: x in registry.Pool() ==> x !in table0;
      if registry.references == None {
        registry.references := Some(map[]);
        registry.reclaimedIds := Some({});
      }
      var newId: nat;
      var pool := registry.reclaimedIds.value;
      if pool == {} {
        newId := registry.maxAllocated;
        registry.maxAllocated := registry.maxAllocated + 1;
      } else {
        // names the least pooled id, the witness the choice below needs
        ghost var least := Smallest(pool);
        newId :| newId in pool && forall other :: other in pool ==> newId <= other;
        registry.reclaimedIds := Some(pool - {newId});
      }
      assert newId !in table0;
      assert ReferenceCount(table0, newId) == |HoldersIn(live0, newId)|;
      NoHolders(live0, newId);
      this.registry := registry;
      this.id := newId;
      new;
      registry.IncreaseReferenceCount(id);
      registry.live := live0 + {this};
      forall x
        ensures ReferenceCount(registry.Table(), x) == |HoldersIn(registry.live, x)|
      {
        assert ReferenceCount(table0, x) == |HoldersIn(live0, x)|;
        HoldersAdd(live0, this, x);
      }
    }

    /** `Block(const Block&)`: shares the source's id and counts one more live reference. */
    constructor Copy(source: Block)
      requires source.registry.Valid() && source in source.registry.live
      modifies source.registry
      ensures registry == source.registry && id == source.id
      ensures registry.Valid()
      ensures registry.live == old(source.registry.live) + {this}
      ensures registry.maxAllocated == old(source.registry.maxAllocated)
      ensures registry.reclaimedIds == old(source.registry.reclaimedIds)
      ensures registry.Table() == old(source.registry.Table())[id := ReferenceCount(old(source.registry.Table()), id) + 1]
    {
      registry := source.registry;
      id := source.id;
      new;
      ghost var before := registry.live;
      assert source in HoldersIn(before, id);
      assert ReferenceCount(registry.Table(), id) > 0;
      registry.IncreaseReferenceCount(id);
      registry.live := before + {this};
      forall x
        ensures ReferenceCount(registry.Table(), x) == |HoldersIn(registry.live, x)|
      {
        HoldersAdd(before, this, x);
      }
    }

    /**
     * `~Block()`: drops one live reference; once no id is referenced any more both
     * tables are released (back to NULL), while the counter keeps its value. Each
     * block is destroyed once: it must still be live.
     */
    method Destroy()
      requires registry.Valid() && this in registry.live
      modifies registry
      ensures registry.Valid()
      ensures registry.live == old(registry.live) - {this}
      ensures registry.maxAllocated == old(registry.maxAllocated)
      ensures var table := old(registry.Table());
        var count := ReferenceCount(table, id);
        var table' := if count <= 1 then table - {id} else table[id := count - 1];
        var pool' := if count <= 1 then old(registry.Pool()) + {id} else old(registry.Pool());
        if |table'| == 0 then
          registry.references == None && registry.reclaimedIds == None
        else
          registry.references == Some(table') && registry.reclaimedIds == Some(pool')
    {
      ghost var before := registry.live;
      assert this in HoldersIn(before, id);
      assert ReferenceCount(registry.Table(), id) > 0;
      registry.DecreaseReferenceCount(id);
      if |registry.references.value| == 0 {
        registry.references := None;
        registry.reclaimedIds := None;
      }
      registry.live := before - {this};
      forall x
        ensures ReferenceCount(registry.Table(), x) == |HoldersIn(registry.live, x)|
      {
        HoldersRemove(before, this, x);
      }
    }
  }

  /**
   * Two runs over one registry. Releasing the only live block releases the tables
   * (and with them the pool), so the next block gets a fresh id rather than the one
   * just given back; while another block is still live, the id given back is reused.
   */
  method ReclaimScenario(registry: BlockRegistry) returns (first: nat, second: nat, third: nat, fourth: nat)
    requires registry.Valid() && registry.references == None
    modifies registry
    ensures second == first + 1
    ensures third == second + 1 && fourth == second
    ensures registry.maxAllocated == old(registry.maxAllocated) + 3
  {
    var a := new Block(registry);
    first := a.id;
    a.Destroy();
    var b := new Block(registry);
    second := b.id;
    var c := new Block(registry);
    third := c.id;
    b.Destroy();
    var d := new Block(registry);
    fourth := d.id;
  }

  /**
   * A copy keeps its id counted: destroying the original does not give the id back,
   * so a block constructed afterwards gets a different one.
   */
  method CopyScenario(registry: BlockRegistry) returns (original: nat, copied: nat, later: nat)
    requires registry.Valid()
    modifies registry
    ensures copied == original && later != copied
  {
    var a := new Block(registry);
    var b := new Block.Copy(a);
    a.Destroy();
    var d := new Block(registry);
    original, copied, later := a.id, b.id, d.id;
  }
}
