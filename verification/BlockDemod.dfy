/** apps/ident/ident_common.hpp: `BlockDemod`, which cuts a phase-stamped sample stream into
    one-period blocks and fits each. Phases are in turns, so one period is 1. */
module Demodulation {
  import opened LinearSystem
  import opened LeastSquares
  import M = IdentMachine

  // One sample: the probe phase with its sine and cosine, the weight and the value.
  datatype Item = Item(phase: real, sine: real, cosine: real, dt: real, y: real)

  function Elapsed(block: seq<Item>): real {
    if block == [] then 0.0 else Elapsed(block[..|block| - 1]) + block[|block| - 1].dt
  }

  // What a block's fit is fed: the time runs from the block's own start.
  function Fed(block: seq<Item>): (fed: seq<Sample>)
    ensures |fed| == |block|
  {
    if block == [] then []
    else
      var i := block[|block| - 1];
      Fed(block[..|block| - 1]) + [Sample(Elapsed(block), i.sine, i.cosine, i.dt, i.y)]
  }

  // The blocks closed so far and the open one.
  datatype Cut = Cut(start: real, closed: seq<seq<Item>>, current: seq<Item>)

  function CutMore(c: Cut, i: Item): Cut {
    if i.phase - c.start >= 1.0 then Cut(c.start + 1.0, c.closed + [c.current], [i])
    else c.(current := c.current + [i])
  }

  function CutOf(items: seq<Item>): Cut
    requires items != []
  {
    if |items| == 1 then Cut(items[0].phase, [], items)
    else CutMore(CutOf(items[..|items| - 1]), items[|items| - 1])
  }

  ghost function ClosedOf(items: seq<Item>): seq<seq<Item>> {
    if items == [] then [] else CutOf(items).closed
  }

  function Flatten(blocks: seq<seq<Item>>): seq<Item> {
    if blocks == [] then [] else Flatten(blocks[..|blocks| - 1]) + blocks[|blocks| - 1]
  }

  /** No sample is lost, repeated or reordered, however the phase moves. */
  lemma {:induction false} EverySampleOnce(items: seq<Item>)
    requires items != []
    ensures Flatten(CutOf(items).closed) + CutOf(items).current == items
  {
    if |items| > 1 {
      var init := items[..|items| - 1];
      EverySampleOnce(init);
      var c := CutOf(init);
      assert (c.closed + [c.current])[..|c.closed|] == c.closed;
      assert items == init + [items[|items| - 1]];
    }
  }

  // The phase advances, by less than a turn a sample.
  ghost predicate Steady(items: seq<Item>) {
    forall k | 0 <= k < |items| - 1 :: 0.0 <= items[k + 1].phase - items[k].phase < 1.0
  }

  ghost predicate WithinTurn(block: seq<Item>, start: real) {
    block != [] && forall k | 0 <= k < |block| :: start <= block[k].phase < start + 1.0
  }

  /** With steps below a turn, block b holds exactly the samples of turn b: the turns are
      half-open, and none is empty. */
  lemma {:induction false} BlocksAreTurns(items: seq<Item>)
    requires items != [] && Steady(items)
    ensures var c := CutOf(items);
            && c.start == items[0].phase + |c.closed| as real
            && (forall b | 0 <= b < |c.closed| :: WithinTurn(c.closed[b], items[0].phase + b as real))
            && WithinTurn(c.current, c.start) && c.current[|c.current| - 1] == items[|items| - 1]
  {
    if |items| > 1 {
      var init := items[..|items| - 1];
      BlocksAreTurns(init);
      assert 0.0 <= items[|items| - 2 + 1].phase - items[|items| - 2].phase < 1.0;
    }
  }

  // The estimate comes from that block alone, and is exact for samples on the model.
  ghost predicate EstimateOf(block: seq<Item>, z: BlockEstimate) {
    |block| >= 5 && forall v | OnModel(Fed(block), v) :: z == BlockEstimate(v.v2, v.v3)
  }

  // Whether a fit may succeed or fail: it fails only if some vector ending in one is nearly
  // annihilated by its equations, and succeeds only if none is eight times as nearly.
  ghost predicate Solvable(samples: seq<Sample>, solved: bool) {
    if solved then forall v | EndsInOne(v) :: !Small(NormalEquations(samples), v, 0.000000000000000125)
    else exists v :: EndsInOne(v) && Small(NormalEquations(samples), v, 0.000000000000001)
  }

  // A block just closed is reported exactly when it has five samples and its fit succeeds.
  ghost predicate ClosedAs(block: seq<Item>, completed: bool, solved: bool) {
    && completed == (|block| >= 5 && solved)
    && (|block| >= 5 ==> Solvable(Fed(block), solved))
  }

  /** The demodulator; a reset is a new object. */
  class BlockDemod {
    var primed: bool
    var start: real
    var elapsed: real
    var accum: LsAccum
    var last: BlockEstimate
    var blocks: nat
    ghost var items: seq<Item>

    ghost predicate Valid()
      reads this, accum, accum.m, accum.b
    {
      && accum.Valid()
      && primed == (items != [])
      && (!primed ==> elapsed == 0.0 && accum.samples == [] && blocks == 0 && start == 0.0)
      && (primed ==>
            && start == CutOf(items).start && elapsed == Elapsed(CutOf(items).current)
            && accum.samples == Fed(CutOf(items).current) && blocks <= |CutOf(items).closed|)
    }

    // The record of it that the run's state machine keeps.
    function Record(): M.Demod
      reads this, accum
    {
      M.Demod(primed, start, accum.n, blocks)
    }

    constructor ()
      ensures Valid() && items == [] && Record() == M.FRESH_DEMOD
      ensures fresh(accum) && fresh(accum.m) && fresh(accum.b)
    {
      primed, start, elapsed, blocks, last := false, 0.0, 0.0, 0, BlockEstimate(0.0, 0.0);
      accum := new LsAccum();
      items := [];
    }

    // Fits the block just ended and opens an empty one.
    method Close() returns (completed: bool, ghost solved: bool)
      requires accum.Valid()
      modifies this
      ensures fresh(accum) && fresh(accum.m) && fresh(accum.b) && accum.Valid() && accum.samples == []
      ensures elapsed == 0.0 && start == old(start) + 1.0 && primed == old(primed) && items == old(items)
      ensures completed == (old(accum.n) >= 5 && solved)
      ensures blocks == old(blocks) + (if completed then 1 else 0) && (!completed ==> last == old(last))
      ensures completed ==> forall v | OnModel(old(accum.samples), v) :: last == BlockEstimate(v.v2, v.v3)
      ensures old(accum.n) >= 5 ==> Solvable(old(accum.samples), solved)
    {
      hide Small, EndsInOne, NormalEquations;
      completed, solved := false, false;
      if accum.n >= 5 {
        var ok, z := accum.Solve();
        solved := ok;
        if ok { last, blocks, completed := z, blocks + 1, true; }
      }
      accum := new LsAccum();
      elapsed, start := 0.0, start + 1.0;
    }

    /** Reports a block exactly when one is closed with at least five samples and its fit
        succeeds; samples of that block on the model then give their own amounts back. */
    method Add(i: Item) returns (completed: bool, ghost solved: bool)
      requires Valid()
      modifies this, accum, accum.m, accum.b
      ensures Valid() && items == old(items) + [i]
      ensures accum == old(accum) || (fresh(accum) && fresh(accum.m) && fresh(accum.b))
      ensures Record() == M.DemodAdd(old(Record()), i.phase, solved)
      ensures completed == (blocks == old(blocks) + 1) && (completed || (blocks == old(blocks) && last == old(last)))
      ensures completed ==> |CutOf(items).closed| > 0 && EstimateOf(CutOf(items).closed[|CutOf(items).closed| - 1], last)
      ensures var was, now := ClosedOf(old(items)), ClosedOf(items);
              if |now| > |was| then ClosedAs(now[|now| - 1], completed, solved) else !completed
    {
      hide CutOf, Fed, Elapsed, OnModel, Solvable;
      if !primed { primed, start := true, i.phase; }
      completed, solved := false, false;
      CutGrows(items, i);
      NothingElapsed();
      FedMore(CutOf(items + [i]).current, i);
      ghost var block := CutOf(items + [i]).current;
      assert block[..|block| - 1] == if items == [] || i.phase - start >= 1.0 then [] else CutOf(items).current;
      if i.phase - start >= 1.0 {
        completed, solved := Close();
      }
      elapsed := elapsed + i.dt;
      accum.Add(Sample(elapsed, i.sine, i.cosine, i.dt, i.y));
      items := items + [i];
    }

    static lemma NothingElapsed()
      ensures Elapsed([]) == 0.0 && Fed([]) == []
    {
    }

    static lemma CutGrows(items: seq<Item>, i: Item)
      ensures CutOf(items + [i]) == if items == [] then Cut(i.phase, [], [i]) else CutMore(CutOf(items), i)
      ensures var block := CutOf(items + [i]).current; block != [] && block[|block| - 1] == i
    {
      assert (items + [i])[..|items|] == items;
    }

    static lemma FedMore(block: seq<Item>, i: Item)
      requires block != [] && block[|block| - 1] == i
      ensures var init := block[..|block| - 1];
              && Elapsed(block) == Elapsed(init) + i.dt
              && Fed(block) == Fed(init) + [Sample(Elapsed(block), i.sine, i.cosine, i.dt, i.y)]
    {
    }
  }
}
