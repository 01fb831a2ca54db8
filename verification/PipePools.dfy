/** The pipe pair pool: pairs are handed out, their two ends come back one by one,
    and a pair whose ends are both back is handed out again. */
module PipePools {
  import opened Wrappers

  const MAX_ID: nat := 0xFFFF_FFFF
  const INIT_ID: nat := 1

  datatype PipeState = PipeState(offset: int, len: int)

  const UNLIMITED := PipeState(-1, -1)

  datatype Pin = Pin(tx: PipeState, rx: PipeState, refcnt: nat)

  datatype Pool = Pool(pins: map<nat, Pin>, queue: seq<nat>, seed: nat)

  /** One end of a pair. */
  datatype End = End(id: nat, tx: bool)

  /** A pipe handle as it comes back: its id, which ends it stands for, its state. */
  datatype Pipe = Pipe(id: nat, tx: bool, rx: bool, state: PipeState)

  function EndsOf(p: Pipe): set<End> {
    (if p.tx then {End(p.id, true)} else {}) + (if p.rx then {End(p.id, false)} else {})
  }

  /** The id after this one; the largest wraps around to one. */
  function NextId(id: nat): nat {
    if id == MAX_ID then INIT_ID else id + 1
  }

  /** Hand out a pair; opening a new one may fail, which still uses up its id. */
  function Dequeue(p: Pool, ok: bool): (Pool, Option<nat>)
    requires p.queue != [] ==> p.queue[|p.queue| - 1] in p.pins
  {
    if p.queue != [] then
      var id := p.queue[|p.queue| - 1];
      var pin := p.pins[id];
      (p.(pins := p.pins[id := pin.(refcnt := pin.refcnt + 2)], queue := p.queue[..|p.queue| - 1]), Some(id))
    else if ok then
      (p.(pins := p.pins[p.seed := Pin(UNLIMITED, UNLIMITED, 2)], seed := NextId(p.seed)), Some(p.seed))
    else (p.(seed := NextId(p.seed)), None)
  }

  function Returned(pin: Pin, pipe: Pipe): Pin
    requires pin.refcnt >= |EndsOf(pipe)|
  {
    pin.(tx := if pipe.tx then pipe.state else pin.tx,
         rx := if pipe.rx then pipe.state else pin.rx,
         refcnt := pin.refcnt - |EndsOf(pipe)|)
  }

  /** Take ends back; a pair without outstanding ends is queued. */
  function Enqueue(p: Pool, pipe: Pipe): Pool
    requires pipe.id in p.pins && p.pins[pipe.id].refcnt >= |EndsOf(pipe)|
  {
    var pin := Returned(p.pins[pipe.id], pipe);
    p.(pins := p.pins[pipe.id := pin], queue := if pin.refcnt == 0 then p.queue + [pipe.id] else p.queue)
  }

  /** A new pair has the next id and no limits; ids are 32-bit words and never wrap to zero. */
  lemma NewPairIsUnlimited(p: Pool)
    requires p.queue == [] && p.seed < 0x1_0000_0000
    ensures var (q, id) := Dequeue(p, true);
            && id == Some(p.seed)
            && q.pins == p.pins[p.seed := Pin(PipeState(-1, -1), PipeState(-1, -1), 2)]
            && q.seed == (if p.seed == 0xFFFF_FFFF then 1 else p.seed + 1)
  {
  }

  // ----- the invariant

  /** The pool with the ends that are out and the most pairs ever out at once. */
  datatype World = World(pool: Pool, out: set<End>, peak: nat)

  function Bit(b: bool): nat {
    if b then 1 else 0
  }

  function Outstanding(out: set<End>, id: nat): nat {
    Bit(End(id, true) in out) + Bit(End(id, false) in out)
  }

  function InUse(out: set<End>): set<nat> {
    set e | e in out :: e.id
  }

  function Queued(queue: seq<nat>): set<nat> {
    set i | 0 <= i < |queue| :: queue[i]
  }

  predicate Distinct(s: seq<nat>) {
    forall i, j | 0 <= i < j < |s| :: s[i] != s[j]
  }

  ghost predicate Counted(pins: map<nat, Pin>, out: set<End>) {
    forall id | id in pins :: pins[id].refcnt == Outstanding(out, id)
  }

  /** Counts match the outstanding ends; a pair is queued, once, exactly when both
      its ends are back; and the pool is as large as its peak use. */
  ghost predicate Valid(w: World) {
    && Counted(w.pool.pins, w.out)
    && InUse(w.out) <= w.pool.pins.Keys
    && Distinct(w.pool.queue)
    && Queued(w.pool.queue) == w.pool.pins.Keys - InUse(w.out)
    && |w.pool.pins| == w.peak
  }

  datatype Op = Take(ok: bool) | Give(pipe: Pipe)

  /** Each handed-out end is returned at most once. */
  predicate Proper(w: World, op: Op) {
    op.Give? ==> (op.pipe.tx || op.pipe.rx) && EndsOf(op.pipe) <= w.out
  }

  function Max(a: nat, b: nat): nat {
    if a >= b then a else b
  }

  lemma LastIsPooled(w: World)
    requires Valid(w)
    ensures w.pool.queue != [] ==>
              && w.pool.queue[|w.pool.queue| - 1] in w.pool.pins
              && w.pool.queue[|w.pool.queue| - 1] !in InUse(w.out)
  {
    if w.pool.queue != [] {
      assert w.pool.queue[|w.pool.queue| - 1] in Queued(w.pool.queue);
    }
  }

  lemma GivenIsPooled(w: World, pipe: Pipe)
    requires Valid(w) && Proper(w, Give(pipe))
    ensures pipe.id in w.pool.pins && w.pool.pins[pipe.id].refcnt >= |EndsOf(pipe)|
    ensures |EndsOf(pipe)| == Bit(pipe.tx) + Bit(pipe.rx)
  {
    var e :| e in EndsOf(pipe);
    assert e.id in InUse(w.out);
  }

  /** The world after an operation; the peak is the most pairs in use so far. */
  ghost function Next(w: World, op: Op): World
    requires Valid(w) && Proper(w, op)
  {
    match op
    case Take(ok) =>
      LastIsPooled(w);
      var (pool, id) := Dequeue(w.pool, ok);
      var out := w.out + if id.Some? then {End(id.value, true), End(id.value, false)} else {};
      World(pool, out, Max(w.peak, |InUse(out)|))
    case Give(pipe) =>
      GivenIsPooled(w, pipe);
      var out := w.out - EndsOf(pipe);
      World(Enqueue(w.pool, pipe), out, Max(w.peak, |InUse(out)|))
  }

  /** The id a new pair would get is not in the pool. */
  predicate IdIsFree(w: World) {
    w.pool.queue == [] ==> w.pool.seed !in w.pool.pins
  }

  lemma SubsetSize(a: set<nat>, b: set<nat>)
    requires a <= b
    ensures |a| <= |b|
  {
    assert b == a + (b - a);
  }

  lemma AddPair(out: set<End>, id: nat)
    ensures InUse(out + {End(id, true), End(id, false)}) == InUse(out) + {id}
  {
    var out' := out + {End(id, true), End(id, false)};
    assert End(id, true) in out';
    assert forall e | e in out :: e in out';
  }

  lemma PairCounts(out: set<End>, id: nat)
    ensures forall i: nat :: Outstanding(out + {End(id, true), End(id, false)}, i) ==
              if i == id then 2 else Outstanding(out, i)
  {
  }

  lemma InUseMeans(out: set<End>, id: nat)
    ensures id in InUse(out) <==> Outstanding(out, id) > 0
  {
    if id in InUse(out) {
      var e :| e in out && e.id == id;
      assert e == End(id, true) || e == End(id, false);
    } else {
      assert End(id, true) in out ==> End(id, true).id in InUse(out);
      assert End(id, false) in out ==> End(id, false).id in InUse(out);
    }
  }

  lemma DropEnds(out: set<End>, pipe: Pipe)
    requires EndsOf(pipe) <= out
    ensures var out' := out - EndsOf(pipe);
            && (forall i: nat | i != pipe.id :: Outstanding(out', i) == Outstanding(out, i))
            && Outstanding(out', pipe.id) == Outstanding(out, pipe.id) - Bit(pipe.tx) - Bit(pipe.rx)
            && InUse(out') == if Outstanding(out', pipe.id) == 0 then InUse(out) - {pipe.id} else InUse(out)
  {
    var out' := out - EndsOf(pipe);
    forall e | e in out && e.id != pipe.id
      ensures e in out'
    {
    }
    assert forall i: nat | i != pipe.id :: i in InUse(out) <==> i in InUse(out') by {
      forall i: nat | i != pipe.id
        ensures i in InUse(out) ==> i in InUse(out')
      {
        if i in InUse(out) {
          var e :| e in out && e.id == i;
          assert e in out';
        }
      }
    }
    InUseMeans(out', pipe.id);
    InUseMeans(out, pipe.id);
  }

  lemma QueuedDrop(queue: seq<nat>)
    requires Distinct(queue) && queue != []
    ensures var n := |queue| - 1;
            Distinct(queue[..n]) && Queued(queue[..n]) == Queued(queue) - {queue[n]}
  {
    var n := |queue| - 1;
    assert forall i | 0 <= i < n :: queue[..n][i] == queue[i];
    forall id | id in Queued(queue) && id != queue[n]
      ensures id in Queued(queue[..n])
    {
      var i :| 0 <= i < |queue| && queue[i] == id;
      assert queue[..n][i] == id;
    }
  }

  lemma ReuseKeepsUse(w: World, ok: bool)
    requires Valid(w) && w.pool.queue != []
    ensures var w' := Next(w, Take(ok));
            && w'.pool.pins.Keys == w.pool.pins.Keys
            && InUse(w'.out) == InUse(w.out) + {w.pool.queue[|w.pool.queue| - 1]}
            && InUse(w'.out) <= w'.pool.pins.Keys
            && w'.peak == w.peak && w'.pool.seed == w.pool.seed
  {
    LastIsPooled(w);
    AddPair(w.out, w.pool.queue[|w.pool.queue| - 1]);
    var w' := Next(w, Take(ok));
    assert w'.pool.pins.Keys == w.pool.pins.Keys;
    SubsetSize(InUse(w'.out), w'.pool.pins.Keys);
  }

  lemma ReuseKeepsCounts(w: World, ok: bool)
    requires Valid(w) && w.pool.queue != []
    ensures Counted(Next(w, Take(ok)).pool.pins, Next(w, Take(ok)).out)
  {
    var id := w.pool.queue[|w.pool.queue| - 1];
    LastIsPooled(w);
    PairCounts(w.out, id);
    InUseMeans(w.out, id);
    assert Next(w, Take(ok)).out == w.out + {End(id, true), End(id, false)};
  }

  lemma ReuseKeepsValid(w: World, ok: bool)
    requires Valid(w) && w.pool.queue != []
    ensures Valid(Next(w, Take(ok)))
    ensures Next(w, Take(ok)).pool.seed == w.pool.seed
  {
    ReuseKeepsUse(w, ok);
    ReuseKeepsCounts(w, ok);
    QueuedDrop(w.pool.queue);
    LastIsPooled(w);
  }

  lemma AllInUse(w: World)
    requires Valid(w) && w.pool.queue == []
    ensures InUse(w.out) == w.pool.pins.Keys
  {
    var pooled := w.pool.pins.Keys;
    assert Queued(w.pool.queue) == {};
    assert pooled == (pooled - InUse(w.out)) + InUse(w.out);
  }

  lemma OpenKeepsValid(w: World)
    requires Valid(w) && w.pool.queue == [] && w.pool.seed !in w.pool.pins
    ensures Valid(Next(w, Take(true)))
  {
    var id := w.pool.seed;
    AllInUse(w);
    AddPair(w.out, id);
    PairCounts(w.out, id);
    var w' := Next(w, Take(true));
    assert w'.out == w.out + {End(id, true), End(id, false)};
    assert w'.pool.pins.Keys == w.pool.pins.Keys + {id};
    assert |w'.pool.pins.Keys| == |w.pool.pins.Keys| + 1;
    assert w'.pool.queue == [];
  }

  lemma FailureKeepsValid(w: World)
    requires Valid(w) && w.pool.queue == []
    ensures Valid(Next(w, Take(false)))
  {
    var w' := Next(w, Take(false));
    assert w'.out == w.out;
    SubsetSize(InUse(w.out), w.pool.pins.Keys);
  }

  lemma GiveKeepsCounts(w: World, pipe: Pipe)
    requires Valid(w) && Proper(w, Give(pipe))
    ensures var w' := Next(w, Give(pipe));
            && Counted(w'.pool.pins, w'.out)
            && w'.pool.pins.Keys == w.pool.pins.Keys
  {
    GivenIsPooled(w, pipe);
    DropEnds(w.out, pipe);
    assert Next(w, Give(pipe)).pool.pins.Keys == w.pool.pins.Keys;
  }

  lemma GiveKeepsUse(w: World, pipe: Pipe)
    requires Valid(w) && Proper(w, Give(pipe))
    ensures var w' := Next(w, Give(pipe));
            && InUse(w'.out) <= InUse(w.out)
            && w'.peak == w.peak && w'.pool.seed == w.pool.seed
            && w'.pool.queue == (if Outstanding(w'.out, pipe.id) == 0 then w.pool.queue + [pipe.id] else w.pool.queue)
            && InUse(w'.out) == (if Outstanding(w'.out, pipe.id) == 0 then InUse(w.out) - {pipe.id} else InUse(w.out))
  {
    GiveKeepsCounts(w, pipe);
    GivenIsPooled(w, pipe);
    DropEnds(w.out, pipe);
    SubsetSize(InUse(Next(w, Give(pipe)).out), w.pool.pins.Keys);
  }

  lemma QueuedAppend(queue: seq<nat>, id: nat)
    requires Distinct(queue) && id !in Queued(queue)
    ensures Queued(queue + [id]) == Queued(queue) + {id} && Distinct(queue + [id])
  {
    var q := queue + [id];
    assert q[|queue|] == id;
    assert forall i | 0 <= i < |queue| :: q[i] == queue[i] && queue[i] in Queued(queue);
  }

  lemma GivenIsNotQueued(w: World, pipe: Pipe)
    requires Valid(w) && Proper(w, Give(pipe))
    ensures pipe.id !in Queued(w.pool.queue) && pipe.id in w.pool.pins.Keys
  {
    var e :| e in EndsOf(pipe);
    assert e.id in InUse(w.out);
  }

  lemma GiveKeepsValid(w: World, pipe: Pipe)
    requires Valid(w) && Proper(w, Give(pipe))
    ensures Valid(Next(w, Give(pipe)))
  {
    GiveKeepsCounts(w, pipe);
    GiveKeepsUse(w, pipe);
    GivenIsNotQueued(w, pipe);
    QueuedAppend(w.pool.queue, pipe.id);
  }

  /** Every proper operation keeps the pool valid while new ids are free. */
  lemma OpKeepsValid(w: World, op: Op)
    requires Valid(w) && Proper(w, op) && (op.Take? ==> IdIsFree(w))
    ensures Valid(Next(w, op))
  {
    match op
    case Take(ok) =>
      if w.pool.queue != [] {
        ReuseKeepsValid(w, ok);
      } else if ok {
        OpenKeepsValid(w);
      } else {
        FailureKeepsValid(w);
      }
    case Give(pipe) => GiveKeepsValid(w, pipe);
  }

  /** A returned pair is queued afterwards if and only if both its ends are back. */
  lemma GiveQueuesIff(w: World, pipe: Pipe)
    requires Valid(w) && Proper(w, Give(pipe))
    ensures var w' := Next(w, Give(pipe));
            Valid(w') && (pipe.id in Queued(w'.pool.queue) <==> Outstanding(w'.out, pipe.id) == 0)
  {
    GiveKeepsValid(w, pipe);
    GivenIsNotQueued(w, pipe);
    GiveKeepsCounts(w, pipe);
    InUseMeans(Next(w, Give(pipe)).out, pipe.id);
  }

  /** A handed-out pair has no end outstanding if and only if it was queued or its
      new id is free. */
  lemma HandedOutIsFreeIff(w: World, ok: bool)
    requires Valid(w) && (w.pool.queue != [] || ok)
    ensures w.pool.queue != [] ==> w.pool.queue[|w.pool.queue| - 1] in w.pool.pins
    ensures var id := Dequeue(w.pool, ok).1;
            && id.Some?
            && (Outstanding(w.out, id.value) == 0 <==> IdIsFree(w))
  {
    if w.pool.queue != [] {
      LastIsPooled(w);
      InUseMeans(w.out, w.pool.queue[|w.pool.queue| - 1]);
    } else {
      AllInUse(w);
      InUseMeans(w.out, w.pool.seed);
    }
  }

  /** Ends come back with their state, which the pool keeps for the next use; the other
      end and all other pairs keep theirs. */
  lemma ReturnedStatesAreKept(p: Pool, pipe: Pipe)
    requires pipe.id in p.pins && p.pins[pipe.id].refcnt >= |EndsOf(pipe)|
    ensures var q := Enqueue(p, pipe);
            && q.pins.Keys == p.pins.Keys
            && (forall id | id in p.pins && id != pipe.id :: q.pins[id] == p.pins[id])
            && q.pins[pipe.id].tx == (if pipe.tx then pipe.state else p.pins[pipe.id].tx)
            && q.pins[pipe.id].rx == (if pipe.rx then pipe.state else p.pins[pipe.id].rx)
  {
  }

  /** The pair that came back last is handed out next, with the states it came back with. */
  lemma LastBackIsNextOut(w: World, pipe: Pipe, ok: bool)
    requires Valid(w) && Proper(w, Give(pipe)) && Outstanding(Next(w, Give(pipe)).out, pipe.id) == 0
    ensures var q := Next(w, Give(pipe)).pool;
            && q.queue == w.pool.queue + [pipe.id] && pipe.id in q.pins
            && var (r, id) := Dequeue(q, ok);
               && id == Some(pipe.id) && r.queue == w.pool.queue
               && r.pins[pipe.id].tx == q.pins[pipe.id].tx && r.pins[pipe.id].rx == q.pins[pipe.id].rx
  {
    GiveKeepsUse(w, pipe);
    GiveKeepsCounts(w, pipe);
    GivenIsPooled(w, pipe);
    var q := Next(w, Give(pipe)).pool;
    assert q.queue[|q.queue| - 1] == pipe.id && q.queue[..|q.queue| - 1] == w.pool.queue;
  }

  // ----- runs

  ghost predicate StepsTo(worlds: seq<World>, ops: seq<Op>, k: nat)
    requires k < |ops| && k + 1 < |worlds|
  {
    Valid(worlds[k]) ==> Proper(worlds[k], ops[k]) && worlds[k + 1] == Next(worlds[k], ops[k])
  }

  ghost predicate IsRun(worlds: seq<World>, ops: seq<Op>) {
    && |worlds| == |ops| + 1
    && worlds[0] == World(Pool(map[], [], 0), {}, 0)
    && forall k: nat | k < |ops| :: StepsTo(worlds, ops, k)
  }

  /** How many of the first k operations opened a new pair, or tried to: only
      these use up an id. */
  function Opens(worlds: seq<World>, ops: seq<Op>, k: nat): nat
    requires k <= |ops| <= |worlds|
  {
    if k == 0 then 0
    else Opens(worlds, ops, k - 1) + Bit(ops[k - 1].Take? && worlds[k - 1].pool.queue == [])
  }

  lemma KeysStayBelow(w: World, op: Op, opens: nat)
    requires Valid(w) && Proper(w, op)
    requires opens <= MAX_ID ==> w.pool.seed == opens
    requires op.Take? && w.pool.queue == [] ==> opens <= MAX_ID
    requires forall id | id in w.pool.pins :: id < opens
    ensures var opens' := opens + Bit(op.Take? && w.pool.queue == []);
            && (forall id | id in Next(w, op).pool.pins :: id < opens')
            && (opens' <= MAX_ID ==> Next(w, op).pool.seed == opens')
  {
    if op.Take? && w.pool.queue != [] {
      LastIsPooled(w);
    } else if op.Give? {
      GivenIsPooled(w, op.pipe);
    }
  }

  /** In every run that opens at most as many pairs as there are ids, whatever it
      reuses, every state is valid: pairs are queued once both ends are back, and
      the pool is as large as its peak use. The next id counts the opened pairs
      until it wraps. */
  lemma {:induction false} PoolStaysValid(worlds: seq<World>, ops: seq<Op>, k: nat)
    requires IsRun(worlds, ops) && k <= |ops| && Opens(worlds, ops, k) <= MAX_ID + 1
    ensures Valid(worlds[k])
    ensures forall id | id in worlds[k].pool.pins :: id < Opens(worlds, ops, k)
    ensures Opens(worlds, ops, k) <= MAX_ID ==>
              worlds[k].pool.seed == Opens(worlds, ops, k) && IdIsFree(worlds[k])
  {
    if k == 0 {
      assert Queued([]) == {} && InUse({}) == {};
    } else {
      PoolStaysValid(worlds, ops, k - 1);
      assert StepsTo(worlds, ops, k - 1);
      OpKeepsValid(worlds[k - 1], ops[k - 1]);
      KeysStayBelow(worlds[k - 1], ops[k - 1], Opens(worlds, ops, k - 1));
    }
  }

  /** In such a run no pair is handed out while an end of it is outstanding. */
  lemma NoPairIsHandedOutEarly(worlds: seq<World>, ops: seq<Op>, k: nat)
    requires IsRun(worlds, ops) && k < |ops| && ops[k].Take? && Opens(worlds, ops, k + 1) <= MAX_ID + 1
    ensures var w := worlds[k];
            && (w.pool.queue != [] ==> w.pool.queue[|w.pool.queue| - 1] in w.pool.pins)
            && var id := Dequeue(w.pool, ops[k].ok).1;
               && (id.None? <==> w.pool.queue == [] && !ops[k].ok)
               && (id.Some? ==> Outstanding(w.out, id.value) == 0 && Outstanding(worlds[k + 1].out, id.value) == 2)
  {
    var w := worlds[k];
    PoolStaysValid(worlds, ops, k);
    assert StepsTo(worlds, ops, k);
    LastIsPooled(w);
    if w.pool.queue != [] || ops[k].ok {
      HandedOutIsFreeIff(w, ops[k].ok);
    }
  }

  /** The most pairs in use in one of the first states. */
  ghost predicate IsPeak(worlds: seq<World>, k: nat, peak: nat)
    requires k < |worlds|
  {
    && (forall m | 0 <= m <= k :: |InUse(worlds[m].out)| <= peak)
    && (exists m :: 0 <= m <= k && |InUse(worlds[m].out)| == peak)
  }

  lemma PeakGoesOn(worlds: seq<World>, k: nat, peak: nat)
    requires 0 < k < |worlds| && IsPeak(worlds, k - 1, peak)
    ensures IsPeak(worlds, k, Max(peak, |InUse(worlds[k].out)|))
  {
    var m :| 0 <= m <= k - 1 && |InUse(worlds[m].out)| == peak;
    var top := if |InUse(worlds[k].out)| > peak then k else m;
    assert |InUse(worlds[top].out)| == Max(peak, |InUse(worlds[k].out)|);
  }

  lemma {:induction false} PeakIsRecorded(worlds: seq<World>, ops: seq<Op>, k: nat)
    requires IsRun(worlds, ops) && k <= |ops| && Opens(worlds, ops, k) <= MAX_ID + 1
    ensures IsPeak(worlds, k, worlds[k].peak)
  {
    if k == 0 {
      assert InUse({}) == {};
      assert |InUse(worlds[0].out)| == 0;
    } else {
      PeakIsRecorded(worlds, ops, k - 1);
      PoolStaysValid(worlds, ops, k - 1);
      assert StepsTo(worlds, ops, k - 1);
      PeakGoesOn(worlds, k, worlds[k - 1].peak);
    }
  }

  /** In such a run the pool size is the largest number of pairs in use at any
      one time so far. */
  lemma PoolSizeIsPeakUse(worlds: seq<World>, ops: seq<Op>, k: nat)
    requires IsRun(worlds, ops) && k <= |ops| && Opens(worlds, ops, k) <= MAX_ID + 1
    ensures IsPeak(worlds, k, |worlds[k].pool.pins|)
  {
    PoolStaysValid(worlds, ops, k);
    PeakIsRecorded(worlds, ops, k);
  }

  // ----- the pool object

  class Pipe2Pool {
    var pins: map<nat, Pin>
    var queue: seq<nat>
    var seed: nat

    // The ends handed out and not yet back, and the most pairs ever in use at once.
    ghost var out: set<End>
    ghost var peak: nat

    constructor ()
      ensures Shadow() == World(Pool(map[], [], 0), {}, 0) && Valid(Shadow())
    {
      pins, queue, seed := map[], [], 0;
      out, peak := {}, 0;
      new;
      assert Queued([]) == {} && InUse({}) == {};
    }

    function Value(): Pool
      reads this
    {
      Pool(pins, queue, seed)
    }

    ghost function Shadow(): World
      reads this
    {
      World(Value(), out, peak)
    }

    /** Take the next id. */
    method TakeId() returns (id: nat)
      modifies this`seed
      ensures id == old(seed) && seed == NextId(old(seed))
    {
      id := seed;
      if seed == MAX_ID {
        seed := INIT_ID;
      } else {
        seed := seed + 1;
      }
    }

    ghost method HandOut(ends: set<End>)
      modifies this`out, this`peak
      ensures out == old(out) + ends && peak == Max(old(peak), |InUse(out)|)
    {
      out := out + ends;
      peak := Max(peak, |InUse(out)|);
    }

    /** Hand out a pair; `ok` says whether a new one can be opened. A valid pool whose
        next id is free stays valid and gives both ends of a pair that had neither out. */
    method DequeuePair(ok: bool) returns (r: Option<nat>)
      requires queue != [] ==> queue[|queue| - 1] in pins
      modifies this
      ensures (Value(), r) == Dequeue(old(Value()), ok)
      ensures out == old(out) + if r.Some? then {End(r.value, true), End(r.value, false)} else {}
      ensures r.None? <==> old(queue) == [] && !ok
      ensures old(Valid(Shadow())) && r.Some? ==>
                (Outstanding(old(out), r.value) == 0 <==> old(IdIsFree(Shadow())))
      ensures old(Valid(Shadow()) && IdIsFree(Shadow())) ==> Valid(Shadow())
    {
      ghost var before := Shadow();
      if Valid(before) && (queue != [] || ok) {
        HandedOutIsFreeIff(before, ok);
      }
      if Valid(before) && IdIsFree(before) {
        OpKeepsValid(before, Take(ok));
      }
      if |queue| > 0 {
        var id := queue[|queue| - 1];
        queue := queue[..|queue| - 1];
        pins := pins[id := pins[id].(refcnt := pins[id].refcnt + 2)];
        HandOut({End(id, true), End(id, false)});
        return Some(id);
      }
      var id := TakeId();
      if !ok {
        HandOut({});
        return None;
      }
      pins := pins[id := Pin(UNLIMITED, UNLIMITED, 2)];
      HandOut({End(id, true), End(id, false)});
      return Some(id);
    }

    ghost method TakeBack(ends: set<End>)
      modifies this`out, this`peak
      ensures out == old(out) - ends && peak == Max(old(peak), |InUse(out)|)
    {
      out := out - ends;
      peak := Max(peak, |InUse(out)|);
    }

    /** Take ends back. Ends that were out leave a valid pool valid. */
    method EnqueuePipe(pipe: Pipe)
      requires pipe.id in pins && pins[pipe.id].refcnt >= |EndsOf(pipe)|
      modifies this`pins, this`queue, this`out, this`peak
      ensures Value() == Enqueue(old(Value()), pipe)
      ensures out == old(out) - EndsOf(pipe)
      ensures old(Valid(Shadow()) && Proper(Shadow(), Give(pipe))) ==>
                Valid(Shadow()) && (pipe.id in Queued(queue) <==> Outstanding(out, pipe.id) == 0)
    {
      ghost var before := Shadow();
      var pin := pins[pipe.id];
      assert |EndsOf(pipe)| == Bit(pipe.tx) + Bit(pipe.rx);
      if pipe.tx {
        pin := pin.(tx := pipe.state, refcnt := pin.refcnt - 1);
      }
      if pipe.rx {
        pin := pin.(rx := pipe.state, refcnt := pin.refcnt - 1);
      }
      pins := pins[pipe.id := pin];
      if pin.refcnt == 0 {
        queue := queue + [pipe.id];
      }
      TakeBack(EndsOf(pipe));
      if Valid(before) && Proper(before, Give(pipe)) {
        GiveQueuesIff(before, pipe);
        assert Shadow() == Next(before, Give(pipe));
      }
    }
  }
}
