/**
 The optimistic snapshot read against a concurrent writer. Time is an instant number; what the reader
 sees at an instant is what the registers hold then. A register is one observed source: the Version
 inventory, the projection sources, the execution sources, and the committed catalog.
*/
module SnapshotRead {
  import opened Wrappers

  const MAX_SNAPSHOT_ATTEMPTS := 3

  /** What each register holds at every instant. */
  datatype World = World(inventory: nat -> seq<nat>, projection: nat -> string, execution: nat -> string, catalog: nat -> string)

  /** A register that only moves forward never shows an earlier value again. */
  ghost predicate MovesForward<V(!new)>(register: nat -> V) {
    forall s: nat, t: nat, u: nat | s <= t <= u && register(s) == register(u) :: register(t) == register(s)
  }

  ghost predicate Forward(w: World) {
    MovesForward(w.inventory) && MovesForward(w.projection) && MovesForward(w.execution)
  }

  datatype Snapshot = Snapshot(inventory: seq<nat>, projection: string, execution: string, catalog: string)

  /** Inventory, projection and execution all hold at one instant. */
  predicate HoldsAt(w: World, s: Snapshot, t: nat) {
    w.inventory(t) == s.inventory && w.projection(t) == s.projection && w.execution(t) == s.execution
  }

  /** No register changes between two instants. */
  ghost predicate Quiet(w: World, from: nat, to: nat) {
    forall t: nat | from <= t <= to ::
      && w.inventory(t) == w.inventory(from) && w.projection(t) == w.projection(from)
      && w.execution(t) == w.execution(from) && w.catalog(t) == w.catalog(from)
  }

  // ---------------------------------------------------------------- what a read does, step by step

  /** The evidence of one Version: the catalog read first, the execution sources read twice after it. */
  datatype Opened = Opened(catalog: string, execution: string)

  /** Before every read any time may pass; how much depends on how many reads there have been. */
  type Delay = nat -> nat

  datatype Clock = Clock(now: nat, readCount: nat) {
    function Next(delay: Delay): (c: Clock)
      ensures c.now >= now
    {
      Clock(now + delay(readCount), readCount + 1)
    }
  }

  /** When the catalog was read, and the execution sources at the beginning and at the end of the capture. */
  datatype Instants = Instants(committed: nat, captured: nat, ended: nat)

  datatype Opening = Opening(result: Result<Opened>, instants: Instants, clock: Clock)

  /** One attempt, and whether another one is due if the limit allows it. */
  datatype Trial<+T> = Trial(outcome: T, again: bool)

  function OpenOnce(w: World, delay: Delay, c: Clock): Trial<Opening> {
    var atCatalog := c.Next(delay);
    var atCapture := atCatalog.Next(delay);
    var atEnd := atCapture.Next(delay);
    var instants := Instants(atCatalog.now, atCapture.now, atEnd.now);
    if w.execution(atEnd.now) == w.execution(atCapture.now) then
      Trial(Opening(Success(Opened(w.catalog(atCatalog.now), w.execution(atCapture.now))), instants, atEnd), false)
    else
      var afterwards := atEnd.Next(delay);
      Trial(Opening(Failure("SNAPSHOT_UNSTABLE"), instants, afterwards), w.catalog(afterwards.now) != w.catalog(atCatalog.now))
  }

  /** Up to `left` attempts to open the Version. */
  function Opens(w: World, delay: Delay, c: Clock, left: nat): Opening
    decreases left
  {
    if left == 0 then Opening(Failure("SNAPSHOT_UNSTABLE"), Instants(c.now, c.now, c.now), c)
    else
      var t := OpenOnce(w, delay, c);
      if t.again then Opens(w, delay, t.outcome.clock, left - 1) else t.outcome
  }

  datatype Reading = Reading(result: Result<Snapshot>, instants: Instants, clock: Clock)

  function ReadOnce(w: World, delay: Delay, version: nat, c: Clock, limit: nat): Trial<Reading> {
    var here := Instants(c.now, c.now, c.now);
    var first := c.Next(delay);
    var available := w.inventory(first.now);
    if available == [] then Trial(Reading(Failure("SPEC_NOT_FOUND"), here, first), false)
    else if version !in available then Trial(Reading(Failure("FLOW_VERSION_NOT_FOUND"), here, first), false)
    else
      var second := first.Next(delay);
      var evidence := Opens(w, delay, second, limit);
      if evidence.result.Failure? then Trial(Reading(Failure("SNAPSHOT_UNSTABLE"), evidence.instants, evidence.clock), true)
      else
        var third := evidence.clock.Next(delay);
        var last := third.Next(delay);
        if available == w.inventory(third.now) && w.projection(second.now) == w.projection(last.now) then
          Trial(Reading(Success(Snapshot(available, w.projection(second.now), evidence.result.value.execution, evidence.result.value.catalog)),
                        evidence.instants, last), false)
        else Trial(Reading(Failure("SNAPSHOT_UNSTABLE"), evidence.instants, last), true)
  }

  /** Up to `left` attempts to read, each opening the Version up to `limit` times. */
  function Reads(w: World, delay: Delay, version: nat, c: Clock, limit: nat, left: nat): Reading
    decreases left
  {
    if left == 0 then Reading(Failure("SNAPSHOT_UNSTABLE"), Instants(c.now, c.now, c.now), c)
    else
      var t := ReadOnce(w, delay, version, c, limit);
      if t.again then Reads(w, delay, version, t.outcome.clock, limit, left - 1) else t.outcome
  }

  /** Without attempts left there is nothing but the failure. */
  lemma NoneLeft(w: World, delay: Delay, version: nat, c: Clock, limit: nat)
    ensures Opens(w, delay, c, 0) == Opening(Failure("SNAPSHOT_UNSTABLE"), Instants(c.now, c.now, c.now), c)
    ensures Reads(w, delay, version, c, limit, 0) == Reading(Failure("SNAPSHOT_UNSTABLE"), Instants(c.now, c.now, c.now), c)
  {
  }

  // ---------------------------------------------------------------- what a read returns

  /** The execution sources are the same at the beginning and at the end of the capture, the catalog was committed before. */
  ghost predicate OpenedWell(w: World, from: nat, o: Opening) {
    && from <= o.clock.now
    && (o.result.Failure? ==> o.result.error == "SNAPSHOT_UNSTABLE")
    && (o.result.Success? ==>
          && from <= o.instants.committed <= o.instants.captured <= o.instants.ended <= o.clock.now
          && w.catalog(o.instants.committed) == o.result.value.catalog
          && w.execution(o.instants.captured) == w.execution(o.instants.ended) == o.result.value.execution)
    && (Quiet(w, from, o.clock.now) ==> o.result.Success?)
  }

  lemma OpensOnceWell(w: World, delay: Delay, c: Clock)
    ensures OpenedWell(w, c.now, OpenOnce(w, delay, c).outcome)
  {
  }

  lemma {:induction false} OpensWell(w: World, delay: Delay, c: Clock, left: nat)
    requires left > 0
    ensures OpenedWell(w, c.now, Opens(w, delay, c, left))
    decreases left
  {
    OpensOnceWell(w, delay, c);
    var t := OpenOnce(w, delay, c);
    if t.again && left > 1 { OpensWell(w, delay, t.outcome.clock, left - 1); }
  }

  /** Inventory, projection and execution held together from the first to the second reading of the execution sources. */
  ghost predicate ReadWell(w: World, version: nat, from: nat, r: Reading) {
    && from <= r.clock.now
    && (r.result.Success? ==>
          var i, s := r.instants, r.result.value;
          && from <= i.committed <= i.captured <= i.ended <= r.clock.now
          && (forall t: nat | i.captured <= t <= i.ended :: HoldsAt(w, s, t))
          && (forall t: nat | i.committed <= t <= i.ended :: w.inventory(t) == s.inventory && w.projection(t) == s.projection)
          && w.catalog(i.committed) == s.catalog && version in s.inventory)
    && (r.result.Failure? ==>
          && r.result.error in {"SPEC_NOT_FOUND", "FLOW_VERSION_NOT_FOUND", "SNAPSHOT_UNSTABLE"}
          && (r.result.error != "SNAPSHOT_UNSTABLE" ==> exists t: nat | from <= t <= r.clock.now :: version !in w.inventory(t)))
    && (Quiet(w, from, r.clock.now) && version in w.inventory(from) ==> r.result.Success?)
  }

  lemma ReadsOnceWell(w: World, delay: Delay, version: nat, c: Clock, limit: nat)
    requires Forward(w) && limit > 0
    ensures ReadWell(w, version, c.now, ReadOnce(w, delay, version, c, limit).outcome)
    ensures ReadOnce(w, delay, version, c, limit).again ==>
              ReadOnce(w, delay, version, c, limit).outcome.result == Failure("SNAPSHOT_UNSTABLE")
  {
    OpensWell(w, delay, c.Next(delay).Next(delay), limit);
  }

  lemma {:induction false} ReadsWell(w: World, delay: Delay, version: nat, c: Clock, limit: nat, left: nat)
    requires Forward(w) && limit > 0 && left > 0
    ensures ReadWell(w, version, c.now, Reads(w, delay, version, c, limit, left))
    decreases left
  {
    ReadsOnceWell(w, delay, version, c, limit);
    var t := ReadOnce(w, delay, version, c, limit);
    if t.again && left > 1 { ReadsWell(w, delay, version, t.outcome.clock, limit, left - 1); }
  }

  // ---------------------------------------------------------------- trying again

  function Readings(delay: Delay, c: Clock, n: nat): (d: Clock)
    ensures d.now >= c.now
    decreases n
  {
    if n == 0 then c else Readings(delay, c.Next(delay), n - 1)
  }

  /** Where the `k`-th attempt to open begins: an attempt that has to be repeated takes four readings. */
  function NthOpening(delay: Delay, c: Clock, k: nat): (d: Clock)
    ensures d.now >= c.now
    decreases k
  {
    if k == 0 then c else NthOpening(delay, Readings(delay, c, 4), k - 1)
  }

  /** The execution sources change during the capture, and by its end the catalog has changed. */
  predicate ChangesUnder(w: World, delay: Delay, c: Clock) {
    && w.execution(Readings(delay, c, 2).now) != w.execution(Readings(delay, c, 3).now)
    && w.catalog(Readings(delay, c, 1).now) != w.catalog(Readings(delay, c, 4).now)
  }

  predicate OpeningChanges(w: World, delay: Delay, c: Clock, k: nat) {
    ChangesUnder(w, delay, NthOpening(delay, c, k))
  }

  lemma OpensOnceReads(w: World, delay: Delay, c: Clock)
    ensures OpenOnce(w, delay, c).again <==> ChangesUnder(w, delay, c)
    ensures OpenOnce(w, delay, c).again ==> OpenOnce(w, delay, c).outcome.clock == Readings(delay, c, 4)
    ensures var o := OpenOnce(w, delay, c).outcome;
            var r1, r2, r3 := Readings(delay, c, 1), Readings(delay, c, 2), Readings(delay, c, 3);
            && o.instants == Instants(r1.now, r2.now, r3.now)
            && o.result == (if w.execution(r2.now) == w.execution(r3.now) then Success(Opened(w.catalog(r1.now), w.execution(r2.now)))
                            else Failure("SNAPSHOT_UNSTABLE"))
  {
    var d := c.Next(delay).Next(delay);
    assert Readings(delay, c, 1) == c.Next(delay) && Readings(delay, c, 2) == d;
    assert Readings(delay, c, 3) == d.Next(delay) && Readings(delay, c, 4) == d.Next(delay).Next(delay);
  }

  /** Opening repeats exactly while execution sources and catalog change under it, and ends with the first attempt where they do not. */
  lemma {:induction false} OpensAtTheFirst(w: World, delay: Delay, c: Clock, left: nat, n: nat)
    requires n < left && (forall k | 0 <= k < n :: OpeningChanges(w, delay, c, k)) && !OpeningChanges(w, delay, c, n)
    ensures Opens(w, delay, c, left) == OpenOnce(w, delay, NthOpening(delay, c, n)).outcome
    decreases n
  {
    hide OpenOnce, ChangesUnder, Readings;
    OpensOnceReads(w, delay, c);
    if n == 0 {
      assert NthOpening(delay, c, 0) == c;
    } else {
      var next := Readings(delay, c, 4);
      assert OpeningChanges(w, delay, c, 0);
      forall k | 0 <= k < n - 1 ensures OpeningChanges(w, delay, next, k) {
        assert OpeningChanges(w, delay, c, k + 1);
      }
      OpensAtTheFirst(w, delay, next, left - 1, n - 1);
    }
  }

  lemma {:induction false} OpensUntilExhausted(w: World, delay: Delay, c: Clock, left: nat)
    requires forall k | 0 <= k < left :: OpeningChanges(w, delay, c, k)
    ensures Opens(w, delay, c, left).result == Failure("SNAPSHOT_UNSTABLE")
    ensures Opens(w, delay, c, left).clock == NthOpening(delay, c, left)
    decreases left
  {
    hide OpenOnce, ChangesUnder, Readings;
    if left > 0 {
      OpensOnceReads(w, delay, c);
      var next := Readings(delay, c, 4);
      assert OpeningChanges(w, delay, c, 0);
      forall k | 0 <= k < left - 1 ensures OpeningChanges(w, delay, next, k) {
        assert OpeningChanges(w, delay, c, k + 1);
      }
      OpensUntilExhausted(w, delay, next, left - 1);
    }
  }

  /** Where the `k`-th attempt to read begins. */
  function NthAttempt(w: World, delay: Delay, version: nat, c: Clock, limit: nat, k: nat): Clock
    decreases k
  {
    if k == 0 then c else NthAttempt(w, delay, version, ReadOnce(w, delay, version, c, limit).outcome.clock, limit, k - 1)
  }

  /** Nothing changes during the `k`-th attempt. */
  ghost predicate QuietAttempt(w: World, delay: Delay, version: nat, c: Clock, limit: nat, k: nat) {
    Quiet(w, NthAttempt(w, delay, version, c, limit, k).now, NthAttempt(w, delay, version, c, limit, k + 1).now)
  }

  lemma AgainIsUnstable(w: World, delay: Delay, version: nat, c: Clock, limit: nat)
    requires Forward(w) && limit > 0
    ensures var t := ReadOnce(w, delay, version, c, limit);
            && (t.again <==> t.outcome.result == Failure("SNAPSHOT_UNSTABLE"))
            && (Quiet(w, c.now, t.outcome.clock.now) ==> !t.again)
            && (Quiet(w, c.now, t.outcome.clock.now) && version in w.inventory(c.now) ==> t.outcome.result.Success?)
            && c.now <= t.outcome.clock.now
  {
    ReadsOnceWell(w, delay, version, c, limit);
    var t := ReadOnce(w, delay, version, c, limit);
    if Quiet(w, c.now, t.outcome.clock.now) {
      OpensWell(w, delay, c.Next(delay).Next(delay), limit);
      assert c.Next(delay).now <= t.outcome.clock.now;
      assert w.inventory(c.Next(delay).now) == w.inventory(c.now);
    }
  }

  /** A read that gives up as unstable has made every attempt, and something changed during each of them. */
  lemma {:induction false} UnstableMeansEveryAttemptChanged(w: World, delay: Delay, version: nat, c: Clock, limit: nat, left: nat, k: nat)
    requires Forward(w) && limit > 0 && k < left
    requires Reads(w, delay, version, c, limit, left).result == Failure("SNAPSHOT_UNSTABLE")
    ensures !QuietAttempt(w, delay, version, c, limit, k)
    decreases k
  {
    hide ReadOnce, Quiet;
    AgainIsUnstable(w, delay, version, c, limit);
    var next := ReadOnce(w, delay, version, c, limit).outcome.clock;
    if k > 0 {
      UnstableMeansEveryAttemptChanged(w, delay, version, next, limit, left - 1, k - 1);
    } else {
      assert NthAttempt(w, delay, version, c, limit, 1) == NthAttempt(w, delay, version, next, limit, 0) == next;
    }
  }

  /** One quiet attempt among those allowed is enough, if the Version is in the inventory up to its end. */
  lemma {:induction false} QuietAttemptSucceeds(w: World, delay: Delay, version: nat, c: Clock, limit: nat, left: nat, k: nat)
    requires Forward(w) && limit > 0 && k < left && QuietAttempt(w, delay, version, c, limit, k)
    requires forall t: nat | c.now <= t <= NthAttempt(w, delay, version, c, limit, k + 1).now :: version in w.inventory(t)
    ensures Reads(w, delay, version, c, limit, left).result.Success?
    decreases k
  {
    hide ReadOnce, Quiet;
    AgainIsUnstable(w, delay, version, c, limit);
    ReadsOnceWell(w, delay, version, c, limit);
    var next := ReadOnce(w, delay, version, c, limit).outcome.clock;
    AttemptsGoOn(w, delay, version, next, limit, k);
    assert NthAttempt(w, delay, version, c, limit, k + 1) == NthAttempt(w, delay, version, next, limit, k);
    if k > 0 {
      if ReadOnce(w, delay, version, c, limit).again {
        QuietAttemptSucceeds(w, delay, version, next, limit, left - 1, k - 1);
      }
    } else {
      assert NthAttempt(w, delay, version, next, limit, 0) == next;
    }
  }

  lemma {:induction false} AttemptsGoOn(w: World, delay: Delay, version: nat, c: Clock, limit: nat, k: nat)
    requires Forward(w) && limit > 0
    ensures c.now <= NthAttempt(w, delay, version, c, limit, k).now
    decreases k
  {
    hide ReadOnce;
    if k > 0 {
      AgainIsUnstable(w, delay, version, c, limit);
      AttemptsGoOn(w, delay, version, ReadOnce(w, delay, version, c, limit).outcome.clock, limit, k - 1);
    }
  }

  // ---------------------------------------------------------------- the reader

  class Reader {
    const world: World
    const delay: Delay
    const maxAttempts: nat
    var clock: Clock

    constructor (world: World, delay: Delay, now: nat)
      ensures this.world == world && this.delay == delay && clock == Clock(now, 0)
      ensures maxAttempts == 3
    {
      this.world := world;
      this.delay := delay;
      this.maxAttempts := MAX_SNAPSHOT_ATTEMPTS;
      this.clock := Clock(now, 0);
    }

    method Pass()
      modifies this
      ensures clock == old(clock).Next(delay)
    {
      clock := clock.Next(delay);
    }

    /** The next of up to `left` attempts: what remains to be done is what was to be done. */
    method TryOpen(ghost left: nat) returns (r: Result<Opened>, ghost instants: Instants, again: bool)
      requires left > 0
      modifies this
      ensures Opens(world, delay, old(clock), left)
           == if again then Opens(world, delay, clock, left - 1) else Opening(r, instants, clock)
    {
      Pass();
      var catalog := world.catalog(clock.now);
      ghost var committed := clock.now;
      Pass();
      var execution := world.execution(clock.now);
      ghost var captured := clock.now;
      Pass();
      instants := Instants(committed, captured, clock.now);
      if world.execution(clock.now) == execution { return Success(Opened(catalog, execution)), instants, false; }
      Pass();
      return Failure("SNAPSHOT_UNSTABLE"), instants, world.catalog(clock.now) != catalog;
    }

    /** Opens the Version, again and again while the catalog changes under a failing capture. */
    method Open() returns (r: Result<Opened>, ghost instants: Instants)
      modifies this
      ensures Opening(r, instants, clock) == Opens(world, delay, old(clock), maxAttempts)
    {
      hide *;
      ghost var opening := Opens(world, delay, clock, maxAttempts);
      var attempt := 0;
      while attempt < maxAttempts
        invariant attempt <= maxAttempts
        invariant opening == Opens(world, delay, clock, maxAttempts - attempt)
      {
        var again;
        r, instants, again := TryOpen(maxAttempts - attempt);
        if !again { return r, instants; }
        attempt := attempt + 1;
      }
      NoneLeft(world, delay, 0, clock, maxAttempts);
      return Failure("SNAPSHOT_UNSTABLE"), Instants(clock.now, clock.now, clock.now);
    }

    /** The next of up to `left` attempts: what remains to be done is what was to be done. */
    method TryRead(version: nat, ghost left: nat) returns (r: Result<Snapshot>, ghost instants: Instants, again: bool)
      requires left > 0
      modifies this
      ensures Reads(world, delay, version, old(clock), maxAttempts, left)
           == if again then Reads(world, delay, version, clock, maxAttempts, left - 1) else Reading(r, instants, clock)
      ensures again <==> r == Failure("SNAPSHOT_UNSTABLE")
    {
      instants := Instants(clock.now, clock.now, clock.now);
      Pass();
      var available := world.inventory(clock.now);
      if available == [] { return Failure("SPEC_NOT_FOUND"), instants, false; }
      if version !in available { return Failure("FLOW_VERSION_NOT_FOUND"), instants, false; }
      Pass();
      var projection := world.projection(clock.now);
      var evidence;
      evidence, instants := Open();
      if evidence.Failure? { return Failure("SNAPSHOT_UNSTABLE"), instants, true; }
      Pass();
      var after := world.inventory(clock.now);
      Pass();
      var endingProjection := world.projection(clock.now);
      if available == after && projection == endingProjection {
        return Success(Snapshot(available, projection, evidence.value.execution, evidence.value.catalog)), instants, false;
      }
      return Failure("SNAPSHOT_UNSTABLE"), instants, true;
    }

    method Retry(version: nat) returns (r: Result<Snapshot>, ghost instants: Instants, attempts: nat)
      modifies this
      ensures attempts <= maxAttempts && (r == Failure("SNAPSHOT_UNSTABLE") ==> attempts == maxAttempts)
      ensures Reading(r, instants, clock) == Reads(world, delay, version, old(clock), maxAttempts, maxAttempts)
    {
      hide *;
      ghost var reading := Reads(world, delay, version, clock, maxAttempts, maxAttempts);
      attempts := 0;
      while attempts < maxAttempts
        invariant attempts <= maxAttempts
        invariant reading == Reads(world, delay, version, clock, maxAttempts, maxAttempts - attempts)
      {
        var again;
        r, instants, again := TryRead(version, maxAttempts - attempts);
        attempts := attempts + 1;
        if !again { return r, instants, attempts; }
      }
      NoneLeft(world, delay, version, clock, maxAttempts);
      return Failure("SNAPSHOT_UNSTABLE"), Instants(clock.now, clock.now, clock.now), attempts;
    }

    /**
     A response carries an inventory, a projection and an execution that held together at an instant of
     the read. The read gives up after a bounded number of attempts, and only when something changed
     under it; a quiet world is always read.
    */
    method Read(version: nat) returns (r: Result<Snapshot>, ghost instants: Instants, attempts: nat)
      requires Forward(world) && maxAttempts > 0
      modifies this
      ensures attempts <= maxAttempts && (r == Failure("SNAPSHOT_UNSTABLE") ==> attempts == maxAttempts)
      ensures Reading(r, instants, clock) == Reads(world, delay, version, old(clock), maxAttempts, maxAttempts)
      ensures ReadWell(world, version, old(clock.now), Reading(r, instants, clock))
    {
      ReadsWell(world, delay, version, clock, maxAttempts, maxAttempts);
      r, instants, attempts := Retry(version);
    }
  }

  // ---------------------------------------------------------------- the catalog

  /** All four values of a snapshot hold at one instant. */
  predicate AllHoldAt(w: World, s: Snapshot, t: nat) {
    HoldsAt(w, s, t) && w.catalog(t) == s.catalog
  }

  /** The first instant from `from` on at which a register shows this value, given one at which it does. */
  function FirstShown<V(==)>(register: nat -> V, value: V, from: nat, last: nat): (t: nat)
    requires from <= last && register(last) == value
    ensures from <= t <= last && register(t) == value
    ensures (forall u: nat | from <= u < t :: register(u) != value)
    decreases last - from
  {
    if register(from) == value then from else FirstShown(register, value, from + 1, last)
  }

  /**
   The catalog is read before the execution sources and not compared again after a successful capture. All
   four values of a response held together at some instant if and only if the catalog read first was still
   committed when, from then on, the execution sources first showed what was captured.
  */
  lemma CatalogHoldsTooIff(w: World, delay: Delay, version: nat, c: Clock, limit: nat, left: nat)
    requires Forward(w) && MovesForward(w.catalog) && limit > 0 && left > 0
    requires Reads(w, delay, version, c, limit, left).result.Success?
    ensures var r := Reads(w, delay, version, c, limit, left);
            var s, i := r.result.value, r.instants;
            && i.committed <= i.captured && w.execution(i.captured) == s.execution
            && ((exists t: nat :: AllHoldAt(w, s, t)) <==>
                w.catalog(FirstShown(w.execution, s.execution, i.committed, i.captured)) == s.catalog)
  {
    ReadsWell(w, delay, version, c, limit, left);
    var r := Reads(w, delay, version, c, limit, left);
    var s, i := r.result.value, r.instants;
    assert HoldsAt(w, s, i.captured);
    var first := FirstShown(w.execution, s.execution, i.committed, i.captured);
    if w.catalog(first) == s.catalog { assert AllHoldAt(w, s, first); }
    if t: nat :| AllHoldAt(w, s, t) {
      if t < i.committed {
        assert w.execution(i.committed) == s.execution;
      } else {
        assert first <= t;
      }
    }
  }

  /**
   What the reader could check: reading the catalog once more at the end of the capture gives the returned
   one if and only if all four values still held together from then on.
  */
  lemma RereadingDecides(w: World, delay: Delay, version: nat, c: Clock, limit: nat, left: nat)
    requires Forward(w) && MovesForward(w.catalog) && limit > 0 && left > 0
    requires Reads(w, delay, version, c, limit, left).result.Success?
    ensures var r := Reads(w, delay, version, c, limit, left);
            w.catalog(r.instants.ended) == r.result.value.catalog <==>
            exists t: nat :: r.instants.ended <= t && AllHoldAt(w, r.result.value, t)
  {
    ReadsWell(w, delay, version, c, limit, left);
    var r := Reads(w, delay, version, c, limit, left);
    var s, i := r.result.value, r.instants;
    if w.catalog(i.ended) == s.catalog { assert AllHoldAt(w, s, i.ended); }
    if t: nat :| i.ended <= t && AllHoldAt(w, s, t) {
      assert w.catalog(i.committed) == w.catalog(t);
    }
  }

  /**
   A read that returns a catalog and an execution that never held together: the catalog is replaced, and
   after it the execution sources change, between the two readings.
  */
  lemma CatalogMayBeOlder() returns (w: World, delay: Delay, version: nat, c: Clock)
    ensures Forward(w) && MovesForward(w.catalog)
    ensures Reads(w, delay, version, c, MAX_SNAPSHOT_ATTEMPTS, MAX_SNAPSHOT_ATTEMPTS).result.Success?
    ensures forall t: nat :: !AllHoldAt(w, Reads(w, delay, version, c, MAX_SNAPSHOT_ATTEMPTS, MAX_SNAPSHOT_ATTEMPTS).result.value, t)
  {
    w := World((t: nat) => [1], (t: nat) => "p", (t: nat) => if t < 2 then "before" else "after", (t: nat) => if t < 1 then "c0" else "c1");
    delay, version, c := (n: nat) => if n == 3 then 2 else 0, 1, Clock(0, 0);
    var o := Opens(w, delay, Clock(0, 2), MAX_SNAPSHOT_ATTEMPTS);
    assert o == Opening(Success(Opened("c0", "after")), Instants(0, 2, 2), Clock(2, 5));
    assert Reads(w, delay, version, c, MAX_SNAPSHOT_ATTEMPTS, MAX_SNAPSHOT_ATTEMPTS).result == Success(Snapshot([1], "p", "after", "c0"));
  }
}
