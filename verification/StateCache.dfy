/**
  Reachability edges and availability events of core/state/state_cache.cpp.

  Every function below is one lock section of the source; polls on any thread
  and the sections of a provider rebuild interleave freely. A handle is a pair,
  so that "belongs to this provider" is not a string-prefix test.
 */
module StateCache {
  import opened Lists
  import opened Options

  datatype Handle = Handle(provider: string, device: string)

  /** The reachability part of a device's state; `Fresh` is what a new device starts with. */
  datatype Reach = Reach(providerAvailable: bool, lossReported: bool, unavailableEmitted: bool)

  const FRESH := Reach(true, false, false)

  /** What leaves the cache: numbered edges to the sink, and events to subscribers. */
  datatype Event = Loss(h: Handle, number: nat) | Return(h: Handle, number: nat)
                 | Availability(h: Handle, available: bool) | Removed(h: Handle)

  datatype Cache = Cache(live: map<Handle, Reach>, departed: map<Handle, Reach>, counter: nat, log: seq<Event>) {
    function Emit(e: Event): Cache { this.(log := log + [e]) }
    function Set(h: Handle, r: Reach): Cache { this.(live := live[h := r]) }
  }

  /** A `device_availability` event, under the lock that decided it. */
  function Announce(c: Cache, h: Handle, available: bool): Cache
    requires h in c.live
  {
    c.Emit(Availability(h, available)).Set(h, c.live[h].(unavailableEmitted := !available))
  }

  /** A reachability edge, numbered by the cache-wide counter. */
  function Decide(c: Cache, h: Handle, reachable: bool): Cache
    requires h in c.live
  {
    var n := c.counter + 1;
    c.(counter := n).Emit(if reachable then Return(h, n) else Loss(h, n)).Set(h, c.live[h].(lossReported := !reachable))
  }

  function SetAvailable(c: Cache, h: Handle, available: bool): Cache
    requires h in c.live
  {
    c.Set(h, c.live[h].(providerAvailable := available))
  }

  /** `poll_device`, failed read: the availability event, then the loss edge of an in-band failure. */
  function ReadFailed(c: Cache, h: Handle, shuttingDown: bool, providerLost: bool): Cache {
    if h !in c.live then c
    else
      var told := MarkDown(c, h, shuttingDown);
      if !shuttingDown && !providerLost && !c.live[h].lossReported then Decide(told, h, false) else told
  }

  /** `update_device_state`, good read: the availability event, then the return edge. */
  function ReadOk(c: Cache, h: Handle): Cache {
    if h !in c.live then c
    else
      var up := SetAvailable(c, h, true);
      var told := if c.live[h].unavailableEmitted then Announce(up, h, true) else up;
      if c.live[h].lossReported then Decide(told, h, true) else told
  }

  /** One device of `mark_provider_devices_unavailable`: no edge, since its provider is what was lost. */
  function MarkDown(c: Cache, h: Handle, shuttingDown: bool): Cache {
    if h !in c.live then c
    else
      var down := SetAvailable(c, h, false);
      if !shuttingDown && !c.live[h].unavailableEmitted then Announce(down, h, false) else down
  }

  /** The provider's part of the live states. */
  function Carried(c: Cache, provider: string): map<Handle, Reach> {
    map h | h in c.live && h.provider == provider :: c.live[h]
  }

  /** `rebuild_poll_configs`, taking the provider's old states out. */
  function CarryOut(c: Cache, provider: string): Cache {
    c.(live := map h | h in c.live && h.provider != provider :: c.live[h])
  }

  /** The reachability a device re-enters with: this rebuild's old state, else an earlier departure, else fresh. */
  function Prior(c: Cache, carried: map<Handle, Reach>, h: Handle): Reach {
    if h in carried then carried[h] else if h in c.departed then c.departed[h] else FRESH
  }

  /** `rebuild_poll_configs`, one device of the new inventory. */
  function Insert(c: Cache, carried: map<Handle, Reach>, h: Handle): Cache {
    c.Set(h, Prior(c, carried, h)).(departed := c.departed - {h})
  }

  /** `rebuild_poll_configs`, one old device the new inventory dropped. */
  function Drop(c: Cache, carried: map<Handle, Reach>, h: Handle): Cache
    requires h in carried
  {
    var gone := c.Emit(Removed(h));
    if carried[h].lossReported then gone.(departed := c.departed[h := carried[h]]) else gone
  }

  // ---- The class ---------------------------------------------------------------------

  class Cacher {
    var live: map<Handle, Reach>
    var departed: map<Handle, Reach>
    var counter: nat
    ghost var log: seq<Event>

    ghost function State(): Cache
      reads this
    {
      Cache(live, departed, counter, log)
    }

    constructor ()
      ensures State() == Cache(map[], map[], 0, [])
    {
      live, departed, counter, log := map[], map[], 0, [];
    }

    method FailedRead(h: Handle, shuttingDown: bool, providerLost: bool) returns (lossNumber: Option<nat>)
      modifies this
      ensures State() == ReadFailed(old(State()), h, shuttingDown, providerLost)
      ensures lossNumber.Some? <==> counter != old(counter)
      ensures lossNumber.Some? ==> lossNumber.value == counter
    {
      lossNumber := None;
      if h in live {
        var r := live[h].(providerAvailable := false);
        if !shuttingDown && !r.unavailableEmitted {
          r := r.(unavailableEmitted := true);
          log := log + [Availability(h, false)];
        }
        if !shuttingDown && !providerLost && !r.lossReported {
          r := r.(lossReported := true);
          counter := counter + 1;
          log := log + [Loss(h, counter)];
          lossNumber := Some(counter);
        }
        live := live[h := r];
      }
    }

    method GoodRead(h: Handle) returns (returnNumber: Option<nat>)
      modifies this
      ensures State() == ReadOk(old(State()), h)
      ensures returnNumber.Some? <==> counter != old(counter)
      ensures returnNumber.Some? ==> returnNumber.value == counter
    {
      returnNumber := None;
      if h in live {
        var r := live[h].(providerAvailable := true);
        if r.unavailableEmitted {
          r := r.(unavailableEmitted := false);
          log := log + [Availability(h, true)];
        }
        if r.lossReported {
          r := r.(lossReported := false);
          counter := counter + 1;
          log := log + [Return(h, counter)];
          returnNumber := Some(counter);
        }
        live := live[h := r];
      }
    }

    /** The loop over one provider's devices, all under one lock. */
    method MarkProviderDevicesUnavailable(handles: seq<Handle>, shuttingDown: bool)
      modifies this
      ensures State() == MarkAllDown(old(State()), handles, shuttingDown)
    {
      for i := 0 to |handles|
        invariant MarkAllDown(State(), handles[i..], shuttingDown) == MarkAllDown(old(State()), handles, shuttingDown)
      {
        assert handles[i..][1..] == handles[i + 1..];
        var h := handles[i];
        ghost var before := State();
        if h in live {
          var r := live[h].(providerAvailable := false);
          if !shuttingDown && !r.unavailableEmitted {
            r := r.(unavailableEmitted := true);
            log := log + [Availability(h, false)];
          }
          live := live[h := r];
        }
        assert live == MarkDown(before, h, shuttingDown).live;
      }
    }
  }

  function MarkAllDown(c: Cache, handles: seq<Handle>, shuttingDown: bool): Cache
    decreases |handles|
  {
    if handles == [] then c else MarkAllDown(MarkDown(c, handles[0], shuttingDown), handles[1..], shuttingDown)
  }

  // ---- Interleavings --------------------------------------------------------------------

  /** A rebuild under way: what it carried out, the devices still to put back, and those it has. */
  datatype Rebuild = Rebuild(provider: string, carried: map<Handle, Reach>, todo: seq<Handle>, inserted: set<Handle>,
                             dropping: bool)

  /** `duplicated` records that some inventory listed one handle twice. */
  datatype State = State(c: Cache, rebuild: Option<Rebuild>, duplicated: bool)

  datatype Action =
    | FailRead(h: Handle, shuttingDown: bool, providerLost: bool) | GoodReadOf(h: Handle)
    | LoseProvider(h: Handle, shuttingDown: bool)
    | Begin(provider: string, inventory: seq<Handle>) | InsertNext | StartDropping | DropOne(h: Handle) | End

  predicate Enabled(s: State, a: Action) {
    match a
    case FailRead(_, _, _) => true
    case GoodReadOf(_) => true
    case LoseProvider(_, _) => true
    case Begin(provider, inventory) => s.rebuild.None? && forall h <- inventory :: h.provider == provider
    case InsertNext => s.rebuild.Some? && s.rebuild.value.todo != []
    case StartDropping => s.rebuild.Some? && s.rebuild.value.todo == [] && !s.rebuild.value.dropping
    case DropOne(h) => s.rebuild.Some? && s.rebuild.value.dropping && h in s.rebuild.value.carried && h !in s.c.live
    case End => s.rebuild.Some? && s.rebuild.value.dropping && s.rebuild.value.carried.Keys <= s.c.live.Keys
  }

  function Fire(s: State, a: Action): State
    requires Enabled(s, a)
  {
    match a
    case FailRead(h, shuttingDown, providerLost) => s.(c := ReadFailed(s.c, h, shuttingDown, providerLost))
    case GoodReadOf(h) => s.(c := ReadOk(s.c, h))
    case LoseProvider(h, shuttingDown) => s.(c := MarkDown(s.c, h, shuttingDown))
    case Begin(provider, inventory) =>
      s.(c := CarryOut(s.c, provider), rebuild := Some(Rebuild(provider, Carried(s.c, provider), inventory, {}, false)))
    case InsertNext =>
      var b := s.rebuild.value;
      var h := b.todo[0];
      s.(c := Insert(s.c, b.carried, h), rebuild := Some(b.(todo := b.todo[1..], inserted := b.inserted + {h})),
         duplicated := s.duplicated || h in b.inserted)
    case StartDropping => s.(rebuild := Some(s.rebuild.value.(dropping := true)))
    case DropOne(h) =>
      var b := s.rebuild.value;
      s.(c := Drop(s.c, b.carried, h), rebuild := Some(b.(carried := b.carried - {h})))
    case End => s.(rebuild := None)
  }

  ghost predicate Next(s: State, s': State) {
    exists a: Action :: Enabled(s, a) && s' == Fire(s, a)
  }

  /** The cache starts with any set of devices, all reachable. */
  ghost predicate Init(s: State) {
    && s.rebuild.None? && !s.duplicated
    && s.c.departed == map[] && s.c.counter == 0 && s.c.log == []
    && forall h :: h in s.c.live ==> s.c.live[h] == FRESH
  }

  ghost predicate StepsTo(run: seq<State>, i: nat)
    requires 0 < i < |run|
  {
    Next(run[i - 1], run[i])
  }

  ghost predicate IsRun(run: seq<State>) {
    run != [] && Init(run[0]) && forall i :: 0 < i < |run| ==> StepsTo(run, i)
  }

  // ---- What is on record for a device ----------------------------------------------------------

  /** The reachability on record, wherever it is kept just now. */
  function Record(s: State, h: Handle): Reach {
    if h in s.c.live then s.c.live[h]
    else Prior(s.c, if s.rebuild.Some? then s.rebuild.value.carried else map[], h)
  }

  /** The edges of a device in the order decided; true for a loss. */
  function EdgesOf(log: seq<Event>, h: Handle): seq<bool> {
    if log == [] then []
    else
      var e := log[|log| - 1];
      EdgesOf(log[..|log| - 1], h)
      + (if e.Loss? && e.h == h then [true] else if e.Return? && e.h == h then [false] else [])
  }

  /** The availability events of a device, in order. */
  function AvailabilityOf(log: seq<Event>, h: Handle): seq<bool> {
    if log == [] then []
    else
      var e := log[|log| - 1];
      AvailabilityOf(log[..|log| - 1], h) + (if e.Availability? && e.h == h then [e.available] else [])
  }

  /** Every `true` comes directly after a `false`, which it answers. */
  predicate EachTrueAnswersAFalse(events: seq<bool>) {
    forall i :: 0 <= i < |events| && events[i] ==> i > 0 && !events[i - 1]
  }

  predicate NumbersIncrease(log: seq<Event>, counter: nat) {
    && (forall i :: 0 <= i < |log| && (log[i].Loss? || log[i].Return?) ==> log[i].number <= counter)
    && (forall i, j :: 0 <= i < j < |log| && (log[i].Loss? || log[i].Return?) && (log[j].Loss? || log[j].Return?) ==>
          log[i].number < log[j].number)
  }

  /** The record of one device against its history. */
  ghost predicate DeviceOk(log: seq<Event>, h: Handle, r: Reach) {
    && Alternates(EdgesOf(log, h))
    && (r.lossReported <==> |EdgesOf(log, h)| % 2 == 1)
    && EachTrueAnswersAFalse(AvailabilityOf(log, h))
    && (r.unavailableEmitted ==>
          var events := AvailabilityOf(log, h); events != [] && !events[|events| - 1])
  }

  predicate OfProvider(b: Rebuild) {
    && (forall h <- b.carried :: h.provider == b.provider)
    && (forall h <- b.inserted :: h.provider == b.provider)
    && (forall h <- b.todo :: h.provider == b.provider)
  }

  ghost predicate Inv(s: State) {
    && NumbersIncrease(s.c.log, s.c.counter)
    && (forall h :: DeviceOk(s.c.log, h, Record(s, h)))
    && (s.rebuild.Some? ==> OfProvider(s.rebuild.value))
    && (s.rebuild.Some? ==>
          forall h :: h in s.c.live && h.provider == s.rebuild.value.provider <==> h in s.rebuild.value.inserted)
    && (s.rebuild.Some? ==> s.c.departed.Keys !! s.rebuild.value.carried.Keys - s.rebuild.value.inserted)
    && s.c.departed.Keys !! s.c.live.Keys
  }

  lemma EmitSteps(log: seq<Event>, e: Event, h: Handle)
    ensures EdgesOf(log + [e], h) ==
            EdgesOf(log, h) + (if e.Loss? && e.h == h then [true] else if e.Return? && e.h == h then [false] else [])
    ensures AvailabilityOf(log + [e], h) ==
            AvailabilityOf(log, h) + (if e.Availability? && e.h == h then [e.available] else [])
  {
    assert (log + [e])[..|log|] == log;
  }

  /** Emitting an event keeps a device's history in order, with the record updated to match. */
  lemma EmitKeepsDevice(log: seq<Event>, e: Event, h: Handle, r: Reach, r': Reach)
    requires DeviceOk(log, h, r)
    requires e.h != h ==> r' == r
    requires e.h == h && e.Loss? ==> !r.lossReported && r' == r.(lossReported := true)
    requires e.h == h && e.Return? ==> r.lossReported && r' == r.(lossReported := false)
    requires e.h == h && e.Availability? ==> r' == r.(unavailableEmitted := !e.available)
                                             && (e.available ==> r.unavailableEmitted)
    requires e.h == h && e.Removed? ==> r' == r || (!r.lossReported && r' == FRESH)
    ensures DeviceOk(log + [e], h, r')
  {
    EmitSteps(log, e, h);
  }

  /**
    A poll's change of one live device: its record becomes `c'.live[h0]`, every
    other record stays, and all histories stay in order.
   */
  ghost predicate PollOk(c: Cache, c': Cache, h0: Handle) {
    && h0 in c.live && c'.live.Keys == c.live.Keys && c'.departed == c.departed
    && (forall h :: h in c.live && h != h0 ==> c'.live[h] == c.live[h])
    && (NumbersIncrease(c.log, c.counter) ==> NumbersIncrease(c'.log, c'.counter))
    && (forall h, r :: h != h0 && DeviceOk(c.log, h, r) ==> DeviceOk(c'.log, h, r))
    && (DeviceOk(c.log, h0, c.live[h0]) ==> DeviceOk(c'.log, h0, c'.live[h0]))
  }

  lemma SetAvailableIsOk(c: Cache, h0: Handle, available: bool)
    requires h0 in c.live
    ensures PollOk(c, SetAvailable(c, h0, available), h0)
  {
  }

  lemma AnnounceIsOk(c: Cache, h0: Handle, available: bool)
    requires h0 in c.live && (available ==> c.live[h0].unavailableEmitted)
    ensures PollOk(c, Announce(c, h0, available), h0)
  {
    var c' := Announce(c, h0, available);
    forall h, r | DeviceOk(c.log, h, r) && (h == h0 ==> r == c.live[h0])
      ensures DeviceOk(c'.log, h, if h == h0 then c'.live[h0] else r)
    {
      EmitKeepsDevice(c.log, Availability(h0, available), h, r, if h == h0 then c'.live[h0] else r);
    }
  }

  lemma DecideIsOk(c: Cache, h0: Handle, reachable: bool)
    requires h0 in c.live && c.live[h0].lossReported == reachable
    ensures PollOk(c, Decide(c, h0, reachable), h0)
  {
    var c' := Decide(c, h0, reachable);
    forall h, r | DeviceOk(c.log, h, r) && (h == h0 ==> r == c.live[h0])
      ensures DeviceOk(c'.log, h, if h == h0 then c'.live[h0] else r)
    {
      EmitKeepsDevice(c.log, c'.log[|c.log|], h, r, if h == h0 then c'.live[h0] else r);
    }
  }

  lemma PollOkComposes(a: Cache, b: Cache, c: Cache, h0: Handle)
    requires PollOk(a, b, h0) && PollOk(b, c, h0)
    ensures PollOk(a, c, h0)
  {
  }

  lemma MarkDownIsOk(c: Cache, h0: Handle, shuttingDown: bool)
    requires h0 in c.live
    ensures PollOk(c, MarkDown(c, h0, shuttingDown), h0)
    ensures MarkDown(c, h0, shuttingDown).live[h0].lossReported == c.live[h0].lossReported
  {
    var down := SetAvailable(c, h0, false);
    SetAvailableIsOk(c, h0, false);
    if !shuttingDown && !c.live[h0].unavailableEmitted {
      AnnounceIsOk(down, h0, false);
      PollOkComposes(c, down, Announce(down, h0, false), h0);
    }
  }

  lemma ReadFailedIsOk(c: Cache, h0: Handle, shuttingDown: bool, providerLost: bool)
    requires h0 in c.live
    ensures PollOk(c, ReadFailed(c, h0, shuttingDown, providerLost), h0)
  {
    var told := MarkDown(c, h0, shuttingDown);
    MarkDownIsOk(c, h0, shuttingDown);
    if !shuttingDown && !providerLost && !c.live[h0].lossReported {
      DecideIsOk(told, h0, false);
      PollOkComposes(c, told, Decide(told, h0, false), h0);
    }
  }

  lemma ReadOkIsOk(c: Cache, h0: Handle)
    requires h0 in c.live
    ensures PollOk(c, ReadOk(c, h0), h0)
  {
    var up := SetAvailable(c, h0, true);
    SetAvailableIsOk(c, h0, true);
    var told := if c.live[h0].unavailableEmitted then Announce(up, h0, true) else up;
    if c.live[h0].unavailableEmitted {
      AnnounceIsOk(up, h0, true);
      PollOkComposes(c, up, told, h0);
    }
    if c.live[h0].lossReported {
      DecideIsOk(told, h0, true);
      PollOkComposes(c, told, Decide(told, h0, true), h0);
    }
  }

  lemma PollKeepsInv(s: State, s': State, h0: Handle)
    requires Inv(s) && PollOk(s.c, s'.c, h0) && s'.rebuild == s.rebuild
    ensures Inv(s')
  {
    forall h
      ensures DeviceOk(s'.c.log, h, Record(s', h))
    {
      assert DeviceOk(s.c.log, h, Record(s, h));
      assert h != h0 ==> Record(s', h) == Record(s, h);
    }
  }

  /** Taking the provider's states out, and putting a device back once, move records without changing them. */
  lemma BeginKeepsInv(s: State, provider: string, inventory: seq<Handle>)
    requires Inv(s) && Enabled(s, Begin(provider, inventory))
    ensures Inv(Fire(s, Begin(provider, inventory)))
  {
    var s' := Fire(s, Begin(provider, inventory));
    forall h
      ensures Record(s', h) == Record(s, h)
    {
    }
  }

  lemma InsertKeepsInv(s: State)
    requires Inv(s) && Enabled(s, InsertNext) && s.rebuild.value.todo[0] !in s.rebuild.value.inserted
    ensures Inv(Fire(s, InsertNext))
  {
    var s' := Fire(s, InsertNext);
    forall h
      ensures Record(s', h) == Record(s, h)
    {
    }
  }

  lemma DropKeepsInv(s: State, h0: Handle)
    requires Inv(s) && Enabled(s, DropOne(h0))
    ensures Inv(Fire(s, DropOne(h0)))
  {
    var s' := Fire(s, DropOne(h0));
    forall h
      ensures DeviceOk(s'.c.log, h, Record(s', h))
    {
      EmitKeepsDevice(s.c.log, Removed(h0), h, Record(s, h), Record(s', h));
    }
  }

  lemma StepKeepsInv(s: State, a: Action)
    requires Inv(s) && Enabled(s, a) && !Fire(s, a).duplicated
    ensures Inv(Fire(s, a))
  {
    match a
    case FailRead(h, shuttingDown, providerLost) =>
      if h in s.c.live {
        ReadFailedIsOk(s.c, h, shuttingDown, providerLost);
        PollKeepsInv(s, Fire(s, a), h);
      }
    case GoodReadOf(h) =>
      if h in s.c.live {
        ReadOkIsOk(s.c, h);
        PollKeepsInv(s, Fire(s, a), h);
      }
    case LoseProvider(h, shuttingDown) =>
      if h in s.c.live {
        MarkDownIsOk(s.c, h, shuttingDown);
        PollKeepsInv(s, Fire(s, a), h);
      }
    case Begin(provider, inventory) => BeginKeepsInv(s, provider, inventory);
    case InsertNext => InsertKeepsInv(s);
    case StartDropping => SameRecords(s, Fire(s, a));
    case DropOne(h) => DropKeepsInv(s, h);
    case End => SameRecords(s, Fire(s, a));
  }

  lemma SameRecords(s: State, s': State)
    requires s'.c == s.c
    requires s.rebuild.Some?
    requires s'.rebuild.Some? ==> s'.rebuild.value.carried == s.rebuild.value.carried
    requires s'.rebuild.None? ==> s.rebuild.value.carried.Keys <= s.c.live.Keys
    ensures forall h :: Record(s', h) == Record(s, h)
  {
  }

  lemma {:induction false} RunsKeepInv(run: seq<State>, n: nat)
    requires IsRun(run) && n < |run| && !run[n].duplicated
    ensures Inv(run[n])
  {
    if n > 0 {
      assert StepsTo(run, n);
      var a: Action :| Enabled(run[n - 1], a) && run[n] == Fire(run[n - 1], a);
      RunsKeepInv(run, n - 1);
      StepKeepsInv(run[n - 1], a);
    }
  }

  /**
    Over any mix of reads, provider losses and rebuilds that drop and restore
    devices, each device's edges strictly alternate from a loss, with strictly
    increasing numbers, and every `available: true` answers the `false` just
    before it, as long as no inventory lists a device twice.
   */
  lemma EdgesAlternate(run: seq<State>, n: nat, h: Handle)
    requires IsRun(run) && n < |run| && !run[n].duplicated
    ensures Alternates(EdgesOf(run[n].c.log, h))
    ensures NumbersIncrease(run[n].c.log, run[n].c.counter)
    ensures EachTrueAnswersAFalse(AvailabilityOf(run[n].c.log, h))
  {
    RunsKeepInv(run, n);
    assert DeviceOk(run[n].c.log, h, Record(run[n], h));
  }

  // ---- Exactly which inventories keep the alternation ------------------------------------------------

  /** A step whose rebuild, if it begins one, is of an allowed inventory. */
  ghost predicate NextOver(allowed: seq<Handle> -> bool, s: State, s': State) {
    exists a: Action :: Enabled(s, a) && (a.Begin? ==> allowed(a.inventory)) && s' == Fire(s, a)
  }

  ghost predicate IsRunOver(allowed: seq<Handle> -> bool, run: seq<State>) {
    && run != [] && Init(run[0])
    && forall i :: 0 < i < |run| ==> NextOver(allowed, run[i - 1], run[i])
  }

  lemma RunOverIsRun(allowed: seq<Handle> -> bool, run: seq<State>)
    requires IsRunOver(allowed, run)
    ensures IsRun(run)
  {
    forall i | 0 < i < |run| ensures StepsTo(run, i) {
      assert NextOver(allowed, run[i - 1], run[i]);
    }
  }

  /** What a rebuild has still to insert is listed once, and not inserted yet. */
  predicate Unrepeated(s: State) {
    && !s.duplicated
    && (s.rebuild.Some? ==>
          NoDuplicates(s.rebuild.value.todo) && forall h <- s.rebuild.value.todo :: h !in s.rebuild.value.inserted)
  }

  lemma StepKeepsUnrepeated(s: State, a: Action)
    requires Unrepeated(s) && Enabled(s, a) && (a.Begin? ==> NoDuplicates(a.inventory))
    ensures Unrepeated(Fire(s, a))
  {
    if a.InsertNext? {
      var todo := s.rebuild.value.todo;
      assert todo == [todo[0]] + todo[1..];
      assert todo[0] in todo;
      forall h <- todo[1..] ensures h != todo[0] && h in todo {
        var i :| 0 <= i < |todo[1..]| && todo[1..][i] == h;
        assert todo[i + 1] == h;
      }
    }
  }

  lemma {:induction false} RunsOverUnrepeated(allowed: seq<Handle> -> bool, run: seq<State>, n: nat)
    requires IsRunOver(allowed, run) && n < |run|
    requires forall inventory: seq<Handle> :: allowed(inventory) ==> NoDuplicates(inventory)
    ensures Unrepeated(run[n])
  {
    if n > 0 {
      RunsOverUnrepeated(allowed, run, n - 1);
      assert NextOver(allowed, run[n - 1], run[n]);
      var a: Action :|
        Enabled(run[n - 1], a) && (a.Begin? ==> allowed(a.inventory)) && run[n] == Fire(run[n - 1], a);
      StepKeepsUnrepeated(run[n - 1], a);
    }
  }

  /** In every run over the allowed inventories every device's edges alternate. */
  ghost predicate AlwaysAlternates(allowed: seq<Handle> -> bool) {
    forall run: seq<State>, h: Handle :: IsRunOver(allowed, run) ==> AlternatesAtEnd(run, h)
  }

  predicate AlternatesAtEnd(run: seq<State>, h: Handle) { run != [] ==> Alternates(EdgesOf(run[|run| - 1].c.log, h)) }

  /** The inventories are of one provider each, as the rebuild reads them. */
  ghost predicate OneProviderEach(allowed: seq<Handle> -> bool) {
    forall inventory: seq<Handle> :: allowed(inventory) ==> exists provider: string :: IsOf(inventory, provider)
  }

  predicate IsOf(inventory: seq<Handle>, provider: string) { forall h <- inventory :: h.provider == provider }

  // ---- A run for any inventory that lists a device twice ----------------------------------------------

  lemma RunOverGrows(allowed: seq<Handle> -> bool, run: seq<State>, a: Action)
    requires IsRunOver(allowed, run) && Enabled(run[|run| - 1], a) && (a.Begin? ==> allowed(a.inventory))
    ensures IsRunOver(allowed, run + [Fire(run[|run| - 1], a)])
  {
    var more := run + [Fire(run[|run| - 1], a)];
    forall i | 0 < i < |more| ensures NextOver(allowed, more[i - 1], more[i]) {
      if i < |run| {
        assert NextOver(allowed, run[i - 1], run[i]);
        assert more[i - 1] == run[i - 1] && more[i] == run[i];
      } else {
        assert more[i - 1] == run[|run| - 1] && more[i] == Fire(run[|run| - 1], a);
      }
    }
  }

  /** Midway: the rebuild carried the device out lost, and so much of the inventory is still to come. */
  predicate Midway(s: State, h: Handle, todo: seq<Handle>, log: seq<Event>) {
    && s.rebuild.Some? && s.rebuild.value.todo == todo && s.c.log == log
    && h in s.rebuild.value.carried && s.rebuild.value.carried[h] == Reach(false, true, true)
  }

  /** Other devices go in without touching this one. */
  lemma {:induction false} InsertOthers(allowed: seq<Handle> -> bool, run: seq<State>, h: Handle, todo: seq<Handle>,
                                        k: nat, log: seq<Event>) returns (more: seq<State>)
    requires IsRunOver(allowed, run) && Midway(run[|run| - 1], h, todo, log) && k <= |todo| && h !in todo[..k]
    ensures IsRunOver(allowed, more) && Midway(more[|more| - 1], h, todo[k..], log)
    decreases k
  {
    if k == 0 {
      more := run;
      assert todo[0..] == todo;
    } else {
      assert todo[0] in todo[..k];
      RunOverGrows(allowed, run, InsertNext);
      var next := run + [Fire(run[|run| - 1], InsertNext)];
      assert todo[1..][..k - 1] == todo[1..k];
      assert forall x :: x in todo[1..k] ==> x in todo[..k];
      more := InsertOthers(allowed, next, h, todo[1..], k - 1, log);
      assert todo[1..][k - 1..] == todo[k..];
    }
  }

  /** The device goes in with its old loss, and a good read answers it. */
  lemma InsertAndReturn(allowed: seq<Handle> -> bool, run: seq<State>, h: Handle, todo: seq<Handle>, log: seq<Event>)
    returns (more: seq<State>, longer: seq<Event>)
    requires IsRunOver(allowed, run) && Midway(run[|run| - 1], h, todo, log) && todo != [] && todo[0] == h
    ensures IsRunOver(allowed, more) && Midway(more[|more| - 1], h, todo[1..], longer)
    ensures EdgesOf(longer, h) == EdgesOf(log, h) + [false]
  {
    RunOverGrows(allowed, run, InsertNext);
    InsertsLost(run[|run| - 1], h, todo, log);
    var t := Fire(run[|run| - 1], InsertNext);
    var inserted := run + [t];
    RunOverGrows(allowed, inserted, GoodReadOf(h));
    ReturnsLost(t, h, todo[1..], log);
    var u := Fire(t, GoodReadOf(h));
    more, longer := inserted + [u], u.c.log;
  }

  lemma InsertsLost(s: State, h: Handle, todo: seq<Handle>, log: seq<Event>)
    requires Midway(s, h, todo, log) && todo != [] && todo[0] == h
    ensures var t := Fire(s, InsertNext);
            Midway(t, h, todo[1..], log) && h in t.c.live && t.c.live[h] == Reach(false, true, true)
  {
  }

  lemma ReturnsLost(t: State, h: Handle, todo: seq<Handle>, log: seq<Event>)
    requires Midway(t, h, todo, log) && h in t.c.live && t.c.live[h] == Reach(false, true, true)
    ensures var u := Fire(t, GoodReadOf(h));
            Midway(u, h, todo, u.c.log) && EdgesOf(u.c.log, h) == EdgesOf(log, h) + [false]
  {
    var told, back := Availability(h, true), Return(h, t.c.counter + 1);
    assert ReadOk(t.c, h).log == log + [told] + [back];
    EmitSteps(log, told, h);
    EmitSteps(log + [told], back, h);
  }

  /** Where an inventory first lists a device again. */
  lemma {:induction false} FirstRepeat(inventory: seq<Handle>) returns (i: nat, j: nat)
    requires !NoDuplicates(inventory)
    ensures i < j < |inventory| && inventory[i] == inventory[j] && NoDuplicates(inventory[..j])
  {
    var front := inventory[..|inventory| - 1];
    if NoDuplicates(front) {
      var a, b :| 0 <= a < b < |inventory| && inventory[a] == inventory[b];
      assert forall k :: 0 <= k < |front| ==> front[k] == inventory[k];
      assert b == |inventory| - 1;
      i, j := a, b;
      assert inventory[..j] == front;
    } else {
      i, j := FirstRepeat(front);
      assert inventory[..j] == front[..j];
    }
  }

  /** The device alone, lost, and its rebuild begun. */
  lemma BeginLost(allowed: seq<Handle> -> bool, h: Handle, inventory: seq<Handle>)
    returns (run: seq<State>, log: seq<Event>)
    requires allowed(inventory) && IsOf(inventory, h.provider)
    ensures IsRunOver(allowed, run) && Midway(run[|run| - 1], h, inventory, log) && EdgesOf(log, h) == [true]
  {
    var s := State(Cache(map[h := FRESH], map[], 0, []), None, false);
    var fail, begin := FailRead(h, false, false), Begin(h.provider, inventory);
    RunOverGrows(allowed, [s], fail);
    LosesFresh(s, h);
    var t := Fire(s, fail);
    RunOverGrows(allowed, [s] + [t], begin);
    var u := Fire(t, begin);
    run, log := [s] + [t] + [u], u.c.log;
  }

  lemma LosesFresh(s: State, h: Handle)
    requires s == State(Cache(map[h := FRESH], map[], 0, []), None, false)
    ensures var t := Fire(s, FailRead(h, false, false));
            && t.rebuild.None? && t.c.live == map[h := Reach(false, true, true)] && EdgesOf(t.c.log, h) == [true]
  {
    var told, loss := Availability(h, false), Loss(h, 1);
    assert ReadFailed(s.c, h, false, false).log == [] + [told] + [loss];
    EmitSteps([], told, h);
    EmitSteps([] + [told], loss, h);
  }

  /**
    Any inventory that lists a device twice can replay its old loss after the
    return that answered it: the second insertion restores the carried record over
    the newer one, and two returns follow one loss.
   */
  lemma DuplicateBreaksAlternation(allowed: seq<Handle> -> bool, inventory: seq<Handle>)
    returns (run: seq<State>, h: Handle)
    requires allowed(inventory) && !NoDuplicates(inventory) && exists provider: string :: IsOf(inventory, provider)
    ensures IsRunOver(allowed, run) && h in inventory && !AlternatesAtEnd(run, h)
  {
    var i, j := FirstRepeat(inventory);
    h := inventory[i];
    assert IsOf(inventory, h.provider);
    AroundRepeat(inventory, i, j);
    var begun, lost := BeginLost(allowed, h, inventory);
    var before := InsertOthers(allowed, begun, h, inventory, i, lost);
    var returned, first := InsertAndReturn(allowed, before, h, inventory[i..], lost);
    var again := InsertOthers(allowed, returned, h, inventory[i + 1..], j - i - 1, first);
    var second;
    run, second := InsertAndReturn(allowed, again, h, inventory[j..], first);
    assert EdgesOf(second, h) == [true, false, false];
    assert !EdgesOf(second, h)[2];
  }

  lemma AroundRepeat(inventory: seq<Handle>, i: nat, j: nat)
    requires i < j < |inventory| && NoDuplicates(inventory[..j])
    ensures inventory[i] !in inventory[..i] && inventory[i] !in inventory[i + 1..][..j - i - 1]
    ensures inventory[i..][1..] == inventory[i + 1..] && inventory[i + 1..][j - i - 1..] == inventory[j..]
    ensures inventory[i..][0] == inventory[i] && inventory[j..][0] == inventory[j]
  {
    var once, between := inventory[..j], inventory[i + 1..][..j - i - 1];
    assert forall k :: 0 <= k < i ==> once[k] != once[i] && inventory[..i][k] == once[k];
    assert forall k :: 0 <= k < |between| ==> between[k] == once[i + 1 + k] && once[i] != once[i + 1 + k];
  }

  /** Edges alternate in every run over a collection of inventories exactly when none of them lists a device twice. */
  lemma AlternatesExactlyWithoutRepeats(allowed: seq<Handle> -> bool)
    requires OneProviderEach(allowed)
    ensures AlwaysAlternates(allowed) <==>
              forall inventory: seq<Handle> :: allowed(inventory) ==> NoDuplicates(inventory)
  {
    if forall inventory: seq<Handle> :: allowed(inventory) ==> NoDuplicates(inventory) {
      forall run: seq<State>, h: Handle | IsRunOver(allowed, run)
        ensures AlternatesAtEnd(run, h)
      {
        RunOverIsRun(allowed, run);
        RunsOverUnrepeated(allowed, run, |run| - 1);
        EdgesAlternate(run, |run| - 1, h);
      }
    } else {
      var inventory: seq<Handle> :| allowed(inventory) && !NoDuplicates(inventory);
      var run, h := DuplicateBreaksAlternation(allowed, inventory);
    }
  }
}
