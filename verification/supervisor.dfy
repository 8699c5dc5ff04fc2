/**
 * The supervisor's state, which both backend variants share: the persisted
 * bot list (`bots.json`), the two in-memory registries keyed by bot id
 * (`botProcesses`, `botStartTimes`), the child processes spawned so far with
 * the callbacks attached to them, the signals sent, and the working files.
 * Here are the helpers both variants define identically: the liveness probe
 * `checkBotProcess`, `updateBotUptime` and the periodic status pass, which
 * only the TypeScript variant starts (the JavaScript one defines it unused).
 *
 * A child process is named by a handle, its index in `launches`. Whether it
 * is still alive (`process.kill(0)` does not throw) is an oracle `alive`
 * passed to the operations that probe; `Date.now()` is a parameter.
 */
module Supervisor {
  import opened Wrappers
  import opened Bots
  import opened Strategy

  type Handle = nat

  /** The callbacks a launch attached to its child process. */
  datatype Handlers =
    /**
     * index.js: `error` and `exit` handlers that close over the list loaded
     * by the start request and the bot at `index` in it; on the Java
     * compiler also a `close` handler that spawns `onCompiled` when the
     * compiler succeeds.
     */
    | JsHandlers(snapshot: seq<Bot>, index: nat, onCompiled: Option<Command>)
    /** index.ts: a `close` handler that reloads the list. */
    | TsHandlers

  /** A spawned child process: the bot it was launched for, its command, its callbacks. */
  datatype Launch = Launch(botId: string, command: Command, handlers: Handlers)

  /** The bot a JavaScript-variant callback closes over is in its list and has the launch's id. */
  predicate WellFormedLaunch(l: Launch) {
    l.handlers.JsHandlers? ==> l.handlers.index < |l.handlers.snapshot| && l.handlers.snapshot[l.handlers.index].id == l.botId
  }

  /** `checkBotProcess` reports a bot as running: it has a registry entry and that process is alive. */
  predicate Probe(processes: map<string, Handle>, alive: Handle -> bool, id: string) {
    id in processes && alive(processes[id])
  }

  /** The first bot with `id`, if it is marked running, marked stopped; the list is otherwise as it was. */
  function MarkStopped(store: seq<Bot>, id: string): seq<Bot> {
    match FindIndex(store, id)
    case Some(i) => if store[i].running then Halted(store, i) else store
    case None => store
  }

  /** After `MarkStopped`, the first bot with `id` is not running and every other bot is unchanged. */
  lemma MarkStoppedSpec(store: seq<Bot>, id: string)
    ensures |MarkStopped(store, id)| == |store|
    ensures FindIndex(MarkStopped(store, id), id) == FindIndex(store, id)
    ensures FindIndex(store, id).Some? ==> !MarkStopped(store, id)[FindIndex(store, id).value].running
    ensures forall k | 0 <= k < |store| && Some(k) != FindIndex(store, id) :: MarkStopped(store, id)[k] == store[k]
    ensures forall k | 0 <= k < |store| :: MarkStopped(store, id)[k] == store[k].(running := MarkStopped(store, id)[k].running)
    ensures MarkStopped(MarkStopped(store, id), id) == MarkStopped(store, id)
  {
    match FindIndex(store, id)
    case Some(i) =>
      var r := MarkStopped(store, id);
      assert forall j | 0 <= j < i :: r[j].id != id;
      assert FindIndex(r, id) == Some(i);
    case None =>
  }

  /** The uptime `updateBotUptime` computes: whole seconds since the start time, rounded down. */
  function UptimeSeconds(nowMs: int, startMs: int): int {
    (nowMs - startMs) / 1000
  }

  /**
   * `updateBotUptime(id)` on the stored list: when the bot has a truthy
   * (present and non-zero) start time, the first bot with `id` gets the
   * uptime in seconds.
   */
  function WithUptime(store: seq<Bot>, id: string, startTimes: map<string, int>, nowMs: int): seq<Bot> {
    if id in startTimes && startTimes[id] != 0 then
      match FindIndex(store, id)
      case Some(i) => store[i := store[i].(uptime := Some(UptimeSeconds(nowMs, startTimes[id])))]
      case None => store
    else store
  }

  /** The uptime refresh of every running bot of `snapshot`, in order, applied to `store`. */
  function Refreshed(store: seq<Bot>, snapshot: seq<Bot>, startTimes: map<string, int>, nowMs: int): seq<Bot>
    decreases |snapshot|
  {
    if snapshot == [] then store
    else
      var before := Refreshed(store, snapshot[..|snapshot| - 1], startTimes, nowMs);
      var b := snapshot[|snapshot| - 1];
      if b.running then WithUptime(before, b.id, startTimes, nowMs) else before
  }

  /** Some bot of `bots` with `id` is marked running. */
  predicate Claimed(bots: seq<Bot>, id: string) {
    exists k | 0 <= k < |bots| :: bots[k].running && bots[k].id == id
  }

  /** The registry after the status pass over `bots`: entries of claimed bots whose process is dead are gone. */
  function Pruned(processes: map<string, Handle>, bots: seq<Bot>, alive: Handle -> bool): map<string, Handle> {
    map id | id in processes && (alive(processes[id]) || !Claimed(bots, id)) :: processes[id]
  }

  /** One bot after the status pass: marked stopped if it claims to run but does not probe as running. */
  function ReconciledBot(b: Bot, processes: map<string, Handle>, alive: Handle -> bool): Bot {
    if b.running && !Probe(processes, alive, b.id) then b.(running := false) else b
  }

  /** The list the status pass saves when it corrected something. */
  function Reconciled(bots: seq<Bot>, processes: map<string, Handle>, alive: Handle -> bool): (r: seq<Bot>)
    ensures |r| == |bots|
    ensures forall k | 0 <= k < |bots| :: r[k] == ReconciledBot(bots[k], processes, alive)
  {
    seq(|bots|, k requires 0 <= k < |bots| => ReconciledBot(bots[k], processes, alive))
  }

  /** The status pass finds something to correct. */
  predicate NeedsCorrection(bots: seq<Bot>, processes: map<string, Handle>, alive: Handle -> bool) {
    exists k | 0 <= k < |bots| :: bots[k].running && !Probe(processes, alive, bots[k].id)
  }

  class Host {
    /** The contents of `bots.json`. */
    var store: seq<Bot>
    /** `botProcesses`: the child process registered for a bot id. */
    var processes: map<string, Handle>
    /** `botStartTimes`: when that process was registered, in milliseconds. */
    var startTimes: map<string, int>
    /** Every child process spawned so far; a handle is an index. */
    var launches: seq<Launch>
    /** The child processes sent a termination signal (`kill()` / `kill('SIGTERM')`). */
    var signalled: set<Handle>
    /** The working files, by name. */
    var files: map<string, string>

    /**
     * The two registries have the same keys, each entry is a process
     * launched for that bot, and every launch is well formed.
     */
    predicate Valid()
      reads this`processes, this`startTimes, this`launches
    {
      && processes.Keys == startTimes.Keys
      && (forall id | id in processes :: processes[id] < |launches| && launches[processes[id]].botId == id)
      && (forall k | 0 <= k < |launches| :: WellFormedLaunch(launches[k]))
    }

    /** Process start: the list as loaded from disk, empty registries, nothing spawned. */
    constructor (loaded: seq<Bot>, workingFiles: map<string, string>)
      ensures Valid()
      ensures store == loaded && files == workingFiles
      ensures processes == map[] && startTimes == map[] && launches == [] && signalled == {}
    {
      store := loaded;
      processes := map[];
      startTimes := map[];
      launches := [];
      signalled := {};
      files := workingFiles;
    }

    /** `delete botProcesses[id]; delete botStartTimes[id]`. */
    method Forget(id: string)
      requires Valid()
      modifies this
      ensures Valid()
      ensures processes == old(processes) - {id} && startTimes == old(startTimes) - {id}
      ensures store == old(store) && launches == old(launches) && signalled == old(signalled) && files == old(files)
    {
      processes := processes - {id};
      startTimes := startTimes - {id};
    }

    /**
     * `spawn(...)` of the launch `l`, then `botProcesses[id] = child;
     * botStartTimes[id] = Date.now()` for its bot: the new child process is
     * the next handle.
     */
    method Spawn(l: Launch, nowMs: int) returns (handle: Handle)
      requires Valid() && WellFormedLaunch(l)
      modifies this
      ensures Valid()
      ensures handle == |old(launches)| && launches == old(launches) + [l]
      ensures processes == old(processes)[l.botId := handle] && startTimes == old(startTimes)[l.botId := nowMs]
      ensures store == old(store) && signalled == old(signalled) && files == old(files)
    {
      handle := |launches|;
      launches := launches + [l];
      processes := processes[l.botId := handle];
      startTimes := startTimes[l.botId := nowMs];
    }

    /**
     * `checkBotProcess(id)`: false without a registry entry; true when the
     * registered process is alive; otherwise the entries are removed and the
     * stored bot is marked stopped.
     */
    method CheckBotProcess(id: string, alive: Handle -> bool) returns (isRunning: bool)
      requires Valid()
      modifies this
      ensures Valid()
      ensures isRunning == Probe(old(processes), alive, id)
      ensures id in old(processes) && !alive(old(processes)[id]) ==>
        && processes == old(processes) - {id} && startTimes == old(startTimes) - {id}
        && store == MarkStopped(old(store), id)
      ensures !(id in old(processes) && !alive(old(processes)[id])) ==>
        processes == old(processes) && startTimes == old(startTimes) && store == old(store)
      ensures launches == old(launches) && signalled == old(signalled) && files == old(files)
    {
      if id !in processes {
        return false;
      }
      if alive(processes[id]) {
        return true;
      }
      Forget(id);
      var bots := store;
      var found := FindIndex(bots, id);
      if found.Some? && bots[found.value].running {
        bots := bots[found.value := bots[found.value].(running := false)];
        store := bots;
      }
      return false;
    }

    /** `updateBotUptime(id)`. */
    method UpdateBotUptime(id: string, nowMs: int)
      modifies this
      ensures store == WithUptime(old(store), id, startTimes, nowMs)
      ensures processes == old(processes) && startTimes == old(startTimes) && launches == old(launches)
      ensures signalled == old(signalled) && files == old(files)
    {
      if id in startTimes && startTimes[id] != 0 {
        var uptime := UptimeSeconds(nowMs, startTimes[id]);
        var bots := store;
        var found := FindIndex(bots, id);
        if found.Some? {
          bots := bots[found.value := bots[found.value].(uptime := Some(uptime))];
          store := bots;
        }
      }
    }

    /**
     * One tick of `startStatusCheck`: every bot of the loaded list that
     * claims to run is probed; a bot whose process is gone is marked stopped
     * in the list, and the list is saved at the end only if some bot was
     * corrected; a bot whose process is alive has its uptime refreshed.
     */
    method StatusPass(alive: Handle -> bool, nowMs: int) returns (corrected: bool)
      requires Valid()
      modifies this
      ensures Valid()
      ensures corrected <==> NeedsCorrection(old(store), old(processes), alive)
      ensures corrected ==> store == Reconciled(old(store), old(processes), alive)
      ensures !corrected ==> store == Refreshed(old(store), old(store), old(startTimes), nowMs)
      ensures processes == Pruned(old(processes), old(store), alive)
      ensures startTimes.Keys == processes.Keys && forall id | id in startTimes :: startTimes[id] == old(startTimes)[id]
      ensures forall k | 0 <= k < |store| && store[k].running :: Probe(processes, alive, store[k].id)
      ensures launches == old(launches) && signalled == old(signalled) && files == old(files)
    {
      var bots0, processes0, startTimes0 := store, processes, startTimes;
      var bots;
      bots, corrected := ForEachBot(store, alive, nowMs);
      if corrected {
        store := bots;
      }
      PassLeavesRunningAlive(bots0, processes0, startTimes0, alive, nowMs, corrected);
    }

    /** The `forEach` of the status pass over the loaded list `bots0`, with its `updated` flag. */
    method ForEachBot(bots0: seq<Bot>, alive: Handle -> bool, nowMs: int) returns (bots: seq<Bot>, corrected: bool)
      requires Valid() && store == bots0
      modifies this
      ensures Valid()
      ensures PassDone(bots0, old(processes), old(startTimes), alive, nowMs, bots, processes, startTimes, store, corrected)
      ensures launches == old(launches) && signalled == old(signalled) && files == old(files)
    {
      bots := bots0;
      corrected := false;
      var i := 0;
      assert bots0[..0] == [];
      while i < |bots|
        invariant Valid()
        invariant PassInvariant(bots0, old(processes), old(startTimes), alive, nowMs, i, bots, processes, startTimes, store, corrected)
        invariant launches == old(launches) && signalled == old(signalled) && files == old(files)
      {
        ghost var processesBefore, startTimesBefore, storeBefore := processes, startTimes, store;
        var after, correctedHere := Visit(bots[i], alive, nowMs);
        PassStep(bots0, old(processes), old(startTimes), alive, nowMs, i, bots, processesBefore, startTimesBefore, storeBefore, corrected,
                 processes, startTimes, store, after, correctedHere);
        bots := bots[i := after];
        corrected := corrected || correctedHere;
        i := i + 1;
      }
      PassEnd(bots0, old(processes), old(startTimes), alive, nowMs, i, bots, processes, startTimes, store, corrected);
    }

    /**
     * The `forEach` callback of the status pass for one bot of the loaded
     * list: a bot that claims to run is probed; if the probe fails, the bot
     * comes back marked stopped and the pass is flagged as having corrected
     * something; otherwise its uptime is refreshed in the store.
     */
    method Visit(b: Bot, alive: Handle -> bool, nowMs: int) returns (after: Bot, correctedHere: bool)
      requires Valid()
      modifies this
      ensures Valid()
      ensures after == ReconciledBot(b, old(processes), alive)
      ensures correctedHere <==> b.running && !Probe(old(processes), alive, b.id)
      ensures processes ==
        if b.running && b.id in old(processes) && !alive(old(processes)[b.id]) then old(processes) - {b.id} else old(processes)
      ensures startTimes ==
        if b.running && b.id in old(processes) && !alive(old(processes)[b.id]) then old(startTimes) - {b.id} else old(startTimes)
      ensures !correctedHere ==> store == if b.running then WithUptime(old(store), b.id, old(startTimes), nowMs) else old(store)
      ensures launches == old(launches) && signalled == old(signalled) && files == old(files)
    {
      after, correctedHere := b, false;
      if b.running {
        var isActuallyRunning := CheckBotProcess(b.id, alive);
        if !isActuallyRunning && b.running {
          after := b.(running := false);
          correctedHere := true;
        } else if isActuallyRunning {
          UpdateBotUptime(b.id, nowMs);
        }
      }
    }
  }

  /** What holds once the status pass has visited the first `i` bots of the loaded list `bots0`. */
  ghost predicate PassInvariant(bots0: seq<Bot>, processes0: map<string, Handle>, startTimes0: map<string, int>,
                                alive: Handle -> bool, nowMs: int, i: nat, bots: seq<Bot>,
                                processes: map<string, Handle>, startTimes: map<string, int>, store: seq<Bot>, corrected: bool)
  {
    && i <= |bots0| && |bots| == |bots0|
    && (forall k | 0 <= k < i :: bots[k] == ReconciledBot(bots0[k], processes0, alive))
    && (forall k | i <= k < |bots| :: bots[k] == bots0[k])
    && processes == Pruned(processes0, bots0[..i], alive)
    && startTimes.Keys == processes.Keys
    && (forall id | id in startTimes :: id in startTimes0 && startTimes[id] == startTimes0[id])
    && (corrected <==> NeedsCorrection(bots0[..i], processes0, alive))
    && (!corrected ==> processes == processes0 && startTimes == startTimes0)
    && (!corrected ==> store == Refreshed(bots0, bots0[..i], startTimes0, nowMs))
  }

  /** Visiting bot `i` as `Visit` does keeps the pass invariant, one bot further. */
  lemma PassStep(bots0: seq<Bot>, processes0: map<string, Handle>, startTimes0: map<string, int>,
                 alive: Handle -> bool, nowMs: int, i: nat, bots: seq<Bot>,
                 processes: map<string, Handle>, startTimes: map<string, int>, store: seq<Bot>, corrected: bool,
                 processes': map<string, Handle>, startTimes': map<string, int>, store': seq<Bot>,
                 after: Bot, correctedHere: bool)
    requires i < |bots|
    requires PassInvariant(bots0, processes0, startTimes0, alive, nowMs, i, bots, processes, startTimes, store, corrected)
    requires after == ReconciledBot(bots[i], processes, alive)
    requires correctedHere <==> bots[i].running && !Probe(processes, alive, bots[i].id)
    requires processes' ==
      if bots[i].running && bots[i].id in processes && !alive(processes[bots[i].id]) then processes - {bots[i].id} else processes
    requires startTimes' ==
      if bots[i].running && bots[i].id in processes && !alive(processes[bots[i].id]) then startTimes - {bots[i].id} else startTimes
    requires !correctedHere ==> store' == if bots[i].running then WithUptime(store, bots[i].id, startTimes, nowMs) else store
    ensures PassInvariant(bots0, processes0, startTimes0, alive, nowMs, i + 1, bots[i := after],
                          processes', startTimes', store', corrected || correctedHere)
  {
    var b := bots0[i];
    assert bots0[..i + 1] == bots0[..i] + [b];
    RefreshedStep(bots0, bots0[..i], b, startTimes0, nowMs);
    ProbeStable(processes0, bots0[..i], alive, b.id);
    if b.running {
      PruneStep(processes0, bots0[..i], b, alive);
    } else {
      PruneSkip(processes0, bots0[..i], b, alive);
    }
  }

  /** What holds once the status pass has visited every bot of the loaded list `bots0`. */
  ghost predicate PassDone(bots0: seq<Bot>, processes0: map<string, Handle>, startTimes0: map<string, int>,
                           alive: Handle -> bool, nowMs: int, bots: seq<Bot>,
                           processes: map<string, Handle>, startTimes: map<string, int>, store: seq<Bot>, corrected: bool)
  {
    && bots == Reconciled(bots0, processes0, alive)
    && processes == Pruned(processes0, bots0, alive)
    && startTimes.Keys == processes.Keys
    && (forall id | id in startTimes :: id in startTimes0 && startTimes[id] == startTimes0[id])
    && (corrected <==> NeedsCorrection(bots0, processes0, alive))
    && (!corrected ==> store == Refreshed(bots0, bots0, startTimes0, nowMs))
  }

  /** When the pass has visited every bot, its list is the reconciled one and its registry the pruned one. */
  lemma PassEnd(bots0: seq<Bot>, processes0: map<string, Handle>, startTimes0: map<string, int>,
                alive: Handle -> bool, nowMs: int, i: nat, bots: seq<Bot>,
                processes: map<string, Handle>, startTimes: map<string, int>, store: seq<Bot>, corrected: bool)
    requires PassInvariant(bots0, processes0, startTimes0, alive, nowMs, i, bots, processes, startTimes, store, corrected)
    requires i >= |bots|
    ensures PassDone(bots0, processes0, startTimes0, alive, nowMs, bots, processes, startTimes, store, corrected)
  {
    assert bots0[..i] == bots0;
  }

  /** Probing an id gives the same answer on the pruned registry as on the original one. */
  lemma ProbeStable(processes: map<string, Handle>, bots: seq<Bot>, alive: Handle -> bool, id: string)
    ensures Probe(Pruned(processes, bots, alive), alive, id) == Probe(processes, alive, id)
  {
  }

  /** Taking one more running bot into the pass prunes its entry exactly when that entry is dead. */
  lemma PruneStep(processes: map<string, Handle>, bots: seq<Bot>, b: Bot, alive: Handle -> bool)
    requires b.running
    ensures b.id in Pruned(processes, bots, alive) && !alive(processes[b.id]) ==>
      Pruned(processes, bots + [b], alive) == Pruned(processes, bots, alive) - {b.id}
    ensures !(b.id in Pruned(processes, bots, alive) && !alive(processes[b.id])) ==>
      Pruned(processes, bots + [b], alive) == Pruned(processes, bots, alive)
    ensures NeedsCorrection(bots + [b], processes, alive) <==>
      NeedsCorrection(bots, processes, alive) || !Probe(processes, alive, b.id)
  {
    var bs := bots + [b];
    assert bs[|bots|] == b;
    assert Claimed(bs, b.id);
    forall id ensures Claimed(bs, id) <==> Claimed(bots, id) || id == b.id {
      if Claimed(bs, id) {
        var k :| 0 <= k < |bs| && bs[k].running && bs[k].id == id;
        if k < |bots| {
          assert bots[k] == bs[k];
        }
      }
      if Claimed(bots, id) {
        var k :| 0 <= k < |bots| && bots[k].running && bots[k].id == id;
        assert bs[k] == bots[k];
      }
    }
    if NeedsCorrection(bs, processes, alive) {
      var k :| 0 <= k < |bs| && bs[k].running && !Probe(processes, alive, bs[k].id);
      if k < |bots| {
        assert bots[k] == bs[k];
      }
    }
    if NeedsCorrection(bots, processes, alive) {
      var k :| 0 <= k < |bots| && bots[k].running && !Probe(processes, alive, bots[k].id);
      assert bs[k] == bots[k];
    }
  }

  /** Taking a bot that is not running into the pass changes nothing. */
  lemma PruneSkip(processes: map<string, Handle>, bots: seq<Bot>, b: Bot, alive: Handle -> bool)
    requires !b.running
    ensures Pruned(processes, bots + [b], alive) == Pruned(processes, bots, alive)
    ensures NeedsCorrection(bots + [b], processes, alive) <==> NeedsCorrection(bots, processes, alive)
  {
    var bs := bots + [b];
    forall id ensures Claimed(bs, id) <==> Claimed(bots, id) {
      if Claimed(bs, id) {
        var k :| 0 <= k < |bs| && bs[k].running && bs[k].id == id;
        assert k < |bots| && bots[k] == bs[k];
      }
      if Claimed(bots, id) {
        var k :| 0 <= k < |bots| && bots[k].running && bots[k].id == id;
        assert bs[k] == bots[k];
      }
    }
    if NeedsCorrection(bs, processes, alive) {
      var k :| 0 <= k < |bs| && bs[k].running && !Probe(processes, alive, bs[k].id);
      assert k < |bots| && bots[k] == bs[k];
    }
    if NeedsCorrection(bots, processes, alive) {
      var k :| 0 <= k < |bots| && bots[k].running && !Probe(processes, alive, bots[k].id);
      assert bs[k] == bots[k];
    }
  }

  /** One more bot of the snapshot: its uptime is refreshed if it is running. */
  lemma RefreshedStep(store: seq<Bot>, snapshot: seq<Bot>, b: Bot, startTimes: map<string, int>, nowMs: int)
    ensures Refreshed(store, snapshot + [b], startTimes, nowMs) ==
      if b.running then WithUptime(Refreshed(store, snapshot, startTimes, nowMs), b.id, startTimes, nowMs)
      else Refreshed(store, snapshot, startTimes, nowMs)
  {
    assert (snapshot + [b])[..|snapshot|] == snapshot;
  }

  /** Refreshing uptimes changes no field of any bot other than `uptime`, and keeps the ids. */
  lemma {:induction false} RefreshedChangesOnlyUptime(store: seq<Bot>, snapshot: seq<Bot>, startTimes: map<string, int>, nowMs: int)
    ensures |Refreshed(store, snapshot, startTimes, nowMs)| == |store|
    ensures forall k | 0 <= k < |store| ::
      Refreshed(store, snapshot, startTimes, nowMs)[k] == store[k].(uptime := Refreshed(store, snapshot, startTimes, nowMs)[k].uptime)
    decreases |snapshot|
  {
    if snapshot != [] {
      RefreshedChangesOnlyUptime(store, snapshot[..|snapshot| - 1], startTimes, nowMs);
    }
  }

  /**
   * After the pass, every bot the store marks running probes as running on
   * the pruned registry: if nothing was corrected, every running bot had a
   * live process (and uptimes changed nothing else); otherwise the saved
   * list is the reconciled one.
   */
  lemma PassLeavesRunningAlive(bots: seq<Bot>, processes: map<string, Handle>, startTimes: map<string, int>,
                               alive: Handle -> bool, nowMs: int, corrected: bool)
    requires corrected <==> NeedsCorrection(bots, processes, alive)
    ensures var store := if corrected then Reconciled(bots, processes, alive) else Refreshed(bots, bots, startTimes, nowMs);
      forall k | 0 <= k < |store| && store[k].running :: Probe(Pruned(processes, bots, alive), alive, store[k].id)
  {
    var store := if corrected then Reconciled(bots, processes, alive) else Refreshed(bots, bots, startTimes, nowMs);
    RefreshedChangesOnlyUptime(bots, bots, startTimes, nowMs);
    forall k | 0 <= k < |store| && store[k].running ensures Probe(Pruned(processes, bots, alive), alive, store[k].id) {
      assert store[k].id == bots[k].id && bots[k].running;
      ProbeStable(processes, bots, alive, bots[k].id);
    }
  }
}
