/**
 * The request handlers and process callbacks of the variant that keys
 * ownership by the caller's address (backend/dist/index.js), as operations
 * on the shared `Host` state. Each handler loads the list, checks ownership
 * (`requireBotOwnerByIp`), validates, and saves the list it loaded.
 *
 * The address of the caller, a fresh id, the clock and the exit code of a
 * process are parameters; a request field that is absent is the empty
 * string (both are falsy).
 */
module JsBackend {
  import opened Wrappers
  import opened Text
  import opened Credentials
  import opened Sanitizer
  import opened Patterns
  import opened Injection
  import opened Bots
  import opened Strategy
  import opened Supervisor
  import opened Replies

  /** The outcome of `requireBotOwnerByIp`: the bot's position, or the refusal. */
  datatype Access = Granted(index: nat) | Denied(reply: Reply)

  /** `requireBotOwnerByIp`: the first bot with `id` must exist (404) and have been created from `ip` (403). */
  function OwnerCheck(store: seq<Bot>, id: string, ip: string): (a: Access)
    ensures a.Granted? ==>
      && a.index < |store| && store[a.index].id == id && store[a.index].creatorIp == ip
      && forall j | 0 <= j < a.index :: store[j].id != id
    ensures a == Denied(Refused(BotNotFound)) <==> forall j | 0 <= j < |store| :: store[j].id != id
    ensures a.Denied? ==> a.reply in {Refused(BotNotFound), Refused(NotYourBot)}
  {
    match FindIndex(store, id)
    case None => Denied(Refused(BotNotFound))
    case Some(i) => if store[i].creatorIp != ip then Denied(Refused(NotYourBot)) else Granted(i)
  }

  /** Replacing a bot by one with the same id and creator keeps every ownership check as it was. */
  lemma OwnerCheckStable(store: seq<Bot>, i: nat, b: Bot, id: string, ip: string)
    requires i < |store| && b.id == store[i].id && b.creatorIp == store[i].creatorIp
    ensures OwnerCheck(store[i := b], id, ip) == OwnerCheck(store, id, ip)
  {
    SameIdsSameIndex(store, store[i := b], id);
  }

  /** Two lists with the same ids position by position find the same first index for every id. */
  lemma SameIdsSameIndex(s: seq<Bot>, t: seq<Bot>, id: string)
    requires |s| == |t| && forall k | 0 <= k < |s| :: s[k].id == t[k].id
    ensures FindIndex(s, id) == FindIndex(t, id)
  {
    var f, g := FindIndex(s, id), FindIndex(t, id);
    if f.Some? && g.Some? {
      assert !(f.value < g.value) && !(g.value < f.value);
    }
  }

  // ---------------------------------------------------------------- list

  /** `bots.filter(bot => bot.creatorIp === ip)`. */
  function FromIp(store: seq<Bot>, ip: string): (r: seq<Bot>)
    ensures |r| <= |store|
    ensures forall k | 0 <= k < |r| :: r[k].creatorIp == ip && r[k] in store
  {
    if store == [] then []
    else if store[0].creatorIp == ip then [store[0]] + FromIp(store[1..], ip)
    else FromIp(store[1..], ip)
  }

  /** The caller's bots are all listed, as often as they are stored; no other bot is. */
  lemma {:induction false} FromIpCounts(store: seq<Bot>, ip: string, b: Bot)
    ensures multiset(FromIp(store, ip))[b] == if b.creatorIp == ip then multiset(store)[b] else 0
  {
    if store != [] {
      FromIpCounts(store[1..], ip, b);
      assert store == [store[0]] + store[1..];
    }
  }

  /** The filter keeps the stored order: it works piece by piece. */
  lemma {:induction false} FromIpKeepsOrder(a: seq<Bot>, b: seq<Bot>, ip: string)
    ensures FromIp(a + b, ip) == FromIp(a, ip) + FromIp(b, ip)
  {
    if a != [] {
      assert (a + b)[1..] == a[1..] + b;
      FromIpKeepsOrder(a[1..], b, ip);
    } else {
      assert a + b == b;
    }
  }

  /** A bot as `GET /bots` sends it: every field but `token`. */
  datatype ListedBot = ListedBot(
    id: string,
    name: string,
    code: string,
    running: bool,
    language: string,
    lastStarted: Option<string>,
    uptime: Option<int>,
    createdAt: string,
    updatedAt: string,
    creatorIp: string,
    userId: Owner)

  /** `const { token, ...rest } = bot`. */
  function Rest(b: Bot): ListedBot {
    ListedBot(b.id, b.name, b.code, b.running, b.language, b.lastStarted, b.uptime, b.createdAt, b.updatedAt, b.creatorIp, b.userId)
  }

  /**
   * One element of the response: a bot that claims to run but does not
   * probe as running is shown stopped; one that probes as running and has a
   * truthy start time is shown with its uptime in seconds.
   */
  function ListedOf(b: Bot, processes: map<string, Handle>, startTimes: map<string, int>, alive: Handle -> bool, nowMs: int): ListedBot {
    var rest := Rest(b);
    if b.running && !Probe(processes, alive, b.id) then rest.(running := false)
    else if b.running && b.id in startTimes && startTimes[b.id] != 0 then rest.(uptime := Some(UptimeSeconds(nowMs, startTimes[b.id])))
    else rest
  }

  /** A bot of `bots` claims `id` to run, and the process registered for `id` is dead. */
  predicate DeadClaim(bots: seq<Bot>, processes: map<string, Handle>, alive: Handle -> bool, id: string) {
    Claimed(bots, id) && id in processes && !alive(processes[id])
  }

  /**
   * The stored list after the probes of `GET /bots`: the first bot with an
   * id that a listed bot claims to run on a dead registered process is
   * marked stopped. Only `running` changes, and only from true to false.
   */
  function StoppedWhereDead(store: seq<Bot>, bots: seq<Bot>, processes: map<string, Handle>, alive: Handle -> bool): (r: seq<Bot>)
    ensures |r| == |store|
    ensures forall k | 0 <= k < |store| :: r[k] == store[k].(running := r[k].running)
    ensures forall k | 0 <= k < |store| :: r[k].running ==> store[k].running
    ensures forall k | 0 <= k < |store| && !DeadClaim(bots, processes, alive, store[k].id) :: r[k] == store[k]
  {
    seq(|store|, k requires 0 <= k < |store| =>
      if FindIndex(store, store[k].id) == Some(k) && store[k].running && DeadClaim(bots, processes, alive, store[k].id)
      then store[k].(running := false) else store[k])
  }

  /**
   * `GET /bots`: the caller's bots in stored order, without their tokens.
   * Each one that claims to run is probed with `checkBotProcess`, which
   * drops the registry entries of a dead process and saves the stored list
   * with the bot stopped; the response shows such a bot stopped, and a live
   * one with its uptime.
   */
  method List(h: Host, ip: string, alive: Handle -> bool, nowMs: int) returns (listed: seq<ListedBot>)
    requires h.Valid()
    modifies h
    ensures h.Valid()
    ensures |listed| == |FromIp(old(h.store), ip)|
    ensures forall k | 0 <= k < |listed| ::
      listed[k] == ListedOf(FromIp(old(h.store), ip)[k], old(h.processes), old(h.startTimes), alive, nowMs)
    ensures h.store == StoppedWhereDead(old(h.store), FromIp(old(h.store), ip), old(h.processes), alive)
    ensures h.processes == Pruned(old(h.processes), FromIp(old(h.store), ip), alive)
    ensures h.startTimes.Keys == h.processes.Keys
    ensures forall id | id in h.startTimes :: h.startTimes[id] == old(h.startTimes)[id]
    ensures h.launches == old(h.launches) && h.signalled == old(h.signalled) && h.files == old(h.files)
  {
    var mine := FromIp(h.store, ip);
    ghost var store0, processes0, startTimes0 := h.store, h.processes, h.startTimes;
    listed := [];
    var i := 0;
    assert mine[..0] == [];
    StoppedNone(store0, processes0, alive);
    while i < |mine|
      invariant h.Valid()
      invariant ListInvariant(store0, processes0, startTimes0, alive, nowMs, mine, i, listed, h.store, h.processes, h.startTimes)
      invariant h.launches == old(h.launches) && h.signalled == old(h.signalled) && h.files == old(h.files)
    {
      ghost var storeBefore, processesBefore, startTimesBefore := h.store, h.processes, h.startTimes;
      var rest := ListOne(h, mine[i], alive, nowMs);
      ListStep(store0, processes0, startTimes0, alive, nowMs, mine, i, listed,
               storeBefore, processesBefore, startTimesBefore, rest, h.store, h.processes, h.startTimes);
      listed := listed + [rest];
      i := i + 1;
    }
    assert mine[..i] == mine;
  }

  /** What holds once `GET /bots` has listed the first `i` of the caller's bots `mine`. */
  ghost predicate ListInvariant(store0: seq<Bot>, processes0: map<string, Handle>, startTimes0: map<string, int>,
                                alive: Handle -> bool, nowMs: int, mine: seq<Bot>, i: nat, listed: seq<ListedBot>,
                                store: seq<Bot>, processes: map<string, Handle>, startTimes: map<string, int>)
  {
    && i <= |mine| && |listed| == i
    && (forall k | 0 <= k < i :: listed[k] == ListedOf(mine[k], processes0, startTimes0, alive, nowMs))
    && store == StoppedWhereDead(store0, mine[..i], processes0, alive)
    && processes == Pruned(processes0, mine[..i], alive)
    && (forall id | id in startTimes :: id in startTimes0 && startTimes[id] == startTimes0[id])
  }

  /** Listing one more bot as `ListOne` does keeps the invariant, one bot further. */
  lemma ListStep(store0: seq<Bot>, processes0: map<string, Handle>, startTimes0: map<string, int>,
                 alive: Handle -> bool, nowMs: int, mine: seq<Bot>, i: nat, listed: seq<ListedBot>,
                 store: seq<Bot>, processes: map<string, Handle>, startTimes: map<string, int>,
                 rest: ListedBot, store': seq<Bot>, processes': map<string, Handle>, startTimes': map<string, int>)
    requires i < |mine| && startTimes.Keys == processes.Keys
    requires ListInvariant(store0, processes0, startTimes0, alive, nowMs, mine, i, listed, store, processes, startTimes)
    requires rest == ListedOf(mine[i], processes, startTimes, alive, nowMs)
    requires mine[i].running && mine[i].id in processes && !alive(processes[mine[i].id]) ==>
      && processes' == processes - {mine[i].id} && startTimes' == startTimes - {mine[i].id}
      && store' == MarkStopped(store, mine[i].id)
    requires !(mine[i].running && mine[i].id in processes && !alive(processes[mine[i].id])) ==>
      processes' == processes && startTimes' == startTimes && store' == store
    ensures ListInvariant(store0, processes0, startTimes0, alive, nowMs, mine, i + 1, listed + [rest], store', processes', startTimes')
  {
    var b := mine[i];
    assert mine[..i + 1] == mine[..i] + [b];
    ListedStable(b, processes0, mine[..i], alive, startTimes, startTimes0, nowMs);
    if b.running {
      PruneStep(processes0, mine[..i], b, alive);
      StoppedStep(store0, mine[..i], b, processes0, alive);
    } else {
      PruneSkip(processes0, mine[..i], b, alive);
      StoppedSkip(store0, mine[..i], b, processes0, alive);
    }
  }

  /** The `map` callback of `GET /bots` for one bot of the caller. */
  method ListOne(h: Host, b: Bot, alive: Handle -> bool, nowMs: int) returns (rest: ListedBot)
    requires h.Valid()
    modifies h
    ensures h.Valid()
    ensures rest == ListedOf(b, old(h.processes), old(h.startTimes), alive, nowMs)
    ensures b.running && b.id in old(h.processes) && !alive(old(h.processes)[b.id]) ==>
      && h.processes == old(h.processes) - {b.id} && h.startTimes == old(h.startTimes) - {b.id}
      && h.store == MarkStopped(old(h.store), b.id)
    ensures !(b.running && b.id in old(h.processes) && !alive(old(h.processes)[b.id])) ==>
      h.processes == old(h.processes) && h.startTimes == old(h.startTimes) && h.store == old(h.store)
    ensures h.launches == old(h.launches) && h.signalled == old(h.signalled) && h.files == old(h.files)
  {
    rest := Rest(b);
    if rest.running {
      var isActuallyRunning := h.CheckBotProcess(rest.id, alive);
      if !isActuallyRunning && rest.running {
        rest := rest.(running := false);
      } else if isActuallyRunning && rest.id in h.startTimes && h.startTimes[rest.id] != 0 {
        rest := rest.(uptime := Some(UptimeSeconds(nowMs, h.startTimes[rest.id])));
      }
    }
  }

  /** Earlier probes do not change how a bot is listed: a live entry is never pruned, nor its start time. */
  lemma ListedStable(b: Bot, processes0: map<string, Handle>, bots: seq<Bot>, alive: Handle -> bool,
                     startTimes: map<string, int>, startTimes0: map<string, int>, nowMs: int)
    requires startTimes.Keys == Pruned(processes0, bots, alive).Keys
    requires forall id | id in startTimes :: id in startTimes0 && startTimes[id] == startTimes0[id]
    ensures ListedOf(b, Pruned(processes0, bots, alive), startTimes, alive, nowMs) == ListedOf(b, processes0, startTimes0, alive, nowMs)
  {
    ProbeStable(processes0, bots, alive, b.id);
  }

  /**
   * With an empty registry (after a restart of the server), `GET /bots`
   * shows every bot of the caller stopped but leaves the stored list as it
   * was: a bot without a registry entry is not corrected on disk.
   */
  lemma ListAfterRestart(store: seq<Bot>, ip: string, startTimes: map<string, int>, alive: Handle -> bool, nowMs: int)
    ensures forall k | 0 <= k < |FromIp(store, ip)| :: !ListedOf(FromIp(store, ip)[k], map[], startTimes, alive, nowMs).running
    ensures StoppedWhereDead(store, FromIp(store, ip), map[], alive) == store
  {
  }

  /** Before any probe, the stored list is as it was. */
  lemma StoppedNone(store: seq<Bot>, processes: map<string, Handle>, alive: Handle -> bool)
    ensures StoppedWhereDead(store, [], processes, alive) == store
  {
  }

  /** `Claimed` over one more bot. */
  lemma ClaimedSnoc(bots: seq<Bot>, b: Bot, id: string)
    ensures Claimed(bots + [b], id) <==> Claimed(bots, id) || (b.running && b.id == id)
  {
    var bs := bots + [b];
    if Claimed(bs, id) {
      var k :| 0 <= k < |bs| && bs[k].running && bs[k].id == id;
      if k < |bots| {
        assert bots[k] == bs[k];
      }
    }
    if Claimed(bots, id) {
      var k :| 0 <= k < |bots| && bots[k].running && bots[k].id == id;
      assert bs[k] == bots[k];
    }
    if b.running && b.id == id {
      assert bs[|bots|] == b;
    }
  }

  /** Probing one more running bot stops its first stored record exactly when its registered process is newly found dead. */
  lemma StoppedStep(store: seq<Bot>, bots: seq<Bot>, b: Bot, processes: map<string, Handle>, alive: Handle -> bool)
    requires b.running
    ensures b.id in Pruned(processes, bots, alive) && !alive(processes[b.id]) ==>
      StoppedWhereDead(store, bots + [b], processes, alive) == MarkStopped(StoppedWhereDead(store, bots, processes, alive), b.id)
    ensures !(b.id in Pruned(processes, bots, alive) && !alive(processes[b.id])) ==>
      StoppedWhereDead(store, bots + [b], processes, alive) == StoppedWhereDead(store, bots, processes, alive)
  {
    forall id ensures Claimed(bots + [b], id) <==> Claimed(bots, id) || b.id == id {
      ClaimedSnoc(bots, b, id);
    }
    if b.id in Pruned(processes, bots, alive) && !alive(processes[b.id]) {
      StoppedNewlyDead(store, bots, b, processes, alive);
    } else {
      var x := StoppedWhereDead(store, bots, processes, alive);
      var y := StoppedWhereDead(store, bots + [b], processes, alive);
      forall k | 0 <= k < |store| ensures y[k] == x[k] {
      }
    }
  }

  lemma StoppedNewlyDead(store: seq<Bot>, bots: seq<Bot>, b: Bot, processes: map<string, Handle>, alive: Handle -> bool)
    requires b.id in processes && !alive(processes[b.id]) && !Claimed(bots, b.id)
    requires forall id :: Claimed(bots + [b], id) <==> Claimed(bots, id) || b.id == id
    ensures StoppedWhereDead(store, bots + [b], processes, alive) == MarkStopped(StoppedWhereDead(store, bots, processes, alive), b.id)
  {
    var x := StoppedWhereDead(store, bots, processes, alive);
    var y := StoppedWhereDead(store, bots + [b], processes, alive);
    SameIdsSameIndex(x, store, b.id);
    MarkStoppedSpec(x, b.id);
    var m := MarkStopped(x, b.id);
    forall k | 0 <= k < |store| ensures y[k] == m[k] {
      if store[k].id == b.id {
        assert x[k] == store[k];
      }
    }
  }

  /** A bot that does not claim to run is not probed, and the stored list stays as it was. */
  lemma StoppedSkip(store: seq<Bot>, bots: seq<Bot>, b: Bot, processes: map<string, Handle>, alive: Handle -> bool)
    requires !b.running
    ensures StoppedWhereDead(store, bots + [b], processes, alive) == StoppedWhereDead(store, bots, processes, alive)
  {
    forall id ensures Claimed(bots + [b], id) <==> Claimed(bots, id) {
      ClaimedSnoc(bots, b, id);
    }
  }

  /**
   * After `GET /bots`, every listed bot shown running probes as running on
   * the registry the probes leave behind.
   */
  lemma ListedRunningAlive(bots: seq<Bot>, processes: map<string, Handle>, startTimes: map<string, int>, alive: Handle -> bool, nowMs: int)
    ensures forall k | 0 <= k < |bots| && ListedOf(bots[k], processes, startTimes, alive, nowMs).running ::
      Probe(Pruned(processes, bots, alive), alive, bots[k].id)
  {
    forall k | 0 <= k < |bots| && ListedOf(bots[k], processes, startTimes, alive, nowMs).running
      ensures Probe(Pruned(processes, bots, alive), alive, bots[k].id)
    {
      ProbeStable(processes, bots, alive, bots[k].id);
    }
  }

  // ---------------------------------------------------------------- create

  /** The validation of `POST /bots`, in order: name, token, code. */
  function CreateRefusal(name: string, token: string, code: string): Option<Reply> {
    if IsBlank(name) then Some(Refused(NameRequired))
    else if !ValidateToken(token) then Some(Refused(TokenRequired))
    else if IsBlank(code) then Some(Refused(CodeRequired))
    else None
  }

  /** The record `POST /bots` appends. */
  function NewBot(id: string, name: string, token: string, code: string, language: string, ip: string, nowIso: string): Bot {
    Bot(id, Trim(name), token, Sanitized(code), false, LanguageOf(language), None, None, nowIso, nowIso, ip, NoOwner)
  }

  /** `POST /bots`: validates, then appends a stopped bot with sanitized code under the fresh `id`. */
  method Create(h: Host, name: string, token: string, code: string, language: string, ip: string, id: string, nowIso: string)
    returns (reply: Reply)
    requires h.Valid()
    modifies h
    ensures h.Valid()
    ensures CreateRefusal(name, token, code).Some? ==> reply == CreateRefusal(name, token, code).value && h.store == old(h.store)
    ensures CreateRefusal(name, token, code).None? ==>
      reply == Created(id) && h.store == old(h.store) + [NewBot(id, name, token, code, language, ip, nowIso)]
    ensures h.processes == old(h.processes) && h.startTimes == old(h.startTimes) && h.launches == old(h.launches)
    ensures h.signalled == old(h.signalled) && h.files == old(h.files)
  {
    var refusal := CreateRefusal(name, token, code);
    if refusal.Some? {
      return refusal.value;
    }
    var sanitized := SanitizeCode(code);
    var bots := h.store;
    bots := bots + [Bot(id, Trim(name), token, sanitized, false, LanguageOf(language), None, None, nowIso, nowIso, ip, NoOwner)];
    h.store := bots;
    reply := Created(id);
  }

  /**
   * A request whose token fails `validateToken` is refused; one with a
   * valid token, a name and code is accepted, and the bot it stores is
   * stopped, owned by the caller's address and free of the process-control
   * calls.
   */
  lemma CreateOutcome(id: string, name: string, token: string, code: string, language: string, ip: string, nowIso: string)
    ensures !ValidateToken(token) ==> CreateRefusal(name, token, code) == if IsBlank(name) then Some(Refused(NameRequired))
      else Some(Refused(TokenRequired))
    ensures CreateRefusal(name, token, code).None? <==> !IsBlank(name) && ValidateToken(token) && !IsBlank(code)
    ensures var b := NewBot(id, name, token, code, language, ip, nowIso);
      && !b.running && b.creatorIp == ip && b.language != ""
      && !Occurs("process.exit", b.code) && !Occurs("process.kill", b.code)
  {
    SanitizedIsFreeOfExitAndKill(code);
  }

  /** Appending a bot under an id no stored bot has keeps the ids unique. */
  lemma CreateKeepsIdsUnique(store: seq<Bot>, b: Bot)
    requires UniqueIds(store) && FindIndex(store, b.id).None?
    ensures UniqueIds(store + [b])
  {
    var s := store + [b];
    forall i, j | 0 <= i < j < |s| ensures s[i].id != s[j].id {
      if j == |store| {
        assert s[i] == store[i];
      } else {
        assert s[i] == store[i] && s[j] == store[j];
      }
    }
  }

  // ---------------------------------------------------------------- update

  /** The validation of `PUT /bots/:id`: each field is checked only when supplied. */
  function UpdateRefusal(name: string, token: string, code: string): Option<Reply> {
    if name != "" && IsBlank(name) then Some(Refused(NameEmpty))
    else if token != "" && !ValidateToken(token) then Some(Refused(TokenInvalid))
    else if code != "" && IsBlank(code) then Some(Refused(CodeEmpty))
    else None
  }

  /** The bot after `PUT /bots/:id`: the supplied fields (name trimmed, code sanitized) and the update time. */
  function Edited(b: Bot, name: string, token: string, code: string, language: string, nowIso: string): (e: Bot)
    ensures e.id == b.id && e.running == b.running && e.creatorIp == b.creatorIp && e.createdAt == b.createdAt
    ensures e.userId == b.userId && e.lastStarted == b.lastStarted && e.uptime == b.uptime
  {
    b.(name := if name != "" then Trim(name) else b.name,
       token := if token != "" then token else b.token,
       code := if code != "" then Sanitized(code) else b.code,
       language := if language != "" then language else b.language,
       updatedAt := nowIso)
  }

  /** An edit changes a field only when that field was supplied; the update time always changes. */
  lemma EditedChangesOnlySupplied(b: Bot, name: string, token: string, code: string, language: string, nowIso: string)
    ensures var e := Edited(b, name, token, code, language, nowIso);
      && e.updatedAt == nowIso
      && (name == "" ==> e.name == b.name) && (token == "" ==> e.token == b.token)
      && (code == "" ==> e.code == b.code) && (language == "" ==> e.language == b.language)
      && (code != "" ==> !Occurs("process.exit", e.code) && !Occurs("process.kill", e.code))
    ensures Edited(b, "", "", "", "", nowIso) == b.(updatedAt := nowIso)
  {
    SanitizedIsFreeOfExitAndKill(code);
  }

  /** The field assignments of `PUT /bots/:id`, each made only when its field was supplied. */
  method EditFields(b: Bot, name: string, token: string, code: string, language: string, nowIso: string) returns (bot: Bot)
    ensures bot == Edited(b, name, token, code, language, nowIso)
  {
    bot := b;
    if name != "" {
      bot := bot.(name := Trim(name));
    }
    if token != "" {
      bot := bot.(token := token);
    }
    if code != "" {
      var sanitized := SanitizeCode(code);
      bot := bot.(code := sanitized);
    }
    if language != "" {
      bot := bot.(language := language);
    }
    bot := bot.(updatedAt := nowIso);
  }

  /** `PUT /bots/:id`: ownership, then validation, then the edit is saved. A running bot may be edited. */
  method Update(h: Host, id: string, ip: string, name: string, token: string, code: string, language: string, nowIso: string)
    returns (reply: Reply)
    requires h.Valid()
    modifies h
    ensures h.Valid()
    ensures OwnerCheck(old(h.store), id, ip).Denied? ==> reply == OwnerCheck(old(h.store), id, ip).reply && h.store == old(h.store)
    ensures OwnerCheck(old(h.store), id, ip).Granted? && UpdateRefusal(name, token, code).Some? ==>
      reply == UpdateRefusal(name, token, code).value && h.store == old(h.store)
    ensures OwnerCheck(old(h.store), id, ip).Granted? && UpdateRefusal(name, token, code).None? ==>
      var i := OwnerCheck(old(h.store), id, ip).index;
      var e := Edited(old(h.store)[i], name, token, code, language, nowIso);
      reply == Saved(e) && h.store == old(h.store)[i := e]
    ensures h.processes == old(h.processes) && h.startTimes == old(h.startTimes) && h.launches == old(h.launches)
    ensures h.signalled == old(h.signalled) && h.files == old(h.files)
  {
    var bots := h.store;
    var access := OwnerCheck(bots, id, ip);
    if access.Denied? {
      return access.reply;
    }
    var i := access.index;
    var refusal := UpdateRefusal(name, token, code);
    if refusal.Some? {
      return refusal.value;
    }
    var bot := EditFields(bots[i], name, token, code, language, nowIso);
    bots := bots[i := bot];
    h.store := bots;
    reply := Saved(bot);
  }

  // ---------------------------------------------------------------- delete

  /** The working file of a stored bot: `bot_<id>.<ext>` for its language. */
  function WorkingFile(b: Bot): string {
    BotFileName(b.id, Extension(LanguageOf(b.language)))
  }

  /** `DELETE /bots/:id` refuses a foreign or unknown bot, and one stored as running. */
  function DeleteRefusal(store: seq<Bot>, id: string, ip: string): Option<Reply> {
    match OwnerCheck(store, id, ip)
    case Denied(r) => Some(r)
    case Granted(i) => if store[i].running then Some(Refused(StopBeforeDeleting)) else None
  }

  /**
   * `DELETE /bots/:id`: removes the working file, drops both registry
   * entries without signalling the process, and saves the list without any
   * bot with this id.
   */
  method Delete(h: Host, id: string, ip: string) returns (reply: Reply)
    requires h.Valid()
    modifies h
    ensures h.Valid()
    ensures DeleteRefusal(old(h.store), id, ip).Some? ==>
      && reply == DeleteRefusal(old(h.store), id, ip).value
      && h.store == old(h.store) && h.files == old(h.files)
      && h.processes == old(h.processes) && h.startTimes == old(h.startTimes)
    ensures DeleteRefusal(old(h.store), id, ip).None? ==>
      && reply == Succeeded(NoMessage)
      && h.store == WithoutId(old(h.store), id)
      && h.files == old(h.files) - {WorkingFile(old(h.store)[OwnerCheck(old(h.store), id, ip).index])}
      && h.processes == old(h.processes) - {id} && h.startTimes == old(h.startTimes) - {id}
    ensures h.launches == old(h.launches) && h.signalled == old(h.signalled)
  {
    var bots := h.store;
    var access := OwnerCheck(bots, id, ip);
    if access.Denied? {
      return access.reply;
    }
    var bot := bots[access.index];
    if bot.running {
      return Refused(StopBeforeDeleting);
    }
    var ext := Extension(LanguageOf(bot.language));
    h.files := h.files - {BotFileName(id, ext)};
    h.Forget(id);
    bots := WithoutId(bots, id);
    h.store := bots;
    reply := Succeeded(NoMessage);
  }

  // ---------------------------------------------------------------- start

  /** `POST /bots/:id/start` refuses a foreign or unknown bot, and one stored as running. */
  function StartRefusal(store: seq<Bot>, id: string, ip: string): Option<Reply> {
    match OwnerCheck(store, id, ip)
    case Denied(r) => Some(r)
    case Granted(i) => if store[i].running then Some(Refused(AlreadyRunning)) else None
  }

  /** The launch plan of a stored bot. */
  function PlanFor(b: Bot): LaunchPlan {
    Plan(LanguageOf(b.language), b.id, WorkingFile(b))
  }

  /** The process a plan spawns first: the compiler, or the bot itself. */
  function FirstCommand(plan: LaunchPlan): Command {
    match plan
    case Direct(run) => run
    case CompileThenRun(compile, _) => compile
  }

  /** The process a plan spawns once its compiler succeeds, if any. */
  function NextCommand(plan: LaunchPlan): Option<Command> {
    match plan
    case Direct(_) => None
    case CompileThenRun(_, run) => Some(run)
  }

  /** The first child process of bot `i` of `saved`, with callbacks that close over `saved`. */
  function LaunchOf(saved: seq<Bot>, i: nat): Launch
    requires i < |saved|
  {
    var plan := PlanFor(saved[i]);
    Launch(saved[i].id, FirstCommand(plan), JsHandlers(saved, i, NextCommand(plan)))
  }

  /** Bot `i` marked running: what the start handler is evidently meant to save before spawning. */
  function MarkedRunning(store: seq<Bot>, i: nat): (r: seq<Bot>)
    requires i < |store|
    ensures |r| == |store| && r[i].running
    ensures forall k | 0 <= k < |store| :: r[k] == store[k].(running := r[k].running)
  {
    store[i := store[i].(running := true)]
  }

  /**
   * `startProcess()` for bot `i` of `saved`: the working file gets the code
   * with the token injected through the placeholder table `placeholders`,
   * the first process of the plan is spawned and registered with the
   * current time.
   */
  method SpawnBot(h: Host, saved: seq<Bot>, i: nat, placeholders: seq<Pattern>, nowMs: int)
    requires h.Valid() && i < |saved|
    modifies h
    ensures h.Valid()
    ensures h.files == old(h.files)[WorkingFile(saved[i]) := InjectedWith(placeholders, saved[i].code, LanguageOf(saved[i].language), saved[i].token)]
    ensures h.launches == old(h.launches) + [LaunchOf(saved, i)]
    ensures h.processes == old(h.processes)[saved[i].id := |old(h.launches)|]
    ensures h.startTimes == old(h.startTimes)[saved[i].id := nowMs]
    ensures h.store == old(h.store) && h.signalled == old(h.signalled)
  {
    var bot := saved[i];
    var lang := LanguageOf(bot.language);
    var botFile := BotFileName(bot.id, Extension(lang));
    var codeWithToken := InjectToken(placeholders, bot.code, lang, bot.token);
    h.files := h.files[botFile := codeWithToken];
    var plan := Plan(lang, bot.id, botFile);
    var child: Launch;
    if plan.CompileThenRun? {
      child := Launch(bot.id, plan.compile, JsHandlers(saved, i, Some(plan.run)));
    } else {
      child := Launch(bot.id, plan.run, JsHandlers(saved, i, None));
    }
    var handle := h.Spawn(child, nowMs);
  }

  /**
   * `POST /bots/:id/start` as written: it launches the bot and answers
   * "Bot started", but never sets `running` in the stored list, so the list
   * stays as it was loaded.
   */
  method StartAsWritten(h: Host, id: string, ip: string, nowMs: int) returns (reply: Reply)
    requires h.Valid()
    modifies h
    ensures h.Valid()
    ensures StartRefusal(old(h.store), id, ip).Some? ==>
      && reply == StartRefusal(old(h.store), id, ip).value
      && h.files == old(h.files) && h.launches == old(h.launches)
      && h.processes == old(h.processes) && h.startTimes == old(h.startTimes)
    ensures StartRefusal(old(h.store), id, ip).None? ==>
      var i := OwnerCheck(old(h.store), id, ip).index;
      && reply == Succeeded(BotStarted)
      && h.files == old(h.files)[WorkingFile(old(h.store)[i]) :=
           InjectedAsWritten(old(h.store)[i].code, LanguageOf(old(h.store)[i].language), old(h.store)[i].token)]
      && h.launches == old(h.launches) + [LaunchOf(old(h.store), i)]
      && h.processes == old(h.processes)[id := |old(h.launches)|] && h.startTimes == old(h.startTimes)[id := nowMs]
    ensures h.store == old(h.store) && h.signalled == old(h.signalled)
  {
    var bots := h.store;
    var access := OwnerCheck(bots, id, ip);
    if access.Denied? {
      return access.reply;
    }
    var i := access.index;
    if bots[i].running {
      return Refused(AlreadyRunning);
    }
    SpawnBot(h, bots, i, AsWrittenTokenPlaceholders, nowMs);
    reply := Succeeded(BotStarted);
  }

  /**
   * `POST /bots/:id/start`, corrected: the bot is marked running and the
   * list saved before the process is spawned, so the callbacks close over a
   * list in which it runs.
   */
  method Start(h: Host, id: string, ip: string, nowMs: int) returns (reply: Reply)
    requires h.Valid()
    modifies h
    ensures h.Valid()
    ensures StartRefusal(old(h.store), id, ip).Some? ==>
      && reply == StartRefusal(old(h.store), id, ip).value && h.store == old(h.store)
      && h.files == old(h.files) && h.launches == old(h.launches)
      && h.processes == old(h.processes) && h.startTimes == old(h.startTimes)
    ensures StartRefusal(old(h.store), id, ip).None? ==>
      var i := OwnerCheck(old(h.store), id, ip).index;
      && reply == Succeeded(BotStarted)
      && h.store == MarkedRunning(old(h.store), i)
      && h.files == old(h.files)[WorkingFile(old(h.store)[i]) :=
           Injected(old(h.store)[i].code, LanguageOf(old(h.store)[i].language), old(h.store)[i].token)]
      && h.launches == old(h.launches) + [LaunchOf(MarkedRunning(old(h.store), i), i)]
      && h.processes == old(h.processes)[id := |old(h.launches)|] && h.startTimes == old(h.startTimes)[id := nowMs]
    ensures h.signalled == old(h.signalled)
  {
    var bots := h.store;
    var access := OwnerCheck(bots, id, ip);
    if access.Denied? {
      return access.reply;
    }
    var i := access.index;
    if bots[i].running {
      return Refused(AlreadyRunning);
    }
    bots := bots[i := bots[i].(running := true)];
    h.store := bots;
    SpawnBot(h, bots, i, TokenPlaceholders, nowMs);
    reply := Succeeded(BotStarted);
  }

  // ---------------------------------------------------------------- process callbacks

  /** The `exit` callback: both registry entries of the bot go, and the list it closes over is saved with the bot stopped. */
  method OnExit(h: Host, handle: Handle)
    requires h.Valid() && handle < |h.launches| && h.launches[handle].handlers.JsHandlers?
    modifies h
    ensures h.Valid()
    ensures var l := old(h.launches[handle]);
      && h.processes == old(h.processes) - {l.botId} && h.startTimes == old(h.startTimes) - {l.botId}
      && h.store == Halted(l.handlers.snapshot, l.handlers.index)
    ensures h.launches == old(h.launches) && h.signalled == old(h.signalled) && h.files == old(h.files)
  {
    var l := h.launches[handle];
    assert WellFormedLaunch(l);
    var bots := l.handlers.snapshot;
    bots := bots[l.handlers.index := bots[l.handlers.index].(running := false)];
    h.Forget(l.botId);
    h.store := bots;
  }

  /** The `error` callback: the list it closes over is saved with the bot stopped; the registry keeps its entries. */
  method OnError(h: Host, handle: Handle)
    requires h.Valid() && handle < |h.launches| && h.launches[handle].handlers.JsHandlers?
    modifies h
    ensures h.Valid()
    ensures var l := old(h.launches[handle]); h.store == Halted(l.handlers.snapshot, l.handlers.index)
    ensures h.processes == old(h.processes) && h.startTimes == old(h.startTimes)
    ensures h.launches == old(h.launches) && h.signalled == old(h.signalled) && h.files == old(h.files)
  {
    var l := h.launches[handle];
    assert WellFormedLaunch(l);
    var bots := l.handlers.snapshot;
    bots := bots[l.handlers.index := bots[l.handlers.index].(running := false)];
    h.store := bots;
  }

  /**
   * The `close` callback of the Java compiler: exit code 0 spawns the class
   * and registers it with the current time; any other code (or none, when a
   * signal ended it) spawns nothing and saves the bot stopped.
   */
  method OnCompileClosed(h: Host, handle: Handle, exitCode: Option<int>, nowMs: int)
    requires h.Valid() && handle < |h.launches|
    requires h.launches[handle].handlers.JsHandlers? && h.launches[handle].handlers.onCompiled.Some?
    modifies h
    ensures h.Valid()
    ensures var l := old(h.launches[handle]);
      exitCode == Some(0) ==>
        && h.launches == old(h.launches) + [Launch(l.botId, l.handlers.onCompiled.value, l.handlers.(onCompiled := None))]
        && h.processes == old(h.processes)[l.botId := |old(h.launches)|] && h.startTimes == old(h.startTimes)[l.botId := nowMs]
        && h.store == old(h.store)
    ensures var l := old(h.launches[handle]);
      exitCode != Some(0) ==>
        && h.launches == old(h.launches) && h.processes == old(h.processes) && h.startTimes == old(h.startTimes)
        && h.store == Halted(l.handlers.snapshot, l.handlers.index)
    ensures h.signalled == old(h.signalled) && h.files == old(h.files)
  {
    var l := h.launches[handle];
    assert WellFormedLaunch(l);
    if exitCode == Some(0) {
      var run := Launch(l.botId, l.handlers.onCompiled.value, JsHandlers(l.handlers.snapshot, l.handlers.index, None));
      var child := h.Spawn(run, nowMs);
    } else {
      var bots := l.handlers.snapshot;
      bots := bots[l.handlers.index := bots[l.handlers.index].(running := false)];
      h.store := bots;
    }
  }

  // ---------------------------------------------------------------- stop

  /** The answer of `POST /bots/:id/stop`. */
  function StopReply(store: seq<Bot>, processes: map<string, Handle>, id: string, ip: string): Reply {
    match OwnerCheck(store, id, ip)
    case Denied(r) => r
    case Granted(i) =>
      if !store[i].running then Refused(NotRunning)
      else if id in processes then Succeeded(BotStopped)
      else Refused(ProcessNotFound)
  }

  /**
   * `POST /bots/:id/stop`: a bot stored as running whose process is
   * registered gets that process signalled, both registry entries removed,
   * and is saved stopped; otherwise nothing changes.
   */
  method Stop(h: Host, id: string, ip: string, nowIso: string) returns (reply: Reply)
    requires h.Valid()
    modifies h
    ensures h.Valid()
    ensures reply == StopReply(old(h.store), old(h.processes), id, ip)
    ensures reply.Succeeded? ==>
      var i := OwnerCheck(old(h.store), id, ip).index;
      && h.signalled == old(h.signalled) + {old(h.processes)[id]}
      && h.processes == old(h.processes) - {id} && h.startTimes == old(h.startTimes) - {id}
      && h.store == old(h.store)[i := old(h.store)[i].(running := false, updatedAt := nowIso)]
    ensures !reply.Succeeded? ==>
      && h.signalled == old(h.signalled) && h.store == old(h.store)
      && h.processes == old(h.processes) && h.startTimes == old(h.startTimes)
    ensures h.launches == old(h.launches) && h.files == old(h.files)
  {
    var bots := h.store;
    var access := OwnerCheck(bots, id, ip);
    if access.Denied? {
      return access.reply;
    }
    var i := access.index;
    if !bots[i].running {
      return Refused(NotRunning);
    }
    if id !in h.processes {
      return Refused(ProcessNotFound);
    }
    h.signalled := h.signalled + {h.processes[id]};
    h.Forget(id);
    bots := bots[i := bots[i].(running := false, updatedAt := nowIso)];
    h.store := bots;
    reply := Succeeded(BotStopped);
  }

  // ---------------------------------------------------------------- start, then stop

  /**
   * As written, start leaves the list as it was, so a bot it started is
   * still stored as stopped: whatever the registry holds, stopping it is
   * refused with "Bot is not running".
   */
  lemma StopAfterStartAsWrittenRefused(store: seq<Bot>, processes: map<string, Handle>, id: string, ip: string)
    requires StartRefusal(store, id, ip).None?
    ensures StopReply(store, processes, id, ip) == Refused(NotRunning)
  {
  }

  /**
   * As written, the bot a callback closes over was stored as stopped when
   * it was loaded, so the `exit` and `error` callbacks write back the list
   * exactly as the start request loaded it, undoing any change saved since.
   */
  lemma AsWrittenCallbacksRestoreSnapshot(store: seq<Bot>, id: string, ip: string)
    requires StartRefusal(store, id, ip).None?
    ensures var l := LaunchOf(store, OwnerCheck(store, id, ip).index);
      Halted(l.handlers.snapshot, l.handlers.index) == store
  {
  }

  /**
   * With the corrected start, a stop request that follows a successful
   * start stops the bot: the list marks it running and the registry has the
   * process just launched.
   */
  lemma StopAfterStartSucceeds(store: seq<Bot>, processes: map<string, Handle>, id: string, ip: string, handle: Handle)
    requires StartRefusal(store, id, ip).None?
    ensures var i := OwnerCheck(store, id, ip).index;
      StopReply(MarkedRunning(store, i), processes[id := handle], id, ip) == Succeeded(BotStopped)
  {
    var i := OwnerCheck(store, id, ip).index;
    OwnerCheckStable(store, i, store[i].(running := true), id, ip);
  }

  /** With the corrected start, the callbacks save the list the start request saved, with the bot stopped again. */
  lemma CallbacksUndoStart(store: seq<Bot>, id: string, ip: string)
    requires StartRefusal(store, id, ip).None?
    ensures var i := OwnerCheck(store, id, ip).index;
      var l := LaunchOf(MarkedRunning(store, i), i);
      Halted(l.handlers.snapshot, l.handlers.index) == store
  {
    var i := OwnerCheck(store, id, ip).index;
    assert MarkedRunning(store, i)[i := store[i]] == store;
  }
}
