/**
 * The request handlers and the process callback of the variant that keys
 * ownership by the authenticated account (backend/src/index.ts), as
 * operations on the shared `Host` state, together with its two file
 * helpers: the start-up clean-up of `bots.json` and `disableBotCodeFile`.
 *
 * This variant runs every bot as `python <id>.py`, fills in the token with
 * a plain first-occurrence `replace`, and stops a bot by writing a sentinel
 * file instead of signalling its process. The account id of the caller, the
 * clock and the liveness oracle are parameters; a request field that is
 * absent is the empty string.
 */
module TsBackend {
  import opened Wrappers
  import opened Text
  import opened Credentials
  import opened Sanitizer
  import opened Injection
  import opened Bots
  import opened Strategy
  import opened Supervisor
  import opened Replies

  // ---------------------------------------------------------------- start-up clean-up

  /** `b.userId && typeof b.userId === 'string'`: the owner is a non-empty string. */
  predicate HasOwner(b: Bot) {
    b.userId.OwnerString? && b.userId.user != ""
  }

  /** `bots.filter(b => b.userId && typeof b.userId === 'string')`. */
  function KeptOwned(store: seq<Bot>): seq<Bot> {
    if store == [] then []
    else (if HasOwner(store[0]) then [store[0]] else []) + KeptOwned(store[1..])
  }

  /**
   * The filter keeps exactly the owned bots: every kept bot is owned and
   * stored, every owned stored bot is kept, and the list shrinks exactly
   * when some bot has no owner (otherwise it is the list itself).
   */
  lemma {:induction false} KeptOwnedSpec(store: seq<Bot>)
    ensures |KeptOwned(store)| <= |store|
    ensures forall b :: b in KeptOwned(store) <==> b in store && HasOwner(b)
    ensures |KeptOwned(store)| == |store| <==> forall k | 0 <= k < |store| :: HasOwner(store[k])
    ensures |KeptOwned(store)| == |store| ==> KeptOwned(store) == store
  {
    if store != [] {
      KeptOwnedSpec(store[1..]);
      assert store == [store[0]] + store[1..];
      forall b ensures b in KeptOwned(store) <==> b in store && HasOwner(b) {
        assert b in store <==> b == store[0] || b in store[1..];
      }
      if forall k | 0 <= k < |store| :: HasOwner(store[k]) {
        assert forall k | 0 <= k < |store[1..]| :: HasOwner(store[1..][k]) by {
          forall k | 0 <= k < |store[1..]| ensures HasOwner(store[1..][k]) {
            assert store[1..][k] == store[k + 1];
          }
        }
      } else {
        var k :| 0 <= k < |store| && !HasOwner(store[k]);
        if k > 0 {
          assert !HasOwner(store[1..][k - 1]);
        }
      }
    }
  }

  /** The filter keeps the order of the list: filtering a concatenation concatenates the filtered parts. */
  lemma {:induction false} KeptOwnedKeepsOrder(a: seq<Bot>, b: seq<Bot>)
    ensures KeptOwned(a + b) == KeptOwned(a) + KeptOwned(b)
  {
    if a != [] {
      assert (a + b)[1..] == a[1..] + b;
      KeptOwnedKeepsOrder(a[1..], b);
    } else {
      assert a + b == b;
    }
  }

  /** `cleanBotsFile()`: the list is filtered to the owned bots and saved only when some bot was dropped. */
  method CleanBotsFile(h: Host) returns (saved: bool)
    modifies h
    ensures saved <==> exists k | 0 <= k < |old(h.store)| :: !HasOwner(old(h.store)[k])
    ensures h.store == KeptOwned(old(h.store))
    ensures !saved ==> h.store == old(h.store)
    ensures h.processes == old(h.processes) && h.startTimes == old(h.startTimes) && h.launches == old(h.launches)
    ensures h.signalled == old(h.signalled) && h.files == old(h.files)
  {
    var bots := h.store;
    var filtered := KeptOwned(bots);
    KeptOwnedSpec(bots);
    if |filtered| != |bots| {
      h.store := filtered;
      saved := true;
    } else {
      saved := false;
    }
  }

  // ---------------------------------------------------------------- ownership

  /** Two lists with the same ids and owners position by position find the same owned bot. */
  lemma SameOwnersSameIndex(s: seq<Bot>, t: seq<Bot>, id: string, user: string)
    requires |s| == |t| && forall k | 0 <= k < |s| :: s[k].id == t[k].id && s[k].userId == t[k].userId
    ensures FindOwned(s, id, user) == FindOwned(t, id, user)
  {
    var f, g := FindOwned(s, id, user), FindOwned(t, id, user);
    if f.Some? && g.Some? {
      assert !(f.value < g.value) && !(g.value < f.value);
    } else if f.Some? {
      assert t[f.value].id == id && OwnedBy(t[f.value], user);
    } else if g.Some? {
      assert s[g.value].id == id && OwnedBy(s[g.value], user);
    }
  }

  // ---------------------------------------------------------------- update

  /** The bot after `PUT /bots/:id`: the supplied fields (the name as given, the code sanitized) and the update time. */
  function Edited(b: Bot, name: string, token: string, code: string, language: string, nowIso: string): Bot {
    b.(name := if name != "" then name else b.name,
       token := if token != "" then token else b.token,
       code := if code != "" then Sanitized(code) else b.code,
       language := if language != "" then language else b.language,
       updatedAt := nowIso)
  }

  /**
   * An edit keeps the identity, owner and run state of the bot, changes a
   * field only when it was supplied (the name exactly as supplied), and
   * stores supplied code free of the process-control calls.
   */
  lemma EditedChangesOnlySupplied(b: Bot, name: string, token: string, code: string, language: string, nowIso: string)
    ensures var e := Edited(b, name, token, code, language, nowIso);
      && e.id == b.id && e.userId == b.userId && e.running == b.running && e.createdAt == b.createdAt
      && e.lastStarted == b.lastStarted && e.uptime == b.uptime && e.updatedAt == nowIso
      && e.name == (if name != "" then name else b.name)
      && e.token == (if token != "" then token else b.token)
      && e.language == (if language != "" then language else b.language)
      && (code == "" ==> e.code == b.code)
      && (code != "" ==> !Occurs("process.exit", e.code) && !Occurs("process.kill", e.code))
  {
    SanitizedIsFreeOfExitAndKill(code);
  }

  /** The answer of `PUT /bots/:id`: 404, a running bot, a malformed token, or the edited bot. */
  function UpdateReply(store: seq<Bot>, id: string, user: string,
                       name: string, token: string, code: string, language: string, nowIso: string): Reply
  {
    match FindOwned(store, id, user)
    case None => Refused(BotNotFound)
    case Some(i) =>
      if store[i].running then Refused(EditWhileRunning)
      else if token != "" && !ValidateToken(token) then Refused(BadTokenFormat)
      else Saved(Edited(store[i], name, token, code, language, nowIso))
  }

  /**
   * The field assignments of `PUT /bots/:id` on the loaded record, in
   * order; the token is validated when it is reached, and a malformed one
   * abandons the edit.
   */
  method EditFields(b: Bot, name: string, token: string, code: string, language: string, nowIso: string)
    returns (edited: Option<Bot>)
    ensures token != "" && !ValidateToken(token) ==> edited == None
    ensures !(token != "" && !ValidateToken(token)) ==> edited == Some(Edited(b, name, token, code, language, nowIso))
  {
    var bot := b;
    if name != "" {
      bot := bot.(name := name);
    }
    if token != "" {
      if !ValidateToken(token) {
        return None;
      }
      bot := bot.(token := token);
    }
    if code != "" {
      var sanitized := SanitizeCode(code);
      bot := bot.(code := sanitized);
    }
    if language != "" {
      bot := bot.(language := language);
    }
    bot := bot.(updatedAt := nowIso);
    return Some(bot);
  }

  /**
   * `PUT /bots/:id`: only the owner's stopped bot can be edited, and a
   * supplied token must be well formed; then the edited record is saved in
   * place. Every refusal leaves the list as it was.
   */
  method Update(h: Host, id: string, user: string, name: string, token: string, code: string, language: string, nowIso: string)
    returns (reply: Reply)
    requires h.Valid()
    modifies h
    ensures h.Valid()
    ensures reply == UpdateReply(old(h.store), id, user, name, token, code, language, nowIso)
    ensures reply.Refused? ==> h.store == old(h.store)
    ensures reply.Saved? ==> h.store == old(h.store)[FindOwned(old(h.store), id, user).value := reply.bot]
    ensures h.processes == old(h.processes) && h.startTimes == old(h.startTimes) && h.launches == old(h.launches)
    ensures h.signalled == old(h.signalled) && h.files == old(h.files)
  {
    var bots := h.store;
    var found := FindOwned(bots, id, user);
    if found.None? {
      return Refused(BotNotFound);
    }
    var i := found.value;
    if bots[i].running {
      return Refused(EditWhileRunning);
    }
    var edited := EditFields(bots[i], name, token, code, language, nowIso);
    if edited.None? {
      return Refused(BadTokenFormat);
    }
    bots := bots[i := edited.value];
    h.store := bots;
    reply := Saved(edited.value);
  }

  /** A saved edit keeps the bot where it was and keeps every owned lookup as it was. */
  lemma UpdateKeepsOwnership(store: seq<Bot>, id: string, user: string,
                             name: string, token: string, code: string, language: string, nowIso: string, otherId: string, otherUser: string)
    requires UpdateReply(store, id, user, name, token, code, language, nowIso).Saved?
    ensures var i := FindOwned(store, id, user).value;
      var e := UpdateReply(store, id, user, name, token, code, language, nowIso).bot;
      && e.id == id && OwnedBy(e, user) && !e.running
      && FindOwned(store[i := e], otherId, otherUser) == FindOwned(store, otherId, otherUser)
  {
    var i := FindOwned(store, id, user).value;
    var e := Edited(store[i], name, token, code, language, nowIso);
    SameOwnersSameIndex(store[i := e], store, otherId, otherUser);
  }

  // ---------------------------------------------------------------- delete

  /** The working file of a bot in this variant: `<id>.py`. */
  function ScriptFile(id: string): string {
    id + ".py"
  }

  /** `bots.splice(i, 1)`. */
  function Spliced(store: seq<Bot>, i: nat): seq<Bot>
    requires i < |store|
  {
    store[..i] + store[i + 1..]
  }

  /** Splicing out bot `i` removes exactly that bot and keeps the others in their order. */
  lemma SplicedSpec(store: seq<Bot>, i: nat)
    requires i < |store|
    ensures |Spliced(store, i)| == |store| - 1
    ensures forall k | 0 <= k < i :: Spliced(store, i)[k] == store[k]
    ensures forall k | i <= k < |store| - 1 :: Spliced(store, i)[k] == store[k + 1]
    ensures multiset(Spliced(store, i)) + multiset{store[i]} == multiset(store)
    ensures UniqueIds(store) ==> forall k | 0 <= k < |store| - 1 :: Spliced(store, i)[k].id != store[i].id
  {
    assert store == store[..i] + [store[i]] + store[i + 1..];
  }

  /** The answer of `DELETE /bots/:id`. */
  function DeleteReply(store: seq<Bot>, id: string, user: string): Reply {
    if FindOwned(store, id, user).None? then Refused(BotNotFound) else Succeeded(NoMessage)
  }

  /**
   * `DELETE /bots/:id`: a bot stored as running whose process is
   * registered gets that process sent `SIGTERM` and both registry entries
   * removed; the working file is removed and the bot is spliced out of the
   * list. A running bot is deleted too.
   */
  method Delete(h: Host, id: string, user: string) returns (reply: Reply)
    requires h.Valid()
    modifies h
    ensures h.Valid()
    ensures reply == DeleteReply(old(h.store), id, user)
    ensures reply.Refused? ==>
      && h.store == old(h.store) && h.files == old(h.files) && h.signalled == old(h.signalled)
      && h.processes == old(h.processes) && h.startTimes == old(h.startTimes)
    ensures reply.Succeeded? ==>
      var i := FindOwned(old(h.store), id, user).value;
      && h.store == Spliced(old(h.store), i)
      && h.files == old(h.files) - {ScriptFile(id)}
      && (old(h.store)[i].running && id in old(h.processes) ==>
            && h.signalled == old(h.signalled) + {old(h.processes)[id]}
            && h.processes == old(h.processes) - {id} && h.startTimes == old(h.startTimes) - {id})
      && (!(old(h.store)[i].running && id in old(h.processes)) ==>
            && h.signalled == old(h.signalled)
            && h.processes == old(h.processes) && h.startTimes == old(h.startTimes))
    ensures h.launches == old(h.launches)
  {
    var bots := h.store;
    var found := FindOwned(bots, id, user);
    if found.None? {
      return Refused(BotNotFound);
    }
    var i := found.value;
    var bot := bots[i];
    if bot.running && bot.id in h.processes {
      h.signalled := h.signalled + {h.processes[bot.id]};
      h.Forget(bot.id);
    }
    h.files := h.files - {ScriptFile(bot.id)};
    bots := bots[..i] + bots[i + 1..];
    h.store := bots;
    reply := Succeeded(NoMessage);
  }

  // ---------------------------------------------------------------- run

  /** The process `POST /bots/:id/run` spawns: `python <id>.py`. */
  function ScriptCommand(id: string): Command {
    Command("python", [ScriptFile(id)])
  }

  /** The answer of `POST /bots/:id/run`. */
  function RunReply(store: seq<Bot>, processes: map<string, Handle>, alive: Handle -> bool, id: string, user: string): Reply {
    match FindOwned(store, id, user)
    case None => Refused(BotNotFound)
    case Some(i) =>
      if store[i].running then Refused(AlreadyRunning)
      else if Probe(processes, alive, id) then Succeeded(StillRunning)
      else Succeeded(NoMessage)
  }

  /** The list a launch saves: bot `i` running, started now, with no uptime yet. */
  function Launched(store: seq<Bot>, i: nat, nowIso: string): (r: seq<Bot>)
    requires i < |store|
    ensures |r| == |store| && r[i].running && r[i].lastStarted == Some(nowIso) && r[i].uptime == Some(0)
    ensures r[i] == store[i].(running := true, lastStarted := Some(nowIso), uptime := Some(0))
    ensures forall k | 0 <= k < |store| && k != i :: r[k] == store[k]
  {
    store[i := store[i].(running := true, lastStarted := Some(nowIso), uptime := Some(0))]
  }

  /**
   * `POST /bots/:id/run`: refuses an unknown or foreign bot and one stored
   * as running. If the bot's registered process is still alive, the bot is
   * only saved as running again. Otherwise (the probe having dropped a dead
   * registration) `<id>.py` gets the code with the first placeholder
   * replaced by the token, `python <id>.py` is spawned and registered with
   * the current time, and the list loaded by the request is saved with the
   * bot running, started now, with uptime 0.
   */
  method Run(h: Host, id: string, user: string, alive: Handle -> bool, nowMs: int, nowIso: string) returns (reply: Reply)
    requires h.Valid()
    modifies h
    ensures h.Valid()
    ensures reply == RunReply(old(h.store), old(h.processes), alive, id, user)
    ensures reply.Refused? ==>
      && h.store == old(h.store) && h.files == old(h.files) && h.launches == old(h.launches)
      && h.processes == old(h.processes) && h.startTimes == old(h.startTimes)
    ensures reply == Succeeded(StillRunning) ==>
      var i := FindOwned(old(h.store), id, user).value;
      && h.store == old(h.store)[i := old(h.store)[i].(running := true)]
      && h.files == old(h.files) && h.launches == old(h.launches)
      && h.processes == old(h.processes) && h.startTimes == old(h.startTimes)
    ensures reply == Succeeded(NoMessage) ==>
      var i := FindOwned(old(h.store), id, user).value;
      && h.store == Launched(old(h.store), i, nowIso)
      && h.files == old(h.files)[ScriptFile(id) := ReplaceFirst(old(h.store)[i].code, TemplatePlaceholder, old(h.store)[i].token)]
      && h.launches == old(h.launches) + [Launch(id, ScriptCommand(id), TsHandlers)]
      && h.processes == old(h.processes)[id := |old(h.launches)|] && h.startTimes == old(h.startTimes)[id := nowMs]
    ensures h.signalled == old(h.signalled)
  {
    var bots := h.store;
    var found := FindOwned(bots, id, user);
    if found.None? {
      return Refused(BotNotFound);
    }
    var i := found.value;
    if bots[i].running {
      return Refused(AlreadyRunning);
    }
    var isRunning := h.CheckBotProcess(id, alive);
    if isRunning {
      bots := bots[i := bots[i].(running := true)];
      h.store := bots;
      return Succeeded(StillRunning);
    }
    ghost var processes1, startTimes1 := h.processes, h.startTimes;
    var bot := bots[i];
    LaunchScript(h, bot, nowMs);
    RegisterAfterForget(old(h.processes), processes1, id, |old(h.launches)|);
    RegisterAfterForget(old(h.startTimes), startTimes1, id, nowMs);
    bots := bots[i := bot.(running := true, lastStarted := Some(nowIso), uptime := Some(0))];
    h.store := bots;
    reply := Succeeded(NoMessage);
  }

  /**
   * The launch part of `POST /bots/:id/run`: `<id>.py` gets the code with
   * the first placeholder replaced by the token, and `python <id>.py` is
   * spawned and registered with the current time.
   */
  method LaunchScript(h: Host, bot: Bot, nowMs: int)
    requires h.Valid()
    modifies h
    ensures h.Valid()
    ensures h.files == old(h.files)[ScriptFile(bot.id) := ReplaceFirst(bot.code, TemplatePlaceholder, bot.token)]
    ensures h.launches == old(h.launches) + [Launch(bot.id, ScriptCommand(bot.id), TsHandlers)]
    ensures h.processes == old(h.processes)[bot.id := |old(h.launches)|] && h.startTimes == old(h.startTimes)[bot.id := nowMs]
    ensures h.store == old(h.store) && h.signalled == old(h.signalled)
  {
    var botCode := ReplaceFirst(bot.code, TemplatePlaceholder, bot.token);
    h.files := h.files[ScriptFile(bot.id) := botCode];
    var handle := h.Spawn(Launch(bot.id, ScriptCommand(bot.id), TsHandlers), nowMs);
  }

  /** Registering an id after its entry may have been dropped gives the same map as registering it directly. */
  lemma RegisterAfterForget<V>(m: map<string, V>, m': map<string, V>, id: string, v: V)
    requires m' == m || m' == m - {id}
    ensures m'[id := v] == m[id := v]
  {
  }

  /**
   * The `close` callback of a launched bot: both registry entries of its
   * bot go, whichever process they name by then, and the freshly loaded
   * list is saved with the bot stopped if it was stored as running.
   */
  method OnClose(h: Host, handle: Handle)
    requires h.Valid() && handle < |h.launches| && h.launches[handle].handlers.TsHandlers?
    modifies h
    ensures h.Valid()
    ensures var id := old(h.launches[handle].botId);
      && h.processes == old(h.processes) - {id} && h.startTimes == old(h.startTimes) - {id}
      && h.store == MarkStopped(old(h.store), id)
    ensures h.launches == old(h.launches) && h.signalled == old(h.signalled) && h.files == old(h.files)
  {
    var id := h.launches[handle].botId;
    h.Forget(id);
    var bots := h.store;
    var found := FindIndex(bots, id);
    if found.Some? && bots[found.value].running {
      bots := bots[found.value := bots[found.value].(running := false)];
      h.store := bots;
    }
  }

  // ---------------------------------------------------------------- stop

  /** The sentinel file that asks bot `id` to stop: `<id>.stop`. */
  function StopFile(id: string): string {
    id + ".stop"
  }

  /** The answer of `POST /bots/:id/stop`. */
  function StopReply(store: seq<Bot>, id: string, user: string): Reply {
    if FindOwned(store, id, user).None? then Refused(BotNotFound) else Succeeded(StopSignalSent)
  }

  /**
   * `POST /bots/:id/stop`: for the owner's bot, whatever its state, the
   * sentinel file `<id>.stop` is written and the bot saved as stopped; no
   * process is signalled and the registry keeps its entries.
   */
  method Stop(h: Host, id: string, user: string) returns (reply: Reply)
    requires h.Valid()
    modifies h
    ensures h.Valid()
    ensures reply == StopReply(old(h.store), id, user)
    ensures reply.Refused? ==> h.store == old(h.store) && h.files == old(h.files)
    ensures reply.Succeeded? ==>
      && h.store == Halted(old(h.store), FindOwned(old(h.store), id, user).value)
      && h.files == old(h.files)[StopFile(id) := "stop"]
    ensures h.processes == old(h.processes) && h.startTimes == old(h.startTimes)
    ensures h.launches == old(h.launches) && h.signalled == old(h.signalled)
  {
    var bots := h.store;
    var found := FindOwned(bots, id, user);
    if found.None? {
      return Refused(BotNotFound);
    }
    var i := found.value;
    h.files := h.files[StopFile(bots[i].id) := "stop"];
    bots := bots[i := bots[i].(running := false)];
    h.store := bots;
    reply := Succeeded(StopSignalSent);
  }

  /**
   * A sentinel stop leaves the process registered: while that process is
   * alive, running the bot again spawns nothing and answers "Bot is already
   * running"; only once it is dead does a run launch a new process.
   */
  lemma RunAfterStopFindsRegisteredProcess(store: seq<Bot>, processes: map<string, Handle>, alive: Handle -> bool,
                                           id: string, user: string)
    requires StopReply(store, id, user).Succeeded?
    ensures var stopped := Halted(store, FindOwned(store, id, user).value);
      RunReply(stopped, processes, alive, id, user) ==
        if Probe(processes, alive, id) then Succeeded(StillRunning) else Succeeded(NoMessage)
  {
    var i := FindOwned(store, id, user).value;
    SameOwnersSameIndex(Halted(store, i), store, id, user);
  }

  /** After a successful run, the bot is stored as running and a stop of it is accepted. */
  lemma StopAfterRunAccepted(store: seq<Bot>, processes: map<string, Handle>, alive: Handle -> bool,
                             id: string, user: string, nowIso: string)
    requires RunReply(store, processes, alive, id, user).Succeeded?
    ensures var i := FindOwned(store, id, user).value;
      && FindOwned(Launched(store, i, nowIso), id, user) == Some(i)
      && StopReply(Launched(store, i, nowIso), id, user) == Succeeded(StopSignalSent)
      && RunReply(Launched(store, i, nowIso), processes, alive, id, user) == Refused(AlreadyRunning)
  {
    var i := FindOwned(store, id, user).value;
    SameOwnersSameIndex(Launched(store, i, nowIso), store, id, user);
  }

  // ---------------------------------------------------------------- disableBotCodeFile

  /** The prefix that disables a line. */
  const DisabledPrefix := "// DISABLED: "

  /** How many leading lines are disabled. */
  const DisabledLineCount := 5

  /** A line already commented out: it starts with `#` or `//`. */
  predicate IsCommentLine(line: string) {
    StartsWith(line, "#") || StartsWith(line, "//")
  }

  /** One of the leading lines after disabling: a comment line stays, any other gets the prefix. */
  function DisabledLine(line: string): string {
    if IsCommentLine(line) then line else DisabledPrefix + line
  }

  /** The lines after disabling: the first five (or all, if fewer) disabled, the rest as they were. */
  function Disabled(lines: seq<string>): seq<string> {
    seq(|lines|, k requires 0 <= k < |lines| => if k < DisabledLineCount then DisabledLine(lines[k]) else lines[k])
  }

  /** The loop of `disableBotCodeFile` over the split lines, in place. */
  method DisableLines(lines: array<string>)
    modifies lines
    ensures lines[..] == Disabled(old(lines[..]))
  {
    var toComment := if DisabledLineCount < lines.Length then DisabledLineCount else lines.Length;
    for i := 0 to toComment
      invariant forall k | 0 <= k < i :: lines[k] == DisabledLine(old(lines[k]))
      invariant forall k | i <= k < lines.Length :: lines[k] == old(lines[k])
    {
      if !StartsWith(lines[i], "#") && !StartsWith(lines[i], "//") {
        lines[i] := DisabledPrefix + lines[i];
      }
    }
  }

  /**
   * Disabling keeps the number of lines and every line from the sixth on;
   * among the first five, comment lines stay and every other line gets the
   * prefix in front of its text.
   */
  lemma DisabledSpec(lines: seq<string>)
    ensures |Disabled(lines)| == |lines|
    ensures forall k | DisabledLineCount <= k < |lines| :: Disabled(lines)[k] == lines[k]
    ensures forall k | 0 <= k < |lines| && IsCommentLine(lines[k]) :: Disabled(lines)[k] == lines[k]
    ensures forall k | 0 <= k < |lines| && k < DisabledLineCount && !IsCommentLine(lines[k]) ::
      Disabled(lines)[k] == DisabledPrefix + lines[k]
  {
  }

  /** A disabled line is a comment line, so disabling twice is disabling once. */
  lemma {:induction false} DisabledIdempotent(lines: seq<string>)
    ensures Disabled(Disabled(lines)) == Disabled(lines)
  {
    forall k | 0 <= k < |lines| && k < DisabledLineCount
      ensures IsCommentLine(Disabled(lines)[k])
    {
      if !IsCommentLine(lines[k]) {
        assert (DisabledPrefix + lines[k])[..2] == "//";
      }
    }
  }

  /** The contents of a code file after `disableBotCodeFile`. */
  function DisabledText(text: string): string {
    Join(Disabled(Split(text, '\n')), '\n')
  }

  /** The prefix holds no line break, so disabling adds none. */
  lemma DisabledLinesFree(lines: seq<string>)
    requires forall k | 0 <= k < |lines| :: '\n' !in lines[k]
    ensures forall k | 0 <= k < |Disabled(lines)| :: '\n' !in Disabled(lines)[k]
  {
    forall k | 0 <= k < |lines| && k < DisabledLineCount && !IsCommentLine(lines[k])
      ensures '\n' !in DisabledPrefix + lines[k]
    {
      assert '\n' !in DisabledPrefix;
    }
  }

  /**
   * On a whole file: the line count is kept, the file splits into the
   * disabled lines, and disabling the file twice is disabling it once.
   */
  lemma DisabledTextSpec(text: string)
    ensures Split(DisabledText(text), '\n') == Disabled(Split(text, '\n'))
    ensures Count(DisabledText(text), '\n') == Count(text, '\n')
    ensures DisabledText(DisabledText(text)) == DisabledText(text)
  {
    var lines := Split(text, '\n');
    SplitPiecesFree(text, '\n');
    DisabledLinesFree(lines);
    SplitJoin(Disabled(lines), '\n');
    SplitCount(text, '\n');
    SplitCount(DisabledText(text), '\n');
    DisabledIdempotent(lines);
  }

  /** `disableBotCodeFile(botFile)`: an existing file is rewritten with its leading lines disabled; a missing one is left alone. */
  method DisableBotCodeFile(h: Host, botFile: string)
    modifies h
    ensures botFile in old(h.files) ==> h.files == old(h.files)[botFile := DisabledText(old(h.files)[botFile])]
    ensures botFile !in old(h.files) ==> h.files == old(h.files)
    ensures h.store == old(h.store) && h.processes == old(h.processes) && h.startTimes == old(h.startTimes)
    ensures h.launches == old(h.launches) && h.signalled == old(h.signalled)
  {
    if botFile in h.files {
      var parts := Split(h.files[botFile], '\n');
      var lines := new string[|parts|](k requires 0 <= k < |parts| => parts[k]);
      assert lines[..] == parts;
      DisableLines(lines);
      h.files := h.files[botFile := Join(lines[..], '\n')];
    }
  }
}
