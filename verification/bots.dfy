/**
 * The persisted bot record (one element of `bots.json`) and the lookups the
 * handlers use on the list: `find`/`findIndex` by id, alone or together with
 * the owner, which return the FIRST matching record.
 */
module Bots {
  import opened Wrappers

  /**
   * The `userId` field as it may appear in the stored JSON: absent (or
   * `null`), a string, or some other JSON value.
   */
  datatype Owner = NoOwner | OwnerString(user: string) | OwnerOther

  /**
   * A stored bot. A missing `language` is the empty string (both are falsy
   * in JavaScript); `creatorIp` belongs to the variant that keys ownership by
   * address, `userId` to the one that keys it by account.
   */
  datatype Bot = Bot(
    id: string,
    name: string,
    token: string,
    code: string,
    running: bool,
    language: string,
    lastStarted: Option<string>,
    uptime: Option<int>,
    createdAt: string,
    updatedAt: string,
    creatorIp: string,
    userId: Owner)

  /** `bots.findIndex(b => b.id === id)`, as an option. */
  function FindIndex(store: seq<Bot>, id: string): (r: Option<nat>)
    ensures r.Some? ==> r.value < |store| && store[r.value].id == id
    ensures r.Some? ==> forall j | 0 <= j < r.value :: store[j].id != id
    ensures r.None? ==> forall j | 0 <= j < |store| :: store[j].id != id
  {
    if store == [] then None
    else if store[0].id == id then Some(0)
    else match FindIndex(store[1..], id)
      case Some(k) => Some(k + 1)
      case None => None
  }

  /** The bot is owned by the account `user`: `b.userId === user` for a string `user`. */
  predicate OwnedBy(b: Bot, user: string) {
    b.userId == OwnerString(user)
  }

  /** `bots.findIndex(b => b.id === id && b.userId === user)`, as an option. */
  function FindOwned(store: seq<Bot>, id: string, user: string): (r: Option<nat>)
    ensures r.Some? ==> r.value < |store| && store[r.value].id == id && OwnedBy(store[r.value], user)
    ensures r.Some? ==> forall j | 0 <= j < r.value :: !(store[j].id == id && OwnedBy(store[j], user))
    ensures r.None? ==> forall j | 0 <= j < |store| :: !(store[j].id == id && OwnedBy(store[j], user))
  {
    if store == [] then None
    else if store[0].id == id && OwnedBy(store[0], user) then Some(0)
    else match FindOwned(store[1..], id, user)
      case Some(k) => Some(k + 1)
      case None => None
  }

  /** `bots.filter(b => b.id !== id)`. */
  function WithoutId(store: seq<Bot>, id: string): (r: seq<Bot>)
    ensures |r| <= |store|
    ensures forall k | 0 <= k < |r| :: r[k].id != id && r[k] in store
  {
    if store == [] then []
    else if store[0].id == id then WithoutId(store[1..], id)
    else [store[0]] + WithoutId(store[1..], id)
  }

  /** No two stored bots share an id (ids are fresh v4 UUIDs when created). */
  predicate UniqueIds(store: seq<Bot>) {
    forall i, j | 0 <= i < j < |store| :: store[i].id != store[j].id
  }

  /** The bot at `i` with `running` set to `false`; the rest of the list as it was. */
  function Halted(store: seq<Bot>, i: nat): (r: seq<Bot>)
    requires i < |store|
    ensures |r| == |store| && !r[i].running
    ensures forall k | 0 <= k < |store| && k != i :: r[k] == store[k]
  {
    store[i := store[i].(running := false)]
  }

  /** Removing a bot by id keeps every bot with another id. */
  lemma {:induction false} WithoutIdKeepsOthers(store: seq<Bot>, id: string, b: Bot)
    requires b in store && b.id != id
    ensures b in WithoutId(store, id)
  {
    if store[0] != b {
      assert b in store[1..];
      WithoutIdKeepsOthers(store[1..], id, b);
    }
  }

  /** The filter keeps the order of the list: it works piece by piece. */
  lemma {:induction false} WithoutIdKeepsOrder(a: seq<Bot>, b: seq<Bot>, id: string)
    ensures WithoutId(a + b, id) == WithoutId(a, id) + WithoutId(b, id)
  {
    if a != [] {
      assert (a + b)[1..] == a[1..] + b;
      WithoutIdKeepsOrder(a[1..], b, id);
    } else {
      assert a + b == b;
    }
  }

  /** Every bot with another id is kept as often as it occurs; bots with `id` not at all. */
  lemma {:induction false} WithoutIdCounts(store: seq<Bot>, id: string, b: Bot)
    ensures multiset(WithoutId(store, id))[b] == if b.id == id then 0 else multiset(store)[b]
  {
    if store != [] {
      WithoutIdCounts(store[1..], id, b);
      assert store == [store[0]] + store[1..];
    }
  }

  /** Removing an id no bot has leaves the list as it was; removing one some bot has shortens it. */
  lemma {:induction false} WithoutIdChangesIffPresent(store: seq<Bot>, id: string)
    ensures (forall k | 0 <= k < |store| :: store[k].id != id) ==> WithoutId(store, id) == store
    ensures (exists k | 0 <= k < |store| :: store[k].id == id) ==> |WithoutId(store, id)| < |store|
  {
    if store != [] {
      WithoutIdChangesIffPresent(store[1..], id);
      if store[0].id != id {
        if exists k | 0 <= k < |store| :: store[k].id == id {
          var k :| 0 <= k < |store| && store[k].id == id;
          assert store[1..][k - 1].id == id;
        }
        assert store == [store[0]] + store[1..];
      }
    }
  }
}
