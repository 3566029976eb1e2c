/**
  Withdrawal-address whitelist: the change rows and their cooldown (src/vault/cooldowns.ts,
  src/vault/depositorStore.ts:100-104 and 311-349), as values and as a step relation over runs.
 */
module Whitelist {
  import opened Prelude
  import opened Ledger

  datatype ChangeStatus = Pending | Activated | Cancelled

  datatype Change = Change(user: User, oldAddress: Option<Address>, newAddress: Address,
                           requestedAt: int, activatesAt: int, status: ChangeStatus)

  /** One moment at which an address became a user's active one, by row `change`. */
  datatype Activation = Activation(user: User, address: Address, at: int, change: nat)

  /** `active` is vault_users.whitelist_address (absent = NULL); `history` is the log of what took effect. */
  datatype State = State(users: set<User>, active: map<User, Address>, changes: seq<Change>, history: seq<Activation>)

  const EMPTY := State({}, map[], [], [])

  // ----- operations

  function SetActive(s: State, id: nat, now: int): State
    requires id < |s.changes|
  {
    var c := s.changes[id];
    s.(active := s.active[c.user := c.newAddress],
       changes := s.changes[id := c.(status := Activated)],
       history := s.history + [Activation(c.user, c.newAddress, now, id)])
  }

  /** requestChange: the first address takes effect at once, later ones wait; None when the user does not exist. */
  function RequestChange(s: State, user: User, address: Address, now: int, cooldownMs: int): Option<State> {
    if user !in s.users then None
    else if user !in s.active then
      Some(s.(active := s.active[user := address],
              changes := s.changes + [Change(user, None, address, now, now, Activated)],
              history := s.history + [Activation(user, address, now, |s.changes|)]))
    else
      Some(s.(changes := s.changes + [Change(user, Some(s.active[user]), address, now, now + cooldownMs, Pending)]))
  }

  predicate Due(c: Change, now: int) {
    c.status.Pending? && c.activatesAt <= now
  }

  /** Place `id` after the rows that activate no later. */
  function InsertDue(cs: seq<Change>, ids: seq<nat>, id: nat): (out: seq<nat>)
    requires id < |cs| && forall k :: 0 <= k < |ids| ==> ids[k] < |cs|
    ensures forall k :: 0 <= k < |out| ==> out[k] < |cs|
  {
    if ids == [] then [id]
    else
      var last := ids[|ids| - 1];
      if cs[last].activatesAt <= cs[id].activatesAt then ids + [id]
      else InsertDue(cs, ids[..|ids| - 1], id) + [last]
  }

  /** listDueWhitelistChanges over the first n rows: due rows by activates_at, ties in id order. */
  function DueIds(cs: seq<Change>, now: int, n: nat): (ids: seq<nat>)
    requires n <= |cs|
    ensures forall k :: 0 <= k < |ids| ==> ids[k] < |cs|
  {
    if n == 0 then []
    else
      var before := DueIds(cs, now, n - 1);
      if Due(cs[n - 1], now) then InsertDue(cs, before, n - 1) else before
  }

  function ActivateIds(s: State, ids: seq<nat>, now: int): (r: State)
    requires forall k :: 0 <= k < |ids| ==> ids[k] < |s.changes|
    ensures |r.changes| == |s.changes|
    decreases |ids|
  {
    if ids == [] then s else
      var before := ActivateIds(s, ids[..|ids| - 1], now);
      SetActive(before, ids[|ids| - 1], now)
  }

  function ActivateDue(s: State, now: int): State {
    ActivateIds(s, DueIds(s.changes, now, |s.changes|), now)
  }

  /** mostRecentPendingChange: a pending row of the user that no other was requested after. */
  predicate MostRecentPending(cs: seq<Change>, user: User, id: nat) {
    && id < |cs| && cs[id].user == user && cs[id].status.Pending?
    && forall j :: 0 <= j < |cs| && cs[j].user == user && cs[j].status.Pending? ==>
       cs[j].requestedAt <= cs[id].requestedAt
  }

  function CancelRow(s: State, id: nat): State
    requires id < |s.changes|
  {
    s.(changes := s.changes[id := s.changes[id].(status := Cancelled)])
  }

  // ----- what the due list holds

  /** Due rows, each once, by activation time with ties in id order. */
  ghost predicate InOrder(cs: seq<Change>, a: nat, b: nat)
    requires a < |cs| && b < |cs|
  {
    cs[a].activatesAt < cs[b].activatesAt || (cs[a].activatesAt == cs[b].activatesAt && a < b)
  }

  ghost predicate Sorted(cs: seq<Change>, ids: seq<nat>)
    requires forall k :: 0 <= k < |ids| ==> ids[k] < |cs|
  {
    forall j, k :: 0 <= j < k < |ids| ==> InOrder(cs, ids[j], ids[k])
  }

  lemma {:induction false} InsertDueSorted(cs: seq<Change>, ids: seq<nat>, id: nat)
    requires id < |cs| && forall k :: 0 <= k < |ids| ==> ids[k] < id
    requires Sorted(cs, ids)
    ensures var out := InsertDue(cs, ids, id);
            && |out| == |ids| + 1
            && (forall x :: x in out <==> x == id || x in ids)
            && Sorted(cs, out)
  {
    if ids != [] {
      var n := |ids| - 1;
      var last := ids[n];
      assert ids == ids[..n] + [last];
      if cs[last].activatesAt <= cs[id].activatesAt {
        var out := ids + [id];
        forall j, k | 0 <= j < k < |out| ensures InOrder(cs, out[j], out[k]) {
          if k == |ids| && j < n {
            assert InOrder(cs, ids[j], last);
          }
        }
      } else {
        InsertDueSorted(cs, ids[..n], id);
        var front := InsertDue(cs, ids[..n], id);
        var out := front + [last];
        forall j, k | 0 <= j < k < |out| ensures InOrder(cs, out[j], out[k]) {
          if k == |front| {
            assert front[j] in front;
          }
        }
      }
    }
  }

  ghost predicate Lists(ids: seq<nat>, cs: seq<Change>, now: int, n: nat)
    requires n <= |cs|
  {
    forall x: nat :: x in ids <==> x < n && Due(cs[x], now)
  }

  lemma {:induction false} DueIdsExact(cs: seq<Change>, now: int, n: nat)
    requires n <= |cs|
    ensures Lists(DueIds(cs, now, n), cs, now, n) && Sorted(cs, DueIds(cs, now, n))
  {
    if n > 0 {
      DueIdsExact(cs, now, n - 1);
      var before := DueIds(cs, now, n - 1);
      if Due(cs[n - 1], now) {
        ListedBelow(before, cs, now, n - 1);
        InsertDueSorted(cs, before, n - 1);
        ListsMore(before, InsertDue(cs, before, n - 1), cs, now, n);
      }
    }
  }

  lemma ListedBelow(ids: seq<nat>, cs: seq<Change>, now: int, n: nat)
    requires n <= |cs| && Lists(ids, cs, now, n)
    ensures forall k :: 0 <= k < |ids| ==> ids[k] < n
  {
    assert forall k :: 0 <= k < |ids| ==> ids[k] in ids;
  }

  lemma ListsMore(before: seq<nat>, ids: seq<nat>, cs: seq<Change>, now: int, n: nat)
    requires 0 < n <= |cs| && Lists(before, cs, now, n - 1) && Due(cs[n - 1], now)
    requires forall x :: x in ids <==> x == n - 1 || x in before
    ensures Lists(ids, cs, now, n)
  {
  }

  // ----- what activateDue leaves behind

  lemma {:induction false} ActivateIdsRows(s: State, ids: seq<nat>, now: int)
    requires forall k :: 0 <= k < |ids| ==> ids[k] < |s.changes|
    ensures var r := ActivateIds(s, ids, now);
            && r.users == s.users && |r.changes| == |s.changes|
            && forall id :: 0 <= id < |s.changes| ==>
                 r.changes[id] == if id in ids then s.changes[id].(status := Activated) else s.changes[id]
    decreases |ids|
  {
    if ids != [] {
      var n := |ids| - 1;
      ActivateIdsRows(s, ids[..n], now);
      assert ids == ids[..n] + [ids[n]];
    }
  }

  function ActiveOf(s: State, user: User): Option<Address> {
    if user in s.active then Some(s.active[user]) else None
  }

  /** Position of the user's last row in `ids`, or -1. */
  function LastOf(cs: seq<Change>, ids: seq<nat>, user: User): (k: int)
    requires forall j :: 0 <= j < |ids| ==> ids[j] < |cs|
    ensures -1 <= k < |ids|
    ensures k >= 0 ==> cs[ids[k]].user == user
    ensures forall j :: k < j < |ids| ==> cs[ids[j]].user != user
  {
    if ids == [] then -1
    else if cs[ids[|ids| - 1]].user == user then |ids| - 1
    else LastOf(cs, ids[..|ids| - 1], user)
  }

  /** After applying rows in order, a user's active address is that of the user's last row, if it has one. */
  lemma {:induction false} ActivateIdsActive(s: State, ids: seq<nat>, now: int, user: User)
    requires forall k :: 0 <= k < |ids| ==> ids[k] < |s.changes|
    ensures var k := LastOf(s.changes, ids, user);
            ActiveOf(ActivateIds(s, ids, now), user) ==
              if k < 0 then ActiveOf(s, user) else Some(s.changes[ids[k]].newAddress)
    decreases |ids|
  {
    if ids != [] {
      var front := ids[..|ids| - 1];
      ActivateIdsActive(s, front, now, user);
      ActivateIdsRows(s, front, now);
    }
  }

  /** `id` is the due row of the user that activates last. */
  ghost predicate LatestDue(cs: seq<Change>, now: int, user: User, id: nat) {
    && id < |cs| && cs[id].user == user && Due(cs[id], now)
    && forall j :: 0 <= j < |cs| && j != id && cs[j].user == user && Due(cs[j], now) ==> InOrder(cs, j, id)
  }

  ghost predicate NoneDue(cs: seq<Change>, now: int, user: User) {
    forall id :: 0 <= id < |cs| && Due(cs[id], now) ==> cs[id].user != user
  }

  /** activateDue: every due row becomes activated, no other row changes, and no due row stays pending. */
  lemma {:induction false} ActivateDueRows(s: State, now: int)
    ensures var r := ActivateDue(s, now);
            && |r.changes| == |s.changes|
            && forall id :: 0 <= id < |s.changes| ==>
                  && r.changes[id] == (if Due(s.changes[id], now) then s.changes[id].(status := Activated)
                                       else s.changes[id])
                  && !Due(r.changes[id], now)
  {
    DueIdsExact(s.changes, now, |s.changes|);
    ActivateIdsRows(s, DueIds(s.changes, now, |s.changes|), now);
  }

  /** activateDue leaves a user who has due rows with the address of the latest-activating one. */
  lemma {:induction false} ActivateDueLeavesLatest(s: State, now: int, user: User, id: nat)
    requires LatestDue(s.changes, now, user, id)
    ensures ActiveOf(ActivateDue(s, now), user) == Some(s.changes[id].newAddress)
  {
    var ids := DueIds(s.changes, now, |s.changes|);
    DueIdsExact(s.changes, now, |s.changes|);
    ActivateIdsActive(s, ids, now, user);
    assert id in ids;
    var k0 :| 0 <= k0 < |ids| && ids[k0] == id;
    var k := LastOf(s.changes, ids, user);
    assert k0 <= k && ids[k] in ids;
    SortedFollows(s.changes, ids, k0, k);
    LatestFollows(s.changes, now, user, id, ids[k]);
  }

  lemma SortedFollows(cs: seq<Change>, ids: seq<nat>, a: nat, b: nat)
    requires a <= b < |ids| && (forall k :: 0 <= k < |ids| ==> ids[k] < |cs|) && Sorted(cs, ids)
    ensures a == b || InOrder(cs, ids[a], ids[b])
  {
  }

  lemma LatestFollows(cs: seq<Change>, now: int, user: User, id: nat, j: nat)
    requires LatestDue(cs, now, user, id) && j < |cs| && cs[j].user == user && Due(cs[j], now)
    ensures j == id || InOrder(cs, j, id)
  {
  }

  /** activateDue leaves a user who has no due row alone. */
  lemma {:induction false} ActivateDueLeavesOthers(s: State, now: int, user: User)
    requires NoneDue(s.changes, now, user)
    ensures ActiveOf(ActivateDue(s, now), user) == ActiveOf(s, user)
  {
    var ids := DueIds(s.changes, now, |s.changes|);
    DueIdsExact(s.changes, now, |s.changes|);
    ActivateIdsActive(s, ids, now, user);
    assert forall j :: 0 <= j < |ids| ==> ids[j] in ids;
  }

  // ----- runs

  datatype Move =
    | AddUser(user: User)
    | Request(user: User, address: Address, now: int)
    | Activate(now: int)
    | Cancel(user: User, id: nat)

  function Step(s: State, m: Move, cooldownMs: int): Option<State> {
    match m
    case AddUser(u) => Some(s.(users := s.users + {u}))
    case Request(u, address, now) => RequestChange(s, u, address, now, cooldownMs)
    case Activate(now) => Some(ActivateDue(s, now))
    case Cancel(u, id) => if MostRecentPending(s.changes, u, id) then Some(CancelRow(s, id)) else None
  }

  /** The address active for `user` after the logged activations. */
  function ActiveAt(history: seq<Activation>, user: User): Option<Address> {
    if history == [] then None
    else
      var h := history[|history| - 1];
      if h.user == user then Some(h.address) else ActiveAt(history[..|history| - 1], user)
  }

  ghost predicate First(history: seq<Activation>, k: nat)
    requires k < |history|
  {
    forall j :: 0 <= j < k ==> history[j].user != history[k].user
  }

  /** Entry k comes from an activated row of the same user and address, and took effect no sooner than allowed. */
  ghost predicate EntryOk(s: State, k: nat, cooldownMs: int)
    requires k < |s.history|
  {
    var h := s.history[k];
    && h.change < |s.changes|
    && s.changes[h.change].status.Activated?
    && s.changes[h.change].user == h.user && s.changes[h.change].newAddress == h.address
    && (First(s.history, k) || h.at >= s.changes[h.change].requestedAt + cooldownMs)
  }

  ghost predicate Inv(s: State, cooldownMs: int) {
    && (forall user: User :: ActiveOf(s, user) == ActiveAt(s.history, user))
    && (forall id :: 0 <= id < |s.changes| && s.changes[id].status.Pending? ==>
          s.changes[id].activatesAt == s.changes[id].requestedAt + cooldownMs && s.changes[id].user in s.active)
    && (forall k :: 0 <= k < |s.history| ==> EntryOk(s, k, cooldownMs))
    && (forall j, k :: 0 <= j < k < |s.history| ==> s.history[j].change != s.history[k].change)
  }

  /** Rows are never removed or rewritten: only a pending row moves on, and what took effect stays in the log. */
  ghost predicate Extends(s: State, r: State) {
    && |s.changes| <= |r.changes|
    && (forall id :: 0 <= id < |s.changes| ==>
          && r.changes[id] == s.changes[id].(status := r.changes[id].status)
          && (s.changes[id].status.Pending? || r.changes[id].status == s.changes[id].status))
    && |s.history| <= |r.history| && r.history[..|s.history|] == s.history
  }

  lemma {:induction false} LogActivation(history: seq<Activation>, h: Activation, user: User)
    ensures ActiveAt(history + [h], user) == if h.user == user then Some(h.address) else ActiveAt(history, user)
  {
  }

  lemma {:induction false} SetActiveKeepsInv(s: State, id: nat, now: int, cooldownMs: int)
    requires Inv(s, cooldownMs) && id < |s.changes| && Due(s.changes[id], now)
    ensures Inv(SetActive(s, id, now), cooldownMs)
  {
    var c := s.changes[id];
    var r := SetActive(s, id, now);
    forall user: User ensures ActiveOf(r, user) == ActiveAt(r.history, user) {
      LogActivation(s.history, r.history[|s.history|], user);
      assert ActiveOf(s, user) == ActiveAt(s.history, user);
    }
    forall k | 0 <= k < |r.history| ensures EntryOk(r, k, cooldownMs) {
      if k < |s.history| {
        assert EntryOk(s, k, cooldownMs);
        assert First(s.history, k) ==> First(r.history, k);
      }
    }
    forall k | 0 <= k < |s.history| ensures s.history[k].change != id {
      assert EntryOk(s, k, cooldownMs);
    }
  }

  lemma {:induction false} ActivateIdsKeepsInv(s: State, ids: seq<nat>, now: int, cooldownMs: int)
    requires Inv(s, cooldownMs)
    requires forall k :: 0 <= k < |ids| ==> ids[k] < |s.changes| && Due(s.changes[ids[k]], now)
    requires forall j, k :: 0 <= j < k < |ids| ==> ids[j] != ids[k]
    ensures Inv(ActivateIds(s, ids, now), cooldownMs)
    ensures |s.history| <= |ActivateIds(s, ids, now).history|
        && ActivateIds(s, ids, now).history[..|s.history|] == s.history
    decreases |ids|
  {
    if ids != [] {
      var n := |ids| - 1;
      ActivateIdsKeepsInv(s, ids[..n], now, cooldownMs);
      ActivateIdsRows(s, ids[..n], now);
      SetActiveKeepsInv(ActivateIds(s, ids[..n], now), ids[n], now, cooldownMs);
    }
  }

  lemma {:induction false} RequestKeepsInv(s: State, user: User, address: Address, now: int, cooldownMs: int)
    requires Inv(s, cooldownMs) && RequestChange(s, user, address, now, cooldownMs).Some?
    ensures var r := RequestChange(s, user, address, now, cooldownMs).value;
            Inv(r, cooldownMs) && Extends(s, r)
  {
    var r := RequestChange(s, user, address, now, cooldownMs).value;
    forall u: User ensures ActiveOf(r, u) == ActiveAt(r.history, u) {
      assert ActiveOf(s, u) == ActiveAt(s.history, u);
      if user !in s.active {
        LogActivation(s.history, r.history[|s.history|], u);
      }
    }
    EntriesStay(s, r, cooldownMs);
    if user !in s.active {
      NoEntry(s.history, user);
      assert ActiveOf(s, user) == ActiveAt(s.history, user);
      assert EntryOk(r, |s.history|, cooldownMs);
    }
  }

  /** Appending to rows and log leaves earlier entries as they were. */
  lemma {:induction false} EntriesStay(s: State, r: State, cooldownMs: int)
    requires forall k :: 0 <= k < |s.history| ==> EntryOk(s, k, cooldownMs)
    requires |s.changes| <= |r.changes| && r.changes[..|s.changes|] == s.changes
    requires |s.history| <= |r.history| && r.history[..|s.history|] == s.history
    ensures forall k :: 0 <= k < |s.history| ==> EntryOk(r, k, cooldownMs) && s.history[k].change < |s.changes|
  {
    assert forall k :: 0 <= k < |s.history| ==> r.history[k] == r.history[..|s.history|][k];
    assert forall id :: 0 <= id < |s.changes| ==> r.changes[id] == r.changes[..|s.changes|][id];
    forall k | 0 <= k < |s.history| ensures EntryOk(r, k, cooldownMs) && s.history[k].change < |s.changes| {
      assert EntryOk(s, k, cooldownMs);
      assert First(s.history, k) ==> First(r.history, k);
    }
  }

  lemma {:induction false} NoEntry(history: seq<Activation>, user: User)
    ensures ActiveAt(history, user).None? ==> forall k :: 0 <= k < |history| ==> history[k].user != user
  {
    if history != [] {
      NoEntry(history[..|history| - 1], user);
    }
  }

  lemma {:induction false} CancelKeepsInv(s: State, id: nat, cooldownMs: int)
    requires Inv(s, cooldownMs) && id < |s.changes| && s.changes[id].status.Pending?
    ensures Inv(CancelRow(s, id), cooldownMs) && Extends(s, CancelRow(s, id))
  {
    var r := CancelRow(s, id);
    forall k | 0 <= k < |r.history| ensures EntryOk(r, k, cooldownMs) {
      assert EntryOk(s, k, cooldownMs);
    }
    forall u: User ensures ActiveOf(r, u) == ActiveAt(r.history, u) {
      assert ActiveOf(s, u) == ActiveAt(s.history, u);
    }
  }

  lemma {:induction false} ActivateKeepsInv(s: State, now: int, cooldownMs: int)
    requires Inv(s, cooldownMs)
    ensures Inv(ActivateDue(s, now), cooldownMs) && Extends(s, ActivateDue(s, now))
  {
    var ids := DueIds(s.changes, now, |s.changes|);
    DueIdsExact(s.changes, now, |s.changes|);
    assert forall k :: 0 <= k < |ids| ==> ids[k] in ids;
    forall j, k | 0 <= j < k < |ids| ensures ids[j] != ids[k] {
      assert InOrder(s.changes, ids[j], ids[k]);
    }
    ActivateIdsKeepsInv(s, ids, now, cooldownMs);
    ActivateDueRows(s, now);
  }

  lemma StepKeepsInv(s: State, m: Move, cooldownMs: int)
    requires Inv(s, cooldownMs) && Step(s, m, cooldownMs).Some?
    ensures Inv(Step(s, m, cooldownMs).value, cooldownMs)
    ensures Extends(s, Step(s, m, cooldownMs).value)
  {
    match m
    case AddUser(u) =>
      var r := Step(s, m, cooldownMs).value;
      forall k | 0 <= k < |r.history| ensures EntryOk(r, k, cooldownMs) {
        assert EntryOk(s, k, cooldownMs);
      }
      forall user: User ensures ActiveOf(r, user) == ActiveAt(r.history, user) {
        assert ActiveOf(s, user) == ActiveAt(s.history, user);
      }
    case Request(u, address, now) => RequestKeepsInv(s, u, address, now, cooldownMs);
    case Activate(now) => ActivateKeepsInv(s, now, cooldownMs);
    case Cancel(u, id) => CancelKeepsInv(s, id, cooldownMs);
  }

  /** A run; a move that is not enabled (it throws or finds nothing) changes nothing. */
  function Run(s: State, moves: seq<Move>, cooldownMs: int): State {
    if moves == [] then s
    else
      var before := Run(s, moves[..|moves| - 1], cooldownMs);
      var next := Step(before, moves[|moves| - 1], cooldownMs);
      if next.Some? then next.value else before
  }

  /**
    In every run: every activation after a user's first took effect at least the cooldown after its request, by a row
    that was pending until then; and rows only ever move on from pending, so a cancelled row never activates.
   */
  lemma {:induction false} RunKeepsInv(s: State, moves: seq<Move>, cooldownMs: int)
    requires Inv(s, cooldownMs)
    ensures Inv(Run(s, moves, cooldownMs), cooldownMs) && Extends(s, Run(s, moves, cooldownMs))
  {
    if moves != [] {
      var before := Run(s, moves[..|moves| - 1], cooldownMs);
      RunKeepsInv(s, moves[..|moves| - 1], cooldownMs);
      if Step(before, moves[|moves| - 1], cooldownMs).Some? {
        StepKeepsInv(before, moves[|moves| - 1], cooldownMs);
        ExtendsTrans(s, before, Run(s, moves, cooldownMs));
      }
    }
  }

  lemma ExtendsTrans(a: State, b: State, c: State)
    requires Extends(a, b) && Extends(b, c)
    ensures Extends(a, c)
  {
  }

  /** The run from the empty vault, read back: cooldowns held, and cancelled rows never took effect. */
  lemma CooldownsHold(moves: seq<Move>, cooldownMs: int, k: nat)
    requires var s := Run(EMPTY, moves, cooldownMs); k < |s.history|
    ensures var s := Run(EMPTY, moves, cooldownMs);
            var h := s.history[k];
            && h.change < |s.changes|
            && s.changes[h.change].user == h.user && s.changes[h.change].newAddress == h.address
            && !s.changes[h.change].status.Cancelled?
            && (First(s.history, k) || h.at >= s.changes[h.change].requestedAt + cooldownMs)
  {
    RunKeepsInv(EMPTY, moves, cooldownMs);
    assert EntryOk(Run(EMPTY, moves, cooldownMs), k, cooldownMs);
  }

  // ----- one request, one cancellation

  /**
    A first address takes effect at once. A later one leaves the active address as it is, cannot be activated before
    the cooldown has passed, and from then on is due.
   */
  lemma {:induction false} RequestTakesEffect(s: State, user: User, address: Address, now: int, cooldownMs: int, t: int)
    requires RequestChange(s, user, address, now, cooldownMs).Some?
    ensures var r := RequestChange(s, user, address, now, cooldownMs).value;
            var id := |s.changes|;
            && |r.changes| == id + 1 && r.changes[..id] == s.changes
            && r.changes[id].user == user && r.changes[id].newAddress == address && r.changes[id].requestedAt == now
            && (ActiveOf(s, user).None? ==> ActiveOf(r, user) == Some(address) && !Due(r.changes[id], t))
            && (ActiveOf(s, user).Some? ==>
                  && ActiveOf(r, user) == ActiveOf(s, user)
                  && (Due(r.changes[id], t) <==> now + cooldownMs <= t))
            && forall other :: other != user ==> ActiveOf(r, other) == ActiveOf(s, other)
  {
  }

  /** A cancelled change stays cancelled and never takes effect, whatever happens afterwards. */
  lemma {:induction false} CancelledNeverTakesEffect(s: State, user: User, id: nat, moves: seq<Move>, cooldownMs: int)
    requires Inv(s, cooldownMs) && MostRecentPending(s.changes, user, id)
    ensures var r := Run(CancelRow(s, id), moves, cooldownMs);
            && id < |r.changes| && r.changes[id].status.Cancelled?
            && forall k :: 0 <= k < |r.history| ==> r.history[k].change != id
  {
    CancelKeepsInv(s, id, cooldownMs);
    RunKeepsInv(CancelRow(s, id), moves, cooldownMs);
    hide Run;
    var r := Run(CancelRow(s, id), moves, cooldownMs);
    forall k | 0 <= k < |r.history| ensures r.history[k].change != id {
      assert EntryOk(r, k, cooldownMs);
    }
  }
}
