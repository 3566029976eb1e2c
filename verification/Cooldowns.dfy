/** Whitelist changes in place (src/vault/cooldowns.ts:15-63), proved against the operations of `Whitelist`. */
module Cooldowns {
  import opened Prelude
  import opened Ledger
  import W = Whitelist

  class Cooldowns {
    const cooldownMs: int
    var users: set<User>
    var active: map<User, Address>
    var changes: seq<W.Change>
    ghost var history: seq<W.Activation>

    ghost function View(): W.State
      reads this
    {
      W.State(users, active, changes, history)
    }

    constructor (cooldownMs: int)
      ensures this.cooldownMs == cooldownMs && View() == W.EMPTY
    {
      this.cooldownMs := cooldownMs;
      users, active, changes := {}, map[], [];
      history := [];
    }

    /** First-set is immediate, later ones wait for the cooldown; None is the error for an unknown user. */
    method RequestChange(user: User, address: Address, now: int) returns (r: Option<(bool, int, nat)>)
      modifies this
      ensures r.Some? <==> W.RequestChange(old(View()), user, address, now, cooldownMs).Some?
      ensures View() == if r.Some? then W.RequestChange(old(View()), user, address, now, cooldownMs).value
          else old(View())
      ensures r.Some? ==>
                r.value == (user !in old(active), if user in old(active) then now + cooldownMs else now, old(|changes|))
    {
      if user !in users {
        return None;
      }
      var id := |changes|;
      if user !in active {
        changes := changes + [W.Change(user, None, address, now, now, W.Activated)];
        active := active[user := address];
        history := history + [W.Activation(user, address, now, id)];
        return Some((true, now, id));
      }
      var activatesAt := now + cooldownMs;
      changes := changes + [W.Change(user, Some(active[user]), address, now, activatesAt, W.Pending)];
      return Some((false, activatesAt, id));
    }

    /** listDueWhitelistChanges: pending rows that are due, by activation time. */
    method ListDue(now: int) returns (ids: seq<nat>)
      ensures ids == W.DueIds(changes, now, |changes|)
    {
      ids := [];
      for i := 0 to |changes|
        invariant ids == W.DueIds(changes, now, i)
      {
        if changes[i].status.Pending? && changes[i].activatesAt <= now {
          var j := |ids|;
          while j > 0 && changes[ids[j - 1]].activatesAt > changes[i].activatesAt
            invariant 0 <= j <= |ids|
            invariant forall k :: j <= k < |ids| ==> changes[ids[k]].activatesAt > changes[i].activatesAt
          {
            j := j - 1;
          }
          InsertAt(changes, ids, i, j);
          ids := ids[..j] + [i] + ids[j..];
        }
      }
    }

    method ActivateDue(now: int) returns (activated: seq<nat>)
      modifies this
      ensures View() == W.ActivateDue(old(View()), now)
      ensures activated == W.DueIds(old(changes), now, |old(changes)|)
    {
      ghost var start := View();
      var due := ListDue(now);
      activated := [];
      for i := 0 to |due|
        invariant activated == due[..i] && |changes| == |start.changes|
        invariant View() == W.ActivateIds(start, due[..i], now)
      {
        assert due[..i + 1][..i] == due[..i];
        var row := changes[due[i]];
        active := active[row.user := row.newAddress];
        changes := changes[due[i] := row.(status := W.Activated)];
        history := history + [W.Activation(row.user, row.newAddress, now, due[i])];
        activated := activated + [due[i]];
      }
      assert due[..|due|] == due;
    }

    /** Cancel the user's most recently requested pending change, if there is one. */
    method CancelPending(user: User) returns (cancelled: Option<nat>)
      modifies this
      ensures cancelled.None? <==> forall j :: 0 <= j < |old(changes)| ==>
                !(old(changes)[j].user == user && old(changes)[j].status.Pending?)
      ensures cancelled.None? ==> View() == old(View())
      ensures cancelled.Some? ==> W.MostRecentPending(old(changes), user, cancelled.value)
                                  && View() == W.CancelRow(old(View()), cancelled.value)
    {
      cancelled := None;
      for i := 0 to |changes|
        invariant cancelled.None? <==> forall j :: 0 <= j < i ==>
            !(changes[j].user == user && changes[j].status.Pending?)
        invariant cancelled.Some? ==>
          && cancelled.value < i && changes[cancelled.value].user == user && changes[cancelled.value].status.Pending?
          && forall j :: 0 <= j < i && changes[j].user == user && changes[j].status.Pending? ==>
               changes[j].requestedAt <= changes[cancelled.value].requestedAt
      {
        if changes[i].user == user && changes[i].status.Pending? &&
           (cancelled.None? || changes[i].requestedAt > changes[cancelled.value].requestedAt) {
          cancelled := Some(i);
        }
      }
      if cancelled.Some? {
        changes := changes[cancelled.value := changes[cancelled.value].(status := W.Cancelled)];
      }
    }
  }

  /** Inserting before the rows that activate later is the insertion of the specification. */
  lemma {:induction false} InsertAt(cs: seq<W.Change>, ids: seq<nat>, id: nat, j: nat)
    requires id < |cs| && j <= |ids| && forall k :: 0 <= k < |ids| ==> ids[k] < |cs|
    requires forall k :: j <= k < |ids| ==> cs[ids[k]].activatesAt > cs[id].activatesAt
    requires j > 0 ==> cs[ids[j - 1]].activatesAt <= cs[id].activatesAt
    ensures W.InsertDue(cs, ids, id) == ids[..j] + [id] + ids[j..]
  {
    if j < |ids| {
      var n := |ids| - 1;
      InsertAt(cs, ids[..n], id, j);
      assert ids[..n][..j] == ids[..j];
      assert ids[..n][j..] + [ids[n]] == ids[j..];
    } else {
      assert ids[..j] == ids;
    }
  }
}
