/**
 Concurrent event updates.  The version compare-and-set makes every committed update follow
 directly from the row it read, and the version an exact count of committed updates.
 */
module EventUpdates {
  import opened Domain
  import opened Database
  import opened Invariants
  import opened Protocol
  import Safety

  predicate Updates(w: World, a: Action, id: Id) {
    && CommitOf(w, a).Some? && CommitOf(w, a).value.ChangeEvent? && CommitOf(w, a).value.id == id
    && Execute(w.sh.db, CommitOf(w, a).value).Ok?
  }

  /** How many updates of event `id` committed between states `i` and `j`. */
  ghost function UpdateCount(tr: seq<World>, acts: seq<Action>, id: Id, i: nat, j: nat): nat
    requires |tr| == |acts| + 1 && i <= j < |tr|
    decreases j
  {
    if i == j then 0 else UpdateCount(tr, acts, id, i, j - 1) + if Updates(tr[j - 1], acts[j - 1], id) then 1 else 0
  }

  lemma EventCommit(db: Db, k: Commit, id: Id)
    requires Agrees(db, k) && id in db.events && id in Apply(db, k).events && id in db.issued
    ensures k.ChangeEvent? && k.id == id && Execute(db, k).Ok? ==>
              Apply(db, k).events[id].version == db.events[id].version + 1 && k.row.version == db.events[id].version
    ensures !(k.ChangeEvent? && k.id == id && Execute(db, k).Ok?) ==> Apply(db, k).events[id] == db.events[id]
  {
    hide CreateAgrees, SnapshotAgrees, KeyTaken, NumbersUnique;
  }

  lemma EventStep(w: World, a: Action, id: Id)
    requires Sound(w) && Enabled(w, a) && id in w.sh.db.events && id in Step(w, a).sh.db.events
    ensures Step(w, a).sh.db.events[id].version == w.sh.db.events[id].version + if Updates(w, a, id) then 1 else 0
    ensures !Updates(w, a, id) ==> Step(w, a).sh.db.events[id] == w.sh.db.events[id]
  {
    hide Step, Enabled, Agrees, Execute;
    Safety.StepDb(w, a);
    if CommitOf(w, a).Some? {
      Safety.CommitAgrees(w, a);
      EventCommit(w.sh.db, CommitOf(w, a).value, id);
    }
  }

  /** The version counts committed updates, and an event with an unchanged version is unchanged. */
  lemma {:induction false} VersionCountsUpdates(tr: seq<World>, acts: seq<Action>, id: Id, i: nat, j: nat)
    requires Run(tr, acts) && i <= j < |tr| && id in tr[i].sh.db.events && id in tr[j].sh.db.events
    ensures tr[j].sh.db.events[id].version == tr[i].sh.db.events[id].version + UpdateCount(tr, acts, id, i, j)
    ensures UpdateCount(tr, acts, id, i, j) == 0 ==> tr[j].sh.db.events[id] == tr[i].sh.db.events[id]
    decreases j
  {
    hide Step, Enabled, Sound, Updates;
    if i < j {
      Safety.RunSound(tr, acts, j - 1);
      Safety.StepSound(tr[j - 1], acts[j - 1]);
      StillIssued(tr, acts, id, i, j - 1);
      VersionCountsUpdates(tr, acts, id, i, j - 1);
      EventStep(tr[j - 1], acts[j - 1], id);
    }
  }

  lemma {:induction false} StillIssued(tr: seq<World>, acts: seq<Action>, id: Id, i: nat, j: nat)
    requires Run(tr, acts) && i <= j < |tr| && id in tr[i].sh.db.events
    ensures id in tr[j].sh.db.issued
    decreases j
  {
    hide Step, Enabled, ClientOk;
    Safety.RunSound(tr, acts, i);
    if i < j {
      StillIssued(tr, acts, id, i, j - 1);
      Safety.RunSound(tr, acts, j - 1);
      Safety.StepSound(tr[j - 1], acts[j - 1]);
    }
  }

  /** At step `j` client `c`, asked to store the columns of `row`, read event `id` with the version it later sends
      back. */
  ghost predicate EventWasRead(tr: seq<World>, j: nat, c: nat, id: Id, row: EventRow) {
    && j < |tr| && c in tr[j].clients && tr[j].clients[c].EventRead? && tr[j].clients[c].id == id
    && id in tr[j].sh.db.events && tr[j].sh.db.events[id].version == row.version
    && row == tr[j].clients[c].fields.(version := row.version)
  }

  lemma EventTxStep(w: World, a: Action, c: nat)
    requires Enabled(w, a) && c in Step(w, a).clients && Step(w, a).clients[c].EventTx?
    ensures c in w.clients
    ensures var pc := Step(w, a).clients[c];
            || pc == w.clients[c]
            || (w.clients[c].EventRead? && w.clients[c].id == pc.id && pc.id in w.sh.db.events
                && w.sh.db.events[pc.id].version == pc.row.version
                && pc.row == w.clients[c].fields.(version := pc.row.version)
                && pc.row.name != "" && pc.row.totalSeats > 0 && pc.row.startAt <= pc.row.endAt)
  {
    hide Execute, Tally, RedisLockKey, Possible, Agrees, Load, CountAvailable;
  }

  lemma {:induction false} EventTxRead(tr: seq<World>, acts: seq<Action>, i: nat, c: nat)
    requires Run(tr, acts) && i < |tr| && c in tr[i].clients && tr[i].clients[c].EventTx?
    ensures exists j: nat :: j < i && EventWasRead(tr, j, c, tr[i].clients[c].id, tr[i].clients[c].row)
    ensures var row := tr[i].clients[c].row; row.name != "" && row.totalSeats > 0 && row.startAt <= row.endAt
  {
    hide Step, Enabled;
    if i > 0 {
      EventTxStep(tr[i - 1], acts[i - 1], c);
      if tr[i - 1].clients[c] == tr[i].clients[c] {
        EventTxRead(tr, acts, i - 1, c);
      } else {
        assert EventWasRead(tr, i - 1, c, tr[i].clients[c].id, tr[i].clients[c].row);
      }
    }
  }

  lemma CommittedUpdate(w: World, a: Action, id: Id)
    requires Enabled(w, a) && Updates(w, a, id)
    ensures a.Move? && a.c in w.clients && w.clients[a.c].EventTx? && w.clients[a.c].id == id
    ensures id in w.sh.db.events && w.clients[a.c].row.version == w.sh.db.events[id].version
    ensures var row := w.clients[a.c].row;
            Step(w, a).sh.db.events == w.sh.db.events[id := row.(version := row.version + 1)]
  {
    hide Agrees, Possible;
  }

  /** No lost update: the row a committed update replaces is the very row its client had read, with no other update of
      that event committed in between; what it stores is what that client asked for, valid, and one version on. */
  lemma NoLostUpdate(tr: seq<World>, acts: seq<Action>, i: nat, id: Id)
    requires Run(tr, acts) && i < |acts| && Updates(tr[i], acts[i], id)
    ensures acts[i].Move? && id in tr[i].sh.db.events && id in tr[i + 1].sh.db.events
    ensures var row, next := tr[i].sh.db.events[id], tr[i + 1].sh.db.events[id];
            && next.version == row.version + 1 && next.name != "" && next.totalSeats > 0 && next.startAt <= next.endAt
            && tr[i + 1].sh.db.events == tr[i].sh.db.events[id := next]
            && exists j: nat :: j < i && EventWasRead(tr, j, acts[i].c, id, next.(version := row.version))
                 && tr[j].sh.db.events[id] == row && UpdateCount(tr, acts, id, j, i) == 0
  {
    hide Step, Enabled, Updates;
    CommittedUpdate(tr[i], acts[i], id);
    EventTxRead(tr, acts, i, acts[i].c);
    var j: nat :| j < i && EventWasRead(tr, j, acts[i].c, id, tr[i].clients[acts[i].c].row);
    VersionCountsUpdates(tr, acts, id, j, i);
  }
}
