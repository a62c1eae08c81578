/**
 The hold-time bound is the best possible: for every setting there is a run in which a reservation stays pending
 exactly that long, built late or swept late.
 */
module HoldTime {
  import opened Sums
  import opened Domain
  import opened SeatTable
  import opened Database
  import opened Invariants
  import opened Protocol
  import opened SweepRuns

  /** The expiry time, the longest commit delay, the longest time between the starts of two sweeps, and the longest
      time one sweep takes. */
  datatype Settings = Settings(expireAfter: nat, delay: nat, interval: nat, duration: nat)

  function Bound(s: Settings): int { s.interval + s.duration + Longer(s.expireAfter, s.delay) }

  /** Two sweeps in a row, by clients `c` and `d`, on the schedule, and a state between their returns. */
  datatype Moment = Moment(c: nat, i: nat, j: nat, d: nat, i2: nat, j2: nat, n: nat)

  ghost predicate OnSchedule(s: Settings, tr: seq<World>, acts: seq<Action>, m: Moment) {
    && Run(tr, acts) && CommitsWithin(tr, acts, s.delay)
    && SweptInTime(tr, acts, m.c, s.expireAfter, s.duration, m.i, m.j)
        && SweptInTime(tr, acts, m.d, s.expireAfter, s.duration, m.i2, m.j2)
    && m.j <= m.n <= m.j2 < |tr| && m.i < |tr| && m.i2 < |tr|
    && tr[m.i2].sh.now <= tr[m.i].sh.now + s.interval
  }

  ghost predicate PendingFor(s: Settings, tr: seq<World>, acts: seq<Action>, m: Moment, r: Id, age: int) {
    && OnSchedule(s, tr, acts, m) && r in tr[m.n].sh.db.reservations
    && tr[m.n].sh.db.reservations[r].status == Pending
        && tr[m.n].sh.now - tr[m.n].sh.db.reservations[r].createdAt == age
  }

  /** In some run on the schedule a reservation is pending for this long. */
  ghost predicate CanLast(s: Settings, age: int) {
    exists tr, acts, m, r :: PendingFor(s, tr, acts, m, r, age)
  }

  lemma HeldWithin(s: Settings, age: int)
    requires CanLast(s, age)
    ensures age <= Bound(s)
  {
    hide Run, CommitsWithin, SweptInTime;
    var tr, acts, m, r :| PendingFor(s, tr, acts, m, r, age);
    HoldTimeBetweenSweeps(tr, acts, m.c, m.d, s.expireAfter, s.delay, s.interval, s.duration, m.i, m.j, m.i2, m.j2, m.n,
      r);
  }

  // ---------------------------------------------------------------- the tables of the run

  const CONCERT := EventRow("concert", "", "", 1, 1, 1, 0)
  const ASKED := Request("e", "ann", ["s"], "k")
  const BUILT := NewBooking("e", "ann", "k", ["s"], 7, 0)
  const EMPTY := Db(map[], map[], map[], {})
  const WITH_EVENT := Db(map["e" := CONCERT], map[], map[], {"e"})
  const STALLS: Table := map["s" := NewSeatRow("e", "1", 7)]
  const ON_SALE := Db(map["e" := CONCERT], STALLS, map[], {"e", "s"})

  function OnHold(): Db { Apply(ON_SALE, Create("r", BUILT)) }

  const LOADED := BUILT.(id := "r")

  function Freed(): Db { Apply(OnHold(), Cancel(LOADED.(status := Cancelled))) }

  lemma Tables()
    ensures Agrees(EMPTY, AddEvent("e", CONCERT)) && Apply(EMPTY, AddEvent("e", CONCERT)) == WITH_EVENT
    ensures Agrees(WITH_EVENT, AddSeats(STALLS)) && Apply(WITH_EVENT, AddSeats(STALLS)) == ON_SALE
    ensures Tally(SeatsOf(ON_SALE, "e"), ["s"]) == Ok(7)
  {
    assert ["s"][..0] == [];
    assert Tally(SeatsOf(ON_SALE, "e"), []) == Ok(0);
  }

  lemma HeldTables()
    ensures Execute(ON_SALE, Create("r", BUILT)).Ok?
    ensures OnHold().reservations == map["r" := RowOf(BUILT)]
    ensures Lists(["s"], RowOf(BUILT).seats) && LOADED == Load(OnHold(), "r", ["s"])
    ensures Execute(OnHold(), Cancel(LOADED.(status := Cancelled))).Ok?
  {
    ReserveEffect(ON_SALE.seats, ["s"], "r");
    CreatedTables(ON_SALE, "r", BUILT);
    assert Elements(["s"]) == {"s"};
  }

  /** What a sweep finds: the reservation, built at time 0, once it is older than the expiry time, and nothing before
      that or before it is committed. */
  lemma SweepFinds(cutoff: int)
    ensures ExpiredRows(ON_SALE, cutoff, [])
    ensures cutoff <= 0 ==> ExpiredRows(OnHold(), cutoff, [])
    ensures cutoff > 0 ==> ExpiredRows(OnHold(), cutoff, [LOADED])
  {
    HeldTables();
    if cutoff > 0 { assert [LOADED][0].id == "r"; }
  }

  // ---------------------------------------------------------------- the steps of the run

  function Scene(db: Db, now: int, clients: map<nat, Client>): World {
    World(Shared(db, map[], map[], {}, now, false), clients)
  }

  ghost predicate Leads(w: World, a: Action, next: World, delay: int) {
    Enabled(w, a) && Step(w, a) == next && CommitWithin(w, a, delay)
  }

  lemma AdminLeads(k: Commit, db: Db, next: Db, delay: int)
    requires (k.AddEvent? || k.AddSeats?) && Agrees(db, k) && Apply(db, k) == next
    ensures Leads(Scene(db, 0, map[]), Admin(k), Scene(next, 0, map[]), delay)
  {
    hide Agrees, Apply;
  }

  lemma WaitLeads(db: Db, now: int, cs: map<nat, Client>, d: nat, delay: int)
    ensures Leads(Scene(db, now, cs), Advance(d), Scene(db, now + d, cs), delay)
  {
  }

  lemma BeginLeads(db: Db, now: int, cs: map<nat, Client>, c: nat, pc: Client, delay: int)
    requires c !in cs && Starting(pc)
    ensures Leads(Scene(db, now, cs), Begin(c, pc), Scene(db, now, cs[c := pc]), delay)
  {
  }

  /** A step of client `c`, the others being where they are. */
  lemma MoveLeads(db: Db, now: int, cs: map<nat, Client>, c: nat, pc: Client, ch: Choice, next: Db, pc': Client,
          delay: int)
    requires Possible(Scene(db, now, cs).sh, pc, ch)
    requires ClientStep(Scene(db, now, cs).sh, pc, ch) == Effect(Scene(next, now, cs).sh, pc')
    requires pc.CreateTx? ==> pc.b.createdAt >= now - delay
    ensures Leads(Scene(db, now, cs[c := pc]), Move(c, ch), Scene(next, now, cs[c := pc']), delay)
  {
    hide ClientStep, Possible, Execute;
    assert cs[c := pc][c := pc'] == cs[c := pc'];
  }

  function Building(): Client { CreateTx(ASKED, None, BUILT) }

  function Built(): Client { CreateInvalidate(ASKED, None, LOADED) }

  function Swept(n: nat): Client { Returned(Outcome.Swept(n)) }

  /** The buyer, up to the transaction, at time 0. */
  lemma BuyerLeads(delay: int)
    ensures var w := m => Scene(ON_SALE, 0, map[][1 := m]);
            && Leads(Scene(ON_SALE, 0, map[]), Begin(1, KeyCheck(ASKED)), w(KeyCheck(ASKED)), delay)
            && Leads(w(KeyCheck(ASKED)), Move(1, Go), w(EventCheck(ASKED, None)), delay)
            && Leads(w(EventCheck(ASKED, None)), Move(1, Go), w(SeatCheck(ASKED, None)), delay)
            && Leads(w(SeatCheck(ASKED, None)), Move(1, Go), w(Building()), delay)
  {
    Tables();
    hide Tally, Execute, Leads, SettleStep, ReadStep;
    BeginLeads(ON_SALE, 0, map[], 1, KeyCheck(ASKED), delay);
    MoveLeads(ON_SALE, 0, map[], 1, KeyCheck(ASKED), Go, ON_SALE, EventCheck(ASKED, None), delay);
    MoveLeads(ON_SALE, 0, map[], 1, EventCheck(ASKED, None), Go, ON_SALE, SeatCheck(ASKED, None), delay);
    MoveLeads(ON_SALE, 0, map[], 1, SeatCheck(ASKED, None), Go, ON_SALE, Building(), delay);
  }

  lemma CommitLeads(delay: int, now: int, others: map<nat, Client>)
    requires 0 <= now <= delay
    ensures Leads(Scene(ON_SALE, now, others[1 := Building()]), Move(1, Generated("r")),
                  Scene(OnHold(), now, others[1 := Built()]), delay)
  {
    HeldTables();
    hide Tally, Execute, Leads, SettleStep, ReadStep;
    MoveLeads(ON_SALE, now, others, 1, Building(), Generated("r"), OnHold(), Built(), delay);
  }

  lemma SweepBegins(s: Settings, db: Db, now: int, others: map<nat, Client>, c: nat, rows: seq<Booking>)
    requires c !in others && ExpiredRows(db, now - s.expireAfter, rows)
    ensures Leads(Scene(db, now, others), Begin(c, SweepCheck(s.expireAfter)),
                  Scene(db, now, others[c := SweepCheck(s.expireAfter)]), s.delay)
    ensures Leads(Scene(db, now, others[c := SweepCheck(s.expireAfter)]), Move(c, Rows(rows)),
                  Scene(db, now, others[c := SweepTx(rows, 0)]), s.delay)
  {
    hide ExpiredRows, Execute, Leads, CreateStep, ReadStep;
    BeginLeads(db, now, others, c, SweepCheck(s.expireAfter), s.delay);
    MoveLeads(db, now, others, c, SweepCheck(s.expireAfter), Rows(rows), db, SweepTx(rows, 0), s.delay);
  }

  lemma SweepEnds(delay: int, db: Db, now: int, others: map<nat, Client>, c: nat, n: nat)
    ensures Leads(Scene(db, now, others[c := SweepTx([], n)]), Move(c, Go), Scene(db, now, others[c := Swept(n)]),
              delay)
  {
    hide Execute, Leads, CreateStep, ReadStep;
    MoveLeads(db, now, others, c, SweepTx([], n), Go, db, Swept(n), delay);
  }

  lemma ItemLeads(delay: int, now: int, others: map<nat, Client>, c: nat)
    ensures Leads(Scene(OnHold(), now, others[c := SweepTx([LOADED], 0)]), Move(c, Go),
                  Scene(Freed(), now, others[c := SweepTx([], 1)]), delay)
  {
    HeldTables();
    hide Execute, Leads, CreateStep, ReadStep;
    assert [LOADED][1..] == [];
    MoveLeads(OnHold(), now, others, c, SweepTx([LOADED], 0), Go, Freed(), SweepTx([], 1), delay);
  }

  // ---------------------------------------------------------------- the run

  ghost predicate Chain(ws: seq<World>, acts: seq<Action>, delay: int) {
    |ws| == |acts| + 1 && forall k :: 0 <= k < |acts| ==> Leads(ws[k], acts[k], ws[k + 1], delay)
  }

  lemma Joined(ws: seq<World>, acts: seq<Action>, ws': seq<World>, acts': seq<Action>, delay: int)
    requires Chain(ws, acts, delay) && Chain(ws', acts', delay) && ws[|acts|] == ws'[0]
    ensures Chain(ws + ws'[1..], acts + acts', delay)
    ensures forall k :: 0 <= k <= |acts'| ==> (ws + ws'[1..])[|acts| + k] == ws'[k]
    ensures forall k :: 0 <= k <= |acts| ==> (ws + ws'[1..])[k] == ws[k]
  {
    hide Leads;
    var all, more := ws + ws'[1..], acts + acts';
    forall k | 0 <= k < |more| ensures Leads(all[k], more[k], all[k + 1], delay) {
      if k >= |acts| { assert all[k] == ws'[k - |acts|] && all[k + 1] == ws'[k - |acts| + 1]; }
    }
  }

  function With(m: Client): map<nat, Client> { map[][1 := m] }

  /** Everything up to the transaction of the Create, at time 0. */
  function Opening(): seq<World> {
    [Scene(EMPTY, 0, map[]), Scene(WITH_EVENT, 0, map[]), Scene(ON_SALE, 0, map[]),
     Scene(ON_SALE, 0, With(KeyCheck(ASKED))), Scene(ON_SALE, 0, With(EventCheck(ASKED, None))),
     Scene(ON_SALE, 0, With(SeatCheck(ASKED, None))), Scene(ON_SALE, 0, With(Building()))]
  }

  function OpeningActs(): seq<Action> {
    [Admin(AddEvent("e", CONCERT)), Admin(AddSeats(STALLS)), Begin(1, KeyCheck(ASKED)), Move(1, Go), Move(1, Go),
      Move(1, Go)]
  }

  lemma OpeningChain(delay: int)
    ensures Chain(Opening(), OpeningActs(), delay)
  {
    Tables();
    hide Leads, Scene, Tally;
    AdminLeads(AddEvent("e", CONCERT), EMPTY, WITH_EVENT, delay);
    AdminLeads(AddSeats(STALLS), WITH_EVENT, ON_SALE, delay);
    BuyerLeads(delay);
  }

  /** Built late: the transaction waits until the first sweep, at time `delay`, has read. */
  function Late(s: Settings): seq<World> {
    [Scene(ON_SALE, 0, With(Building())), Scene(ON_SALE, s.delay, With(Building())),
     Scene(ON_SALE, s.delay, With(Building())[2 := SweepCheck(s.expireAfter)]),
     Scene(ON_SALE, s.delay, With(Building())[2 := SweepTx([], 0)]),
     Scene(OnHold(), s.delay, With(Built())[2 := SweepTx([], 0)]),
       Scene(OnHold(), s.delay, With(Built())[2 := Swept(0)])]
  }

  function LateActs(s: Settings): seq<Action> {
    [Advance(s.delay), Begin(2, SweepCheck(s.expireAfter)), Move(2, Rows([])), Move(1, Generated("r")), Move(2, Go)]
  }

  lemma LateChain(s: Settings)
    ensures Chain(Late(s), LateActs(s), s.delay)
  {
    SweepFinds(s.delay - s.expireAfter);
    hide Leads, ExpiredRows, Scene;
    WaitLeads(ON_SALE, 0, With(Building()), s.delay, s.delay);
    SweepBegins(s, ON_SALE, s.delay, With(Building()), 2, []);
    CommitLeads(s.delay, s.delay, map[2 := SweepTx([], 0)]);
    assert With(Building())[2 := SweepTx([], 0)] == map[2 := SweepTx([], 0)][1 := Building()];
    assert With(Built())[2 := SweepTx([], 0)] == map[2 := SweepTx([], 0)][1 := Built()];
    SweepEnds(s.delay, OnHold(), s.delay, With(Built()), 2, 0);
  }

  /** Swept late: committed at once, and not yet expired at the first sweep, at the expiry time. */
  function Early(s: Settings): seq<World> {
    [Scene(ON_SALE, 0, With(Building())), Scene(OnHold(), 0, With(Built())),
      Scene(OnHold(), s.expireAfter, With(Built())),
     Scene(OnHold(), s.expireAfter, With(Built())[2 := SweepCheck(s.expireAfter)]),
     Scene(OnHold(), s.expireAfter, With(Built())[2 := SweepTx([], 0)]),
     Scene(OnHold(), s.expireAfter, With(Built())[2 := Swept(0)])]
  }

  function EarlyActs(s: Settings): seq<Action> {
    [Move(1, Generated("r")), Advance(s.expireAfter), Begin(2, SweepCheck(s.expireAfter)), Move(2, Rows([])),
      Move(2, Go)]
  }

  lemma EarlyChain(s: Settings)
    ensures Chain(Early(s), EarlyActs(s), s.delay)
  {
    SweepFinds(0);
    hide Leads, ExpiredRows, Scene;
    CommitLeads(s.delay, 0, map[]);
    WaitLeads(OnHold(), 0, With(Built()), s.expireAfter, s.delay);
    SweepBegins(s, OnHold(), s.expireAfter, With(Built()), 2, []);
    SweepEnds(s.delay, OnHold(), s.expireAfter, With(Built()), 2, 0);
  }

  function Rest(m: Client): map<nat, Client> { With(Built())[2 := Swept(0)][3 := m] }

  /** One interval later the second sweep reads the reservation, and takes its time to cancel it. */
  function Closing(s: Settings, now: int): seq<World> {
    var t := now + s.interval;
    [Scene(OnHold(), now, With(Built())[2 := Swept(0)]), Scene(OnHold(), t, With(Built())[2 := Swept(0)]),
     Scene(OnHold(), t, Rest(SweepCheck(s.expireAfter))), Scene(OnHold(), t, Rest(SweepTx([LOADED], 0))),
     Scene(OnHold(), t + s.duration, Rest(SweepTx([LOADED], 0))), Scene(Freed(), t + s.duration, Rest(SweepTx([], 1))),
     Scene(Freed(), t + s.duration, Rest(Swept(1)))]
  }

  function ClosingActs(s: Settings): seq<Action> {
    [Advance(s.interval), Begin(3, SweepCheck(s.expireAfter)), Move(3, Rows([LOADED])), Advance(s.duration),
      Move(3, Go),
     Move(3, Go)]
  }

  lemma ClosingChain(s: Settings, now: int)
    requires now + s.interval > s.expireAfter
    ensures Chain(Closing(s, now), ClosingActs(s), s.delay)
  {
    SweepFinds(now + s.interval - s.expireAfter);
    hide Leads, ExpiredRows, Scene;
    var t, before := now + s.interval, With(Built())[2 := Swept(0)];
    WaitLeads(OnHold(), now, before, s.interval, s.delay);
    SweepBegins(s, OnHold(), t, before, 3, [LOADED]);
    WaitLeads(OnHold(), t, Rest(SweepTx([LOADED], 0)), s.duration, s.delay);
    ItemLeads(s.delay, t + s.duration, before, 3);
    SweepEnds(s.delay, Freed(), t + s.duration, before, 3, 1);
  }

  lemma ChainRuns(ws: seq<World>, acts: seq<Action>, delay: int)
    requires Chain(ws, acts, delay) && Initial(ws[0])
    ensures Run(ws, acts) && CommitsWithin(ws, acts, delay)
  {
    hide Enabled, Step, CommitWithin, Initial;
    forall k | 0 <= k < |acts|
      ensures Enabled(ws[k], acts[k]) && ws[k + 1] == Step(ws[k], acts[k]) && CommitWithin(ws[k], acts[k], delay)
    {
      assert Leads(ws[k], acts[k], ws[k + 1], delay);
    }
  }

  /** From the last state of the opening through the first sweep: worlds, actions, when the sweep begins, and its
      time. */
  datatype Middle = Middle(ws: seq<World>, acts: seq<Action>, start: nat, time: int)

  function MiddleOf(s: Settings): Middle {
    if s.delay > s.expireAfter then Middle(Late(s), LateActs(s), 2, s.delay)
    else Middle(Early(s), EarlyActs(s), 3, s.expireAfter)
  }

  /** The bound is attained. */
  lemma BoundAttained(s: Settings)
    requires s.interval > 0
    ensures CanLast(s, Bound(s))
  {
    var mid := MiddleOf(s);
    OpeningChain(s.delay);
    if s.delay > s.expireAfter { LateChain(s); } else { EarlyChain(s); }
    ClosingChain(s, mid.time);
    HeldTables();
    hide Leads, Chain, Scene, OnHold, Freed;
    WholeRun(s, mid);
  }

  /** The parts of the run, by index. */
  ghost predicate Parts(s: Settings, mid: Middle, tr: seq<World>, acts: seq<Action>) {
    && |tr| == 18 && |acts| == 17 && |mid.ws| == 6 && |mid.acts| == 5
    && (forall k :: 0 <= k <= 5 ==> tr[6 + k] == mid.ws[k]) && (forall k :: 0 <= k < 5 ==> acts[6 + k] == mid.acts[k])
    && (forall k :: 0 <= k <= 6 ==> tr[11 + k] == Closing(s, mid.time)[k])
    && (forall k :: 0 <= k < 6 ==> acts[11 + k] == ClosingActs(s)[k])
  }

  lemma FirstSwept(s: Settings, mid: Middle, tr: seq<World>, acts: seq<Action>)
    requires mid == MiddleOf(s) && Parts(s, mid, tr, acts)
    ensures SweptInTime(tr, acts, 2, s.expireAfter, s.duration, 6 + mid.start, 11)
              && tr[6 + mid.start].sh.now == mid.time
  {
    hide OnHold, Freed;
    assert tr[6 + mid.start] == mid.ws[mid.start] && acts[6 + mid.start] == mid.acts[mid.start];
    assert tr[9] == mid.ws[3] && tr[10] == mid.ws[4] && tr[11] == mid.ws[5];
    assert acts[9] == mid.acts[3] && acts[10] == mid.acts[4];
  }

  lemma SecondSwept(s: Settings, mid: Middle, tr: seq<World>, acts: seq<Action>)
    requires Parts(s, mid, tr, acts)
    ensures SweptInTime(tr, acts, 3, s.expireAfter, s.duration, 13, 17) && tr[13].sh.now == mid.time + s.interval
    ensures tr[15].sh.now == mid.time + s.interval + s.duration && tr[15].sh.db == OnHold()
  {
    hide OnHold, Freed;
    var c, a := Closing(s, mid.time), ClosingActs(s);
    assert tr[11 + 2] == c[2] && tr[11 + 3] == c[3] && tr[11 + 4] == c[4] && tr[11 + 5] == c[5] && tr[11 + 6] == c[6];
    assert acts[11 + 2] == a[2] && acts[11 + 3] == a[3] && acts[11 + 4] == a[4] && acts[11 + 5] == a[5];
  }

  lemma WholeRun(s: Settings, mid: Middle)
    requires s.interval > 0 && mid == MiddleOf(s)
    requires Chain(Opening(), OpeningActs(), s.delay) && Chain(mid.ws, mid.acts, s.delay)
    requires Chain(Closing(s, mid.time), ClosingActs(s), s.delay)
    requires OnHold().reservations == map["r" := RowOf(BUILT)]
    ensures CanLast(s, Bound(s))
  {
    hide Chain, OnHold, Freed, CommitsWithin, Run, SweptInTime;
    var closing := Closing(s, mid.time);
    Joined(Opening(), OpeningActs(), mid.ws, mid.acts, s.delay);
    var ws, acts := Opening() + mid.ws[1..], OpeningActs() + mid.acts;
    Joined(ws, acts, closing, ClosingActs(s), s.delay);
    var tr, all := ws + closing[1..], acts + ClosingActs(s);
    ChainRuns(tr, all, s.delay);
    Indexed(s, mid, ws, acts, tr, all);
    FirstSwept(s, mid, tr, all);
    SecondSwept(s, mid, tr, all);
    assert PendingFor(s, tr, all, Moment(2, 6 + mid.start, 11, 3, 13, 17, 15), "r", Bound(s));
  }

  lemma Indexed(s: Settings, mid: Middle, ws: seq<World>, acts: seq<Action>, tr: seq<World>, all: seq<Action>)
    requires |mid.ws| == 6 && |mid.acts| == 5 && |ws| == 12 && acts == OpeningActs() + mid.acts
    requires all == acts + ClosingActs(s) && |tr| == 18
    requires forall k :: 0 <= k <= 5 ==> ws[6 + k] == mid.ws[k]
    requires forall k :: 0 <= k <= 11 ==> tr[k] == ws[k]
    requires forall k :: 0 <= k <= 6 ==> tr[11 + k] == Closing(s, mid.time)[k]
    ensures Parts(s, mid, tr, all)
  {
    hide Closing, ClosingActs;
    assert |OpeningActs()| == 6;
    assert |ClosingActs(s)| == 6 by { SixActs(s); }
  }

  lemma SixActs(s: Settings)
    ensures |ClosingActs(s)| == 6
  {
  }

  /** The bound on how long a reservation stays pending, as an exact figure: a number bounds it in all runs on the
      schedule if and only if it is at least interval, duration and the longer of expiry time and commit delay
      together.  So the expiry time alone stands in it exactly when commits come within the expiry time. */
  lemma HoldTimeExact(s: Settings, bound: int)
    requires s.interval > 0
    ensures (forall age :: CanLast(s, age) ==> age <= bound) <==> Bound(s) <= bound
    ensures (forall age :: CanLast(s, age) ==> age <= s.interval + s.duration + s.expireAfter) <==>
              s.delay <= s.expireAfter
  {
    hide CanLast;
    forall age | CanLast(s, age) ensures age <= Bound(s) { HeldWithin(s, age); }
    BoundAttained(s);
  }
}
