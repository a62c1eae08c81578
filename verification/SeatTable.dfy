/**
 The bulk seat updates.  Each is one UPDATE over `id = ANY(ids)`; reserving and confirming carry a
 status guard and compare the number of rows changed with the number of ids given.
 */
module SeatTable {
  import opened Sums
  import opened Domain

  type Table = map<Id, SeatRow>

  /** The rows a guarded UPDATE changes. */
  function Matching(seats: Table, ids: seq<Id>, from: SeatStatus): set<Id> {
    set s | s in seats && s in ids && seats[s].status == from
  }

  function ReservedRow(row: SeatRow, rid: Id): SeatRow {
    row.(status := Reserved, reservedBy := Some(rid), version := row.version + 1)
  }

  function ConfirmedRow(row: SeatRow): SeatRow {
    row.(status := SeatStatus.Confirmed, version := row.version + 1)
  }

  function ReleasedRow(row: SeatRow): SeatRow {
    row.(status := Available, reservedBy := None, version := row.version + 1)
  }

  function ReserveRows(seats: Table, ids: seq<Id>, rid: Id): Table {
    map s | s in seats :: if s in ids && seats[s].status == Available then ReservedRow(seats[s], rid) else seats[s]
  }

  function ConfirmRows(seats: Table, ids: seq<Id>): Table {
    map s | s in seats :: if s in ids && seats[s].status == Reserved then ConfirmedRow(seats[s]) else seats[s]
  }

  /** Release has no guard at all. */
  function ReleaseRows(seats: Table, ids: seq<Id>): Table {
    map s | s in seats :: if s in ids then ReleasedRow(seats[s]) else seats[s]
  }

  function ReserveSeats(seats: Table, ids: seq<Id>, rid: Id): Result<Table> {
    if |ids| == 0 then Ok(seats)
    else if |Matching(seats, ids, Available)| != |ids| then Err(SeatAlreadyReserved)
    else Ok(ReserveRows(seats, ids, rid))
  }

  function ConfirmSeats(seats: Table, ids: seq<Id>): Result<Table> {
    if |ids| == 0 then Ok(seats)
    else if |Matching(seats, ids, Reserved)| != |ids| then Err(SeatNotReserved)
    else Ok(ConfirmRows(seats, ids))
  }

  function ReleaseSeats(seats: Table, ids: seq<Id>): Table {
    if |ids| == 0 then seats else ReleaseRows(seats, ids)
  }

  /** Every id is a stored seat in status `from`, and no id is repeated. */
  ghost predicate AllIn(seats: Table, ids: seq<Id>, from: SeatStatus) {
    Distinct(ids) && forall s :: s in ids ==> s in seats && seats[s].status == from
  }

  /** The row count is full exactly for duplicate-free lists of stored seats in the guarded status. */
  lemma FullCount(seats: Table, ids: seq<Id>, from: SeatStatus)
    ensures |Matching(seats, ids, from)| <= |ids|
    ensures |Matching(seats, ids, from)| == |ids| <==> AllIn(seats, ids, from)
  {
    DistinctCount(ids);
    SameSizeSubset(Matching(seats, ids, from), Elements(ids));
    if AllIn(seats, ids, from) {
      assert Matching(seats, ids, from) == Elements(ids);
    }
    if Matching(seats, ids, from) == Elements(ids) {
      assert forall s :: s in ids ==> s in Elements(ids);
    }
  }

  /** What ReserveSeats accepts and what it leaves in every row. */
  lemma ReserveEffect(seats: Table, ids: seq<Id>, rid: Id)
    ensures ReserveSeats(seats, ids, rid).Ok? <==> AllIn(seats, ids, Available)
    ensures ReserveSeats(seats, ids, rid).Ok? ==>
              ReserveSeats(seats, ids, rid).value ==
              map s | s in seats :: if s in ids then ReservedRow(seats[s], rid) else seats[s]
  {
    FullCount(seats, ids, Available);
  }

  lemma ConfirmEffect(seats: Table, ids: seq<Id>)
    ensures ConfirmSeats(seats, ids).Ok? <==> AllIn(seats, ids, Reserved)
    ensures ConfirmSeats(seats, ids).Ok? ==>
              ConfirmSeats(seats, ids).value ==
              map s | s in seats :: if s in ids then ConfirmedRow(seats[s]) else seats[s]
  {
    FullCount(seats, ids, Reserved);
  }

  // ---------------------------------------------------------------- the per-seat specification

  datatype SeatOp = OpReserve(rid: Id) | OpConfirm
  {
    function On(row: SeatRow): Result<SeatRow> {
      if OpReserve? then row.Reserve(rid) else row.Confirm()
    }

    function From(): SeatStatus { if OpReserve? then Available else Reserved }
  }

  /** Apply the entity operation to each listed seat in turn, stopping at the first failure. */
  function Fold(seats: Table, ids: seq<Id>, op: SeatOp): Result<Table> {
    if |ids| == 0 then Ok(seats)
    else if ids[0] !in seats then Err(SeatNotFound)
    else
      var r := op.On(seats[ids[0]]);
      if r.Err? then Err(r.error) else Fold(seats[ids[0] := r.value], ids[1..], op)
  }

  function Bulk(seats: Table, ids: seq<Id>, op: SeatOp): Result<Table> {
    if op.OpReserve? then ReserveSeats(seats, ids, op.rid) else ConfirmSeats(seats, ids)
  }

  lemma AllInCons(seats: Table, ids: seq<Id>, from: SeatStatus, row: SeatRow)
    requires |ids| > 0 && ids[0] in seats && seats[ids[0]].status == from && row.status != from
    ensures AllIn(seats, ids, from) <==> AllIn(seats[ids[0] := row], ids[1..], from)
  {
    var next, rest := seats[ids[0] := row], ids[1..];
    assert forall i :: 0 <= i < |rest| ==> rest[i] == ids[i + 1];
    if AllIn(seats, ids, from) {
      assert forall s :: s in rest ==> s in ids;
      forall i, j | 0 <= i < j < |rest| ensures rest[i] != rest[j] {
        assert ids[i + 1] != ids[j + 1];
      }
    }
    if AllIn(next, rest, from) {
      assert forall i :: 0 < i < |ids| ==> ids[i] == rest[i - 1] && ids[i] in rest;
      forall i, j | 0 <= i < j < |ids| ensures ids[i] != ids[j] {
        if i > 0 { assert rest[i - 1] != rest[j - 1]; }
      }
    }
  }

  lemma {:induction false} FoldEffect(seats: Table, ids: seq<Id>, op: SeatOp)
    ensures Fold(seats, ids, op).Ok? <==> AllIn(seats, ids, op.From())
    ensures Fold(seats, ids, op).Ok? ==>
              Fold(seats, ids, op).value ==
              map s | s in seats :: if s in ids && op.On(seats[s]).Ok? then op.On(seats[s]).value else seats[s]
    decreases |ids|
  {
    if |ids| > 0 {
      var s0 := ids[0];
      if s0 !in seats || op.On(seats[s0]).Err? {
        assert s0 in ids;
      } else {
        var row := op.On(seats[s0]).value;
        var next, rest := seats[s0 := row], ids[1..];
        AllInCons(seats, ids, op.From(), row);
        FoldEffect(next, rest, op);
        assert forall s :: s in ids <==> s == s0 || s in rest by { assert ids == [s0] + rest; }
        if AllIn(seats, ids, op.From()) {
          assert s0 !in rest;
        }
      }
    }
  }

  /** The bulk UPDATE is the per-seat operation applied to each listed seat, plus one version tick. */
  ghost predicate SameButTicked(fold: Table, bulk: Table, ids: seq<Id>) {
    && fold.Keys == bulk.Keys
    && forall s :: s in bulk ==>
         bulk[s] == if s in ids then fold[s].(version := fold[s].version + 1) else fold[s]
  }

  /** Bulk update with row count refines the per-seat fold, for every id list whatever. */
  lemma BulkRefinesFold(seats: Table, ids: seq<Id>, op: SeatOp)
    ensures Bulk(seats, ids, op).Ok? <==> Fold(seats, ids, op).Ok?
    ensures Bulk(seats, ids, op).Ok? ==>
              SameButTicked(Fold(seats, ids, op).value, Bulk(seats, ids, op).value, ids)
  {
    FoldEffect(seats, ids, op);
    if op.OpReserve? { ReserveEffect(seats, ids, op.rid); } else { ConfirmEffect(seats, ids); }
  }

  /** The order in which the ids are listed does not matter. */
  lemma BulkOrderIndependent(seats: Table, ids: seq<Id>, other: seq<Id>, op: SeatOp)
    requires multiset(ids) == multiset(other)
    ensures Bulk(seats, ids, op) == Bulk(seats, other, op)
    ensures ReleaseSeats(seats, ids) == ReleaseSeats(seats, other)
  {
    assert |ids| == |multiset(ids)| == |multiset(other)| == |other|;
    forall s ensures s in ids <==> s in other {
      assert s in ids <==> s in multiset(ids);
      assert s in other <==> s in multiset(other);
    }
    SameMembers(seats, ids, other, op);
  }

  lemma SameMembers(seats: Table, ids: seq<Id>, other: seq<Id>, op: SeatOp)
    requires |ids| == |other| && forall s :: s in ids <==> s in other
    ensures Bulk(seats, ids, op) == Bulk(seats, other, op)
    ensures ReleaseSeats(seats, ids) == ReleaseSeats(seats, other)
  {
    assert Matching(seats, ids, Available) == Matching(seats, other, Available);
    assert Matching(seats, ids, Reserved) == Matching(seats, other, Reserved);
    assert op.OpReserve? ==> ReserveRows(seats, ids, op.rid) == ReserveRows(seats, other, op.rid);
    assert ConfirmRows(seats, ids) == ConfirmRows(seats, other);
    assert ReleaseRows(seats, ids) == ReleaseRows(seats, other);
  }
}
