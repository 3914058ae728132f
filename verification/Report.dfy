/** The traffic report: rows merged per UID while users are drained, and its UID-keyed wire encoding. */
module Report {
  import opened Api

  datatype Side = Up | Down

  /** What one drained user contributes. */
  datatype Sample = Sample(user: UserInfo, up: int, down: int)
  {
    /** Only a positive amount in some direction makes it into the report. */
    predicate Counts() {
      up > 0 || down > 0
    }

    /** The bytes it adds for a UID in one direction. */
    function Gain(uid: int64, side: Side): int {
      if user.uid != uid || !Counts() then 0 else if side.Up? then up else down
    }
  }

  function RowPart(row: UserTraffic, side: Side): int {
    if side.Up? then row.upload else row.download
  }

  /** All bytes the rows hold for a UID in one direction. */
  function RowSum(rows: seq<UserTraffic>, uid: int64, side: Side): int {
    if rows == [] then 0
    else
      var last := rows[|rows| - 1];
      RowSum(rows[..|rows| - 1], uid, side) + if last.uid == uid then RowPart(last, side) else 0
  }

  /** All bytes the counting samples hold for a UID in one direction. */
  function SampleSum(samples: seq<Sample>, uid: int64, side: Side): int {
    if samples == [] then 0
    else
      var last := samples[|samples| - 1];
      SampleSum(samples[..|samples| - 1], uid, side) + last.Gain(uid, side)
  }

  /** The UIDs that have something to report. */
  function UidsOf(samples: seq<Sample>): set<int64> {
    set s | s in samples && s.Counts() :: s.user.uid
  }

  lemma SampleSnoc(samples: seq<Sample>, n: nat)
    requires n < |samples|
    ensures UidsOf(samples[..n + 1]) == UidsOf(samples[..n]) + if samples[n].Counts() then {samples[n].user.uid} else {}
    ensures forall uid, side ::
      SampleSum(samples[..n + 1], uid, side) == SampleSum(samples[..n], uid, side) + samples[n].Gain(uid, side)
  {
    assert samples[..n + 1] == samples[..n] + [samples[n]];
    assert samples[..n + 1][..n] == samples[..n];
  }

  predicate Distinct(rows: seq<UserTraffic>) {
    forall i, j :: 0 <= i < j < |rows| ==> rows[i].uid != rows[j].uid
  }

  lemma {:induction false} RowSumUpdate(rows: seq<UserTraffic>, i: nat, row: UserTraffic, uid: int64, side: Side)
    requires i < |rows| && row.uid == rows[i].uid
    ensures RowSum(rows[i := row], uid, side)
         == RowSum(rows, uid, side) + if row.uid == uid then RowPart(row, side) - RowPart(rows[i], side) else 0
  {
    var n := |rows| - 1;
    if i < n {
      RowSumUpdate(rows[..n], i, row, uid, side);
      assert rows[i := row][..n] == rows[..n][i := row];
    } else {
      assert rows[i := row][..n] == rows[..n];
    }
  }

  /** With distinct UIDs the sum for a UID is its own row, and zero without one. */
  lemma {:induction false} RowSumDistinct(rows: seq<UserTraffic>, uid: int64, side: Side)
    requires Distinct(rows)
    ensures forall i :: 0 <= i < |rows| && rows[i].uid == uid ==> RowSum(rows, uid, side) == RowPart(rows[i], side)
    ensures (forall i :: 0 <= i < |rows| ==> rows[i].uid != uid) ==> RowSum(rows, uid, side) == 0
  {
    if rows != [] {
      RowSumDistinct(rows[..|rows| - 1], uid, side);
    }
  }

  /** The index is the inverse of the UID column, so UIDs are pairwise distinct. */
  predicate IndexOk(rows: seq<UserTraffic>, index: map<int64, nat>) {
    && (forall uid :: uid in index ==> index[uid] < |rows| && rows[index[uid]].uid == uid)
    && (forall i :: 0 <= i < |rows| ==> rows[i].uid in index && index[rows[i].uid] == i)
  }

  /** A counting sample is merged into the row of its UID, or becomes a new last row. */
  function AddRow(rows: seq<UserTraffic>, index: map<int64, nat>, s: Sample): seq<UserTraffic>
    requires IndexOk(rows, index)
  {
    if !s.Counts() then rows
    else if s.user.uid in index then
      var row := rows[index[s.user.uid]];
      rows[index[s.user.uid] := row.(upload := row.upload + s.up, download := row.download + s.down)]
    else
      rows + [UserTraffic(s.user.uid, s.user.email, s.up, s.down)]
  }

  /** The row carries the email of a user who was drained under its UID. */
  ghost predicate Named(row: UserTraffic, samples: seq<Sample>) {
    exists s :: s in samples && s.Counts() && s.user.uid == row.uid && s.user.email == row.email
  }

  lemma RowsNamed(rows: seq<UserTraffic>, index: map<int64, nat>, samples: seq<Sample>, n: nat)
    requires n < |samples| && IndexOk(rows, index) && forall row :: row in rows ==> Named(row, samples[..n])
    ensures forall row :: row in AddRow(rows, index, samples[n]) ==> Named(row, samples[..n + 1])
  {
    assert samples[..n + 1] == samples[..n] + [samples[n]];
    forall row | row in AddRow(rows, index, samples[n]) ensures Named(row, samples[..n + 1]) {
      if row in rows {
        var s :| s in samples[..n] && s.Counts() && s.user.uid == row.uid && s.user.email == row.email;
        assert s in samples[..n + 1];
      } else if samples[n].user.uid in index {
        var was := rows[index[samples[n].user.uid]];
        assert Named(was, samples[..n]);
        var s :| s in samples[..n] && s.Counts() && s.user.uid == was.uid && s.user.email == was.email;
        assert s in samples[..n + 1];
      } else {
        assert samples[n] in samples[..n + 1];
      }
    }
  }

  lemma StartSums()
    ensures forall uid, side :: RowSum([], uid, side) == 0 && SampleSum([], uid, side) == 0
    ensures UidsOf([]) == {}
  {
  }

  /** Positions that an index finds again hold distinct UIDs. */
  lemma IndexDistinct(rows: seq<UserTraffic>, index: map<int64, nat>)
    requires IndexOk(rows, index)
    ensures Distinct(rows)
  {
  }

  lemma PushSum(rows: seq<UserTraffic>, row: UserTraffic, uid: int64, side: Side)
    ensures RowSum(rows + [row], uid, side)
         == RowSum(rows, uid, side) + if row.uid == uid then RowPart(row, side) else 0
  {
    assert (rows + [row])[..|rows|] == rows;
  }

  /** Adding a row changes the sums by exactly the sample. */
  lemma AddRowSum(rows: seq<UserTraffic>, index: map<int64, nat>, s: Sample, uid: int64, side: Side)
    requires IndexOk(rows, index)
    ensures RowSum(AddRow(rows, index, s), uid, side) == RowSum(rows, uid, side) + s.Gain(uid, side)
  {
    hide RowSum;
    if s.Counts() {
      if s.user.uid in index {
        var i := index[s.user.uid];
        var row := rows[i];
        RowSumUpdate(rows, i, row.(upload := row.upload + s.up, download := row.download + s.down), uid, side);
      } else {
        PushSum(rows, UserTraffic(s.user.uid, s.user.email, s.up, s.down), uid, side);
      }
    }
  }

  class TrafficReport {
    var rows: seq<UserTraffic>
    var index: map<int64, nat>

    ghost predicate Valid()
      reads this
    {
      IndexOk(rows, index)
    }

    constructor ()
      ensures Valid() && rows == [] && index == map[]
    {
      rows := [];
      index := map[];
    }

    method Append(user: UserInfo, up: int, down: int)
      requires Valid()
      modifies this
      ensures Valid()
      ensures rows == AddRow(old(rows), old(index), Sample(user, up, down))
      ensures index.Keys == old(index.Keys) + if Sample(user, up, down).Counts() then {user.uid} else {}
    {
      if up <= 0 && down <= 0 {
        return;
      }
      if user.uid in index {
        var position := index[user.uid];
        var row := rows[position];
        rows := rows[position := row.(upload := row.upload + up, download := row.download + down)];
        return;
      }
      index := index[user.uid := |rows|];
      rows := rows + [UserTraffic(user.uid, user.email, up, down)];
    }

    /** Draining any list of current and retired users, in any order and with repeated UIDs, adds up per UID. */
    method AppendAll(samples: seq<Sample>)
      requires Valid() && rows == [] && index == map[]
      modifies this
      ensures Valid() && Distinct(rows)
      ensures forall uid, side :: RowSum(rows, uid, side) == SampleSum(samples, uid, side)
      ensures index.Keys == UidsOf(samples)
      ensures forall row :: row in rows ==> Named(row, samples)
    {
      hide RowSum, SampleSum, UidsOf, AddRow, Named, IndexOk;
      StartSums();
      for n := 0 to |samples|
        invariant Valid()
        invariant forall uid, side :: RowSum(rows, uid, side) == SampleSum(samples[..n], uid, side)
        invariant index.Keys == UidsOf(samples[..n])
        invariant forall row :: row in rows ==> Named(row, samples[..n])
      {
        SampleSnoc(samples, n);
        RowsNamed(rows, index, samples, n);
        forall uid, side
          ensures RowSum(AddRow(rows, index, samples[n]), uid, side)
               == RowSum(rows, uid, side) + samples[n].Gain(uid, side)
        {
          AddRowSum(rows, index, samples[n], uid, side);
        }
        Append(samples[n].user, samples[n].up, samples[n].down);
      }
      IndexDistinct(rows, index);
      assert samples[..|samples|] == samples;
    }
  }

  /**
   The panel's wire form keyed by UID. A later row would overwrite an earlier one of the same UID; with distinct
   UIDs the encoding holds every row.
   */
  method Encode(rows: seq<UserTraffic>) returns (data: map<int64, (int, int)>)
    ensures data.Keys == set row | row in rows :: row.uid
    ensures Distinct(rows) ==> forall row :: row in rows ==> data[row.uid] == (row.upload, row.download)
    ensures Distinct(rows) ==>
      forall uid :: uid in data ==> data[uid] == (RowSum(rows, uid, Up), RowSum(rows, uid, Down))
  {
    data := map[];
    for n := 0 to |rows|
      invariant data.Keys == set row | row in rows[..n] :: row.uid
      invariant Distinct(rows) ==> forall i :: 0 <= i < n ==> data[rows[i].uid] == (rows[i].upload, rows[i].download)
    {
      assert rows[..n + 1] == rows[..n] + [rows[n]];
      data := data[rows[n].uid := (rows[n].upload, rows[n].download)];
    }
    assert rows[..|rows|] == rows;
    if Distinct(rows) {
      forall uid | uid in data ensures data[uid] == (RowSum(rows, uid, Up), RowSum(rows, uid, Down)) {
        RowSumDistinct(rows, uid, Up);
        RowSumDistinct(rows, uid, Down);
      }
    }
  }

  /** End to end: what the panel decodes per UID is exactly what was drained for it. */
  method ReportAndEncode(samples: seq<Sample>) returns (data: map<int64, (int, int)>)
    ensures data.Keys == UidsOf(samples)
    ensures forall uid :: uid in data ==> data[uid] == (SampleSum(samples, uid, Up), SampleSum(samples, uid, Down))
  {
    var report := new TrafficReport();
    report.AppendAll(samples);
    data := Encode(report.rows);
    assert data.Keys == report.index.Keys;
  }
}
