/** Dictionaries that a loader fills from a list, one listed value at a time. */
module Tables {
  import opened Text
  import opened Model

  function Table<T>(ids: seq<string>, listed: seq<T>): map<string, T>
    requires |ids| == |listed|
  {
    if listed == [] then map[]
    else Table(ids[..|ids| - 1], listed[..|listed| - 1])[ids[|ids| - 1] := listed[|listed| - 1]]
  }

  /** Under distinct ids the dictionary holds what is listed. */
  lemma {:induction false} TableHolds<T>(ids: seq<string>, listed: seq<T>)
    requires |ids| == |listed| && Distinct(ids)
    ensures forall id :: id in Table(ids, listed) <==> id in ids
    ensures forall i :: 0 <= i < |ids| ==> ids[i] in Table(ids, listed) && Table(ids, listed)[ids[i]] == listed[i]
  {
    if listed != [] {
      var front, last := ids[..|ids| - 1], ids[|ids| - 1];
      TableHolds(front, listed[..|listed| - 1]);
      assert ids == front + [last];
    }
  }

  /** Loading the next listed value: its id is taken exactly when the ids are not distinct. */
  lemma TableGrows<T>(ids: seq<string>, listed: seq<T>, i: nat)
    requires |ids| == |listed| && i < |ids| && Distinct(ids[..i])
    ensures Table(ids[..i + 1], listed[..i + 1]) == Table(ids[..i], listed[..i])[ids[i] := listed[i]]
    ensures if ids[i] in Table(ids[..i], listed[..i]) then !Distinct(ids[..i + 1]) && !Distinct(ids) else Distinct(ids[..i + 1])
  {
    TableHolds(ids[..i], listed[..i]);
    assert ids[..i + 1][..i] == ids[..i] && listed[..i + 1][..i] == listed[..i];
    hide Table;
    if ids[i] in ids[..i] {
      var k :| 0 <= k < i && ids[..i][k] == ids[i];
      assert ids[..i + 1][k] == ids[..i + 1][i] && ids[k] == ids[i];
    }
  }
}
