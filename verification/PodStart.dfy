/** The pod's half of a revocation, as the process runs it: through a binder of its own, then
    over the configuration it has already loaded. */
module PodStart {
  import opened Optionals
  import opened HouseholdState
  import opened HouseholdRuns
  import opened BinderObject
  import opened HostPod

  datatype Record = Record(member: MemberId, revokedAt: int)

  method FindMember(rows: array<Member>, m: MemberId) returns (r: Option<nat>)
    ensures r == IndexOf(rows[..], m)
  {
    var i := 0;
    while i < rows.Length
      invariant 0 <= i <= rows.Length
      invariant forall j :: 0 <= j < i ==> rows[j].id != m
    {
      if rows[i].id == m {
        FirstIndex(rows[..], m, i);
        return Some(i);
      }
      i := i + 1;
    }
    r := None;
  }

  lemma FirstIndex(rows: seq<Member>, m: MemberId, i: nat)
    requires i < |rows| && rows[i].id == m && forall j :: 0 <= j < i ==> rows[j].id != m
    ensures IndexOf(rows, m) == Some(i)
  {
  }

  /** False where the process must not start: the record names somebody else, the household
      does not open, or the file cannot be written. */
  method ApplyRevocation(rows: array<Member>, shared: string, file: StateFile, m: MemberId, rec: Option<Record>, works: bool)
    returns (ok: bool)
    modifies rows, file
    ensures rec.Some? && rec.value.member != m ==> !ok && rows[..] == old(rows[..]) && file.contents == old(file.contents)
    ensures rec.None? || rec.value.member == m ==>
      (rows[..], file.contents, ok) ==
      Revoked(old(rows[..]), shared, old(file.contents), m, if rec.None? then None else Some(rec.value.revokedAt), works)
  {
    hide FoldAll, Ids, Folded, Disagrees, Corrected;
    CorrectedIs(rows[..], m);
    ghost var was := rows[..];
    if rec.None? { return true; }
    if rec.value.member != m { return false; }
    var at := FindMember(rows, m);
    if at.None? || rows[at.value].telegramId == 0 || rows[at.value].enrolledAt > rec.value.revokedAt {
      return true;
    }
    var binder := Binder.Open(rows[..], shared, [], file);
    if binder == null { return false; }
    var r := binder.Unbind(m, works);
    if r.Err? { return false; }
    var i := 0;
    while i < rows.Length
      invariant 0 <= i <= rows.Length
      invariant file.contents == Unbind(Opened(was, shared, [], old(file.contents)), m, works).0.disk
      invariant forall j :: 0 <= j < i ==>
        rows[j] == if was[j].id == m then was[j].(telegramId := 0, enrolledAt := 0) else was[j]
      invariant forall j :: i <= j < rows.Length ==> rows[j] == was[j]
    {
      if rows[i].id == m {
        rows[i] := rows[i].(telegramId := 0, enrolledAt := 0);
      }
      i := i + 1;
    }
    assert rows[..] == Corrected(was, m);
    ok := true;
  }

  lemma CorrectedIs(rows: seq<Member>, m: MemberId)
    ensures |Corrected(rows, m)| == |rows|
    ensures forall j :: 0 <= j < |rows| ==>
              Corrected(rows, m)[j] == if rows[j].id == m then rows[j].(telegramId := 0, enrolledAt := 0) else rows[j]
  {
  }
}
