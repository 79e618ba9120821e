/** Stores of claim codes: saving, spending and copying between the host's and a pod's. */
module Invites {
  import opened Optionals
  import opened HouseholdState

  /** A stored code is a digest. Times are instants counted from Go's zero time, so a code
      whose `consumedAt` is 0 has not been redeemed. */
  datatype Code = Code(hash: string, name: string, member: MemberId, expiresAt: int, consumedAt: int)
  {
    predicate Consumed() { consumedAt != 0 }
    predicate Expired(now: int) { expiresAt <= now }
    predicate Live(now: int) { !Consumed() && !Expired(now) }
  }

  type Codes = seq<Code>

  predicate Knows(codes: Codes, hash: string) {
    exists i :: 0 <= i < |codes| && codes[i].hash == hash
  }

  ghost predicate Distinct(codes: Codes) {
    forall i, j :: 0 <= i < j < |codes| ==> codes[i].hash != codes[j].hash
  }

  datatype Redemption = Redeemed(code: Code) | UnknownCode | AlreadyUsed | TooLate | StoreBroken

  lemma KnowsOneMore(codes: Codes, hash: string)
    requires codes != []
    ensures Knows(codes, hash) <==> Knows(codes[..|codes| - 1], hash) || codes[|codes| - 1].hash == hash
  {
    if Knows(codes, hash) && codes[|codes| - 1].hash != hash {
      var i :| 0 <= i < |codes| && codes[i].hash == hash;
      assert codes[..|codes| - 1][i].hash == hash;
    }
    if Knows(codes[..|codes| - 1], hash) {
      var i :| 0 <= i < |codes| - 1 && codes[..|codes| - 1][i].hash == hash;
      assert codes[i].hash == hash;
    }
  }

  /** The record `consume` settles on: the last one with the digest. */
  function LastWith(codes: Codes, hash: string): (r: Option<nat>)
    ensures r.Some? ==> r.value < |codes| && codes[r.value].hash == hash
    ensures r.None? <==> !Knows(codes, hash)
  {
    if codes == [] then None
    else if codes[|codes| - 1].hash == hash then Some(|codes| - 1)
    else
      var r := LastWith(codes[..|codes| - 1], hash);
      KnowsOneMore(codes, hash);
      r
  }

  function Spend(codes: Codes, hash: string, now: int, works: bool): (Codes, Redemption) {
    var at := LastWith(codes, hash);
    if at.None? then (codes, UnknownCode)
    else
      var c := codes[at.value];
      if c.Consumed() then (codes, AlreadyUsed)
      else if c.Expired(now) then (codes, TooLate)
      else if !works then (codes, StoreBroken)
      else (codes[at.value := c.(consumedAt := now)], Redeemed(c.(consumedAt := now)))
  }

  /** The scan has no early exit: of several records with the digest, the last is the one. */
  ghost predicate IsLastWith(codes: Codes, hash: string, i: int) {
    0 <= i < |codes| && codes[i].hash == hash && forall j :: i < j < |codes| ==> codes[j].hash != hash
  }

  lemma {:induction false} LastWithIs(codes: Codes, hash: string)
    ensures LastWith(codes, hash).Some? ==> IsLastWith(codes, hash, LastWith(codes, hash).value)
  {
    if codes != [] && codes[|codes| - 1].hash != hash {
      LastWithIs(codes[..|codes| - 1], hash);
    }
  }

  /** Each answer is given exactly where it is due: a code is redeemed when it was never
      redeemed before, is in date, and the mark that it is spent could be written. */
  ghost predicate AnsweredFairly(codes: Codes, hash: string, now: int, works: bool, after: Codes, r: Redemption) {
    && (r.UnknownCode? <==> forall i :: 0 <= i < |codes| ==> codes[i].hash != hash)
    && (forall i :: IsLastWith(codes, hash, i) ==>
          var c := codes[i];
          && (r.AlreadyUsed? <==> c.consumedAt != 0)
          && (r.TooLate? <==> c.consumedAt == 0 && c.expiresAt <= now)
          && (r.StoreBroken? <==> c.consumedAt == 0 && now < c.expiresAt && !works)
          && (r.Redeemed? <==> c.consumedAt == 0 && now < c.expiresAt && works)
          && (r.Redeemed? ==> r.code == c.(consumedAt := now) && after == codes[i := r.code]))
    && (!r.Redeemed? ==> after == codes)
  }

  lemma SpendIs(codes: Codes, hash: string, now: int, works: bool)
    ensures var (after, r) := Spend(codes, hash, now, works); AnsweredFairly(codes, hash, now, works, after, r)
  {
    LastWithIs(codes, hash);
    assert Knows(codes, hash) <==> LastWith(codes, hash).Some?;
    forall i | IsLastWith(codes, hash, i) ensures LastWith(codes, hash) == Some(i) {
      assert codes[i].hash == hash;
    }
  }

  /** A copy adds what is wanted and not already known, in order, until a write fails.
      `writes` is how many writes the disk still takes. */
  function Copied(dst: Codes, src: Codes, keep: Code -> bool, writes: nat): (Codes, bool)
    decreases |src|
  {
    if src == [] then (dst, true)
    else if !keep(src[0]) || Knows(dst, src[0].hash) then Copied(dst, src[1..], keep, writes)
    else if writes == 0 then (dst, false)
    else Copied(dst + [src[0]], src[1..], keep, writes - 1)
  }

  class FileStore {
    var codes: Codes

    constructor (codes: Codes)
      ensures this.codes == codes
    {
      this.codes := codes;
    }

    method Has(hash: string) returns (found: bool)
      ensures found <==> Knows(codes, hash)
    {
      var i := 0;
      while i < |codes|
        invariant 0 <= i <= |codes|
        invariant forall j :: 0 <= j < i ==> codes[j].hash != hash
      {
        if codes[i].hash == hash { return true; }
        i := i + 1;
      }
      found := false;
    }

    /** False where the digest is already held, or the write fails. */
    method Save(c: Code, works: bool) returns (saved: bool, duplicate: bool)
      modifies this
      ensures duplicate == Knows(old(codes), c.hash) && saved == (works && !duplicate)
      ensures codes == if saved then old(codes) + [c] else old(codes)
    {
      duplicate := Has(c.hash);
      saved := works && !duplicate;
      if saved {
        codes := codes + [c];
      }
    }

    /** The mark that a code is spent is on disk before the code is handed out. */
    method Consume(hash: string, now: int, works: bool) returns (r: Redemption)
      modifies this
      ensures (codes, r) == Spend(old(codes), hash, now, works)
      ensures AnsweredFairly(old(codes), hash, now, works, codes, r)
    {
      hide AnsweredFairly;
      SpendIs(codes, hash, now, works);
      var at := -1;
      var i := 0;
      while i < |codes|
        invariant 0 <= i <= |codes| && -1 <= at < i
        invariant if at < 0 then LastWith(codes[..i], hash) == None else LastWith(codes[..i], hash) == Some(at)
      {
        assert codes[..i + 1][..i] == codes[..i];
        if codes[i].hash == hash { at := i; }
        i := i + 1;
      }
      assert codes[..i] == codes;
      if at < 0 { return UnknownCode; }
      var c := codes[at];
      if c.Consumed() { return AlreadyUsed; }
      if c.Expired(now) { return TooLate; }
      if !works { return StoreBroken; }
      c := c.(consumedAt := now);
      codes := codes[at := c];
      r := Redeemed(c);
    }
  }

  /** copyInvites: both the host's export and the pod's import. */
  method CopyInvites(dst: FileStore, src: Codes, keep: Code -> bool, writes: nat) returns (added: nat, ok: bool)
    modifies dst
    ensures (dst.codes, ok) == Copied(old(dst.codes), src, keep, writes)
    ensures |dst.codes| == |old(dst.codes)| + added
  {
    added := 0;
    var left := writes;
    var i := 0;
    while i < |src|
      invariant 0 <= i <= |src|
      invariant Copied(old(dst.codes), src, keep, writes) == Copied(dst.codes, src[i..], keep, left)
      invariant |dst.codes| == |old(dst.codes)| + added
    {
      var c := src[i];
      assert src[i..][0] == c && src[i..][1..] == src[i + 1..];
      if keep(c) {
        var saved, duplicate := dst.Save(c, left > 0);
        if !duplicate {
          if !saved { return added, false; }
          left := left - 1;
          added := added + 1;
        }
      }
      i := i + 1;
    }
    assert src[i..] == [];
    ok := true;
  }

  // ---- what a copy never does ----

  /** Every record already in the destination is still where it was, word for word, spent
      mark included; what is new was in the source, wanted, and not known before. */
  lemma {:induction false} CopyKeepsWhatWasThere(dst: Codes, src: Codes, keep: Code -> bool, writes: nat)
    ensures var r := Copied(dst, src, keep, writes).0;
            && dst <= r
            && (forall i :: |dst| <= i < |r| ==> r[i] in src && keep(r[i]) && !Knows(dst, r[i].hash))
            && (Distinct(dst) ==> Distinct(r))
    decreases |src|
  {
    if src != [] {
      var wanted := keep(src[0]) && !Knows(dst, src[0].hash);
      if wanted && writes > 0 {
        var next := dst + [src[0]];
        CopyKeepsWhatWasThere(next, src[1..], keep, writes - 1);
        var r := Copied(next, src[1..], keep, writes - 1).0;
        assert forall h :: Knows(dst, h) ==> Knows(next, h) by {
          forall h | Knows(dst, h) ensures Knows(next, h) {
            var i :| 0 <= i < |dst| && dst[i].hash == h;
            assert next[i].hash == h;
          }
        }
        assert r[|dst|] == src[0];
      } else if !wanted {
        CopyKeepsWhatWasThere(dst, src[1..], keep, writes);
      }
    }
  }

  /** A copy that goes through leaves nothing wanted unknown; one that does not used every write
      there was, and left something. */
  lemma {:induction false} CopyLeavesNothingOut(dst: Codes, src: Codes, keep: Code -> bool, writes: nat)
    ensures var (r, ok) := Copied(dst, src, keep, writes);
            && (ok <==> forall i :: 0 <= i < |src| && keep(src[i]) ==> Knows(r, src[i].hash))
            && (!ok ==> |r| == |dst| + writes) && (|src| <= writes ==> ok)
            && |r| <= |dst| + writes
    decreases |src|
  {
    if src != [] {
      var (r, ok) := Copied(dst, src, keep, writes);
      var wanted := keep(src[0]) && !Knows(dst, src[0].hash);
      if wanted && writes == 0 {
        assert !(forall i :: 0 <= i < |src| && keep(src[i]) ==> Knows(r, src[i].hash));
      } else {
        var next := if wanted then dst + [src[0]] else dst;
        var left := if wanted then writes - 1 else writes;
        CopyLeavesNothingOut(next, src[1..], keep, left);
        CopyKeepsWhatWasThere(next, src[1..], keep, left);
        if keep(src[0]) {
          KnownStays(dst, next, src[0].hash);
          if wanted { assert next[|dst|] == src[0]; }
          KnownStays(next, r, src[0].hash);
        }
        forall i | 1 <= i < |src| ensures src[i] == src[1..][i - 1] {
        }
      }
    }
  }

  lemma KnownStays(codes: Codes, more: Codes, hash: string)
    requires codes <= more
    ensures Knows(codes, hash) ==> Knows(more, hash)
  {
    if Knows(codes, hash) {
      var i :| 0 <= i < |codes| && codes[i].hash == hash;
      assert more[i].hash == hash;
    }
  }
}
