/** The housekeeping of the invite stores, against the import that relies on what they keep. */
module Purging {
  import opened Optionals
  import opened HouseholdState
  import opened Invites
  import opened HostPod

  /** The housekeeping a claimer offers and no command calls. */
  function Purged(codes: Codes, before: int): Codes {
    if codes == [] then []
    else
      var c := codes[|codes| - 1];
      Purged(codes[..|codes| - 1], before) +
      if (c.Consumed() && c.consumedAt < before) || c.Expired(before) then [] else [c]
  }

  lemma {:induction false} PurgedKnows(codes: Codes, before: int, hash: string)
    ensures Knows(Purged(codes, before), hash) <==>
            exists i :: 0 <= i < |codes| && codes[i].hash == hash &&
              !((codes[i].Consumed() && codes[i].consumedAt < before) || codes[i].Expired(before))
  {
    if codes != [] {
      var n := |codes| - 1;
      PurgedKnows(codes[..n], before, hash);
      var rest, all := Purged(codes[..n], before), Purged(codes, before);
      if i :| 0 <= i < |codes| && codes[i].hash == hash &&
              !((codes[i].Consumed() && codes[i].consumedAt < before) || codes[i].Expired(before)) {
        if i < n {
          assert codes[..n][i] == codes[i];
          var k :| 0 <= k < |rest| && rest[k].hash == hash;
          assert all[k].hash == hash;
        } else {
          assert all[|rest|] == codes[n];
        }
      }
      if k :| 0 <= k < |all| && all[k].hash == hash && k < |rest| {
        assert rest[k].hash == hash;
        var i :| 0 <= i < n && codes[..n][i].hash == hash &&
              !((codes[..n][i].Consumed() && codes[..n][i].consumedAt < before) || codes[..n][i].Expired(before));
        assert codes[i] == codes[..n][i];
      }
    }
  }

  /** A spent code the seed still carries unspent comes back to life in a pod that purges,
      exactly when the purge is later than the redemption and the code has not run out: the
      import guards a spent mark only for as long as the pod keeps the record. */
  lemma PurgeUndoesASpentMark(codes: Codes, i: nat, seed: Code, before: int, now: int)
    requires Distinct(codes) && i < |codes| && codes[i].Consumed()
    requires seed == codes[i].(consumedAt := 0) && before <= now
    ensures var r := Copied(Purged(codes, before), [seed], _ => true, 1).0;
            (exists c :: c in r && c.hash == seed.hash && c.Live(now)) <==>
            codes[i].consumedAt < before && !seed.Expired(now)
  {
    var kept := Purged(codes, before);
    PurgedKnows(codes, before, seed.hash);
    PurgedIsPart(codes, before);
    CopyOfOne(kept, seed);
    var r := Copied(kept, [seed], _ => true, 1).0;
    if Knows(kept, seed.hash) {
      forall c | c in r && c.hash == seed.hash ensures c == codes[i] {
        assert c in codes;
      }
    } else {
      forall c | c in kept ensures c.hash != seed.hash {
        var k :| 0 <= k < |kept| && kept[k] == c;
      }
      assert seed in r;
    }
  }

  lemma CopyOfOne(dst: Codes, c: Code)
    ensures Copied(dst, [c], _ => true, 1).0 == if Knows(dst, c.hash) then dst else dst + [c]
  {
    var keep: Code -> bool := _ => true;
    assert [c][1..] == [];
    assert Copied(dst, [], keep, 1).0 == dst && Copied(dst + [c], [], keep, 0).0 == dst + [c];
    assert Copied(dst, [c], keep, 1).0 == if Knows(dst, c.hash) then dst else dst + [c];
  }

  lemma {:induction false} PurgedIsPart(codes: Codes, before: int)
    ensures forall c :: c in Purged(codes, before) ==> c in codes
  {
    if codes != [] {
      PurgedIsPart(codes[..|codes| - 1], before);
    }
  }
}
