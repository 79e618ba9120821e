/** Which claims go through: the ones with a live code, and with every code minted for a pod
    that comes up. */
module Enrolment {
  import opened Optionals
  import opened HouseholdState
  import opened Invites
  import opened HostPod

  /** The one record of a digest in a store that holds each digest once. */
  lemma OnlyIsLast(codes: Codes, i: nat)
    requires Distinct(codes) && i < |codes|
    ensures IsLastWith(codes, codes[i].hash, i)
  {
  }

  /** A claim whose code this pod would take: the pod is up, and a record of the digest there is
      neither spent nor past its date. */
  ghost predicate Claimable(w: World, e: Event, i: nat) {
    && e.Redeem? && e.now != 0 && e.spends
    && e.m in w.pods && w.pods[e.m].house.Some? && i < |w.pods[e.m].codes|
    && var c := w.pods[e.m].codes[i];
       c.hash == e.hash && c.consumedAt == 0 && e.now < c.expiresAt
  }

  lemma StepsThatRedeem(c: Config, w: World, e: Event)
    requires CodesOk(w) && |Step(c, w, e).redeemed| > |w.redeemed|
    ensures exists i: nat :: Claimable(w, e, i)
  {
    RedeemShape(c, w, e);
    var codes := w.pods[e.m].codes;
    SpendIs(codes, e.hash, e.now, e.spends);
    var i := LastWith(codes, e.hash).value;
    OnlyIsLast(codes, i);
    assert Claimable(w, e, i);
  }

  lemma ClaimsThatRedeem(c: Config, w: World, e: Event, i: nat)
    requires CodesOk(w) && Claimable(w, e, i)
    ensures var v := Step(c, w, e);
            && v.redeemed == w.redeemed + [e.hash] && e.m in v.pods
            && v.pods[e.m].codes == w.pods[e.m].codes[i := w.pods[e.m].codes[i].(consumedAt := e.now)]
            && (forall k :: k != e.m ==> PodOf(v, k) == PodOf(w, k))
  {
    hide Bind, AnsweredFairly;
    var codes := w.pods[e.m].codes;
    SpendIs(codes, e.hash, e.now, e.spends);
    OnlyIsLast(codes, i);
    assert Spend(codes, e.hash, e.now, e.spends) ==
           (codes[i := codes[i].(consumedAt := e.now)], Redeemed(codes[i].(consumedAt := e.now))) by
    {
      FairlyRedeemed(codes, e.hash, e.now, i);
    }
  }

  lemma FairlyRedeemed(codes: Codes, hash: string, now: int, i: nat)
    requires IsLastWith(codes, hash, i) && codes[i].consumedAt == 0 && now < codes[i].expiresAt
    ensures Spend(codes, hash, now, true) ==
            (codes[i := codes[i].(consumedAt := now)], Redeemed(codes[i].(consumedAt := now)))
  {
    SpendIs(codes, hash, now, true);
    assert codes[i].hash == hash;
  }

  /** Over every run, the steps that redeem anything are exactly the claims at a pod that is up,
      of a digest it holds unspent and in date, whose mark could be written; and such a step
      redeems that one digest, and marks that one record at that instant. */
  lemma OnlyLiveCodesAreRedeemed(c: Config, events: seq<Event>, e: Event)
    ensures var w := Run(c, EMPTY, events); var v := Step(c, w, e);
            && (|v.redeemed| > |w.redeemed| <==> exists i: nat :: Claimable(w, e, i))
            && (|v.redeemed| > |w.redeemed| || v.redeemed == w.redeemed)
            && forall i: nat :: Claimable(w, e, i) ==>
                 && v.redeemed == w.redeemed + [e.hash] && e.m in v.pods
                 && v.pods[e.m].codes == w.pods[e.m].codes[i := w.pods[e.m].codes[i].(consumedAt := e.now)]
  {
    hide Step, CodesOk, Claimable;
    var w := Run(c, EMPTY, events);
    RedeemedOnce(c, events);
    if |Step(c, w, e).redeemed| > |w.redeemed| {
      StepsThatRedeem(c, w, e);
    }
    forall i: nat | Claimable(w, e, i)
      ensures e.Redeem? && e.m in w.pods && i < |w.pods[e.m].codes| && e.m in Step(c, w, e).pods
      ensures Step(c, w, e).redeemed == w.redeemed + [e.hash]
      ensures Step(c, w, e).pods[e.m].codes == w.pods[e.m].codes[i := w.pods[e.m].codes[i].(consumedAt := e.now)]
    {
      ClaimableIsThere(w, e, i);
      ClaimsThatRedeem(c, w, e, i);
    }
    RedeemedGrows(c, w, e);
  }

  lemma ClaimableIsThere(w: World, e: Event, i: nat)
    requires Claimable(w, e, i)
    ensures e.Redeem? && e.m in w.pods && i < |w.pods[e.m].codes|
  {
  }

  lemma RedeemedGrows(c: Config, w: World, e: Event)
    ensures |Step(c, w, e).redeemed| > |w.redeemed| || Step(c, w, e).redeemed == w.redeemed
  {
  }

  // ---- a code that was minted can be claimed ----

  /** A copy into a store that does not know the digest brings that very record. */
  lemma CopyBrings(dst: Codes, src: Codes, keep: Code -> bool, writes: nat, x: Code)
    requires x in src && keep(x) && (forall y :: y in src && y.hash == x.hash ==> y == x)
    requires !Knows(dst, x.hash) && Copied(dst, src, keep, writes).1
    ensures x in Copied(dst, src, keep, writes).0
  {
    var r := Copied(dst, src, keep, writes).0;
    CopyLeavesNothingOut(dst, src, keep, writes);
    CopyKeepsWhatWasThere(dst, src, keep, writes);
    var n :| 0 <= n < |src| && src[n] == x;
    var i :| 0 <= i < |r| && r[i].hash == x.hash;
    assert forall j :: 0 <= j < |dst| ==> r[j] == dst[j];
  }

  /** Every record of this digest, in the host's store and in a seed, is the one minted; in its
      member's pod it is that or spent, and once it is spent it has been redeemed. */
  ghost predicate Minted(w: World, x: Code) {
    && CodesOk(w) && x in w.host && x in SeedOf(w, x.member)
    && (forall y :: y in SeedOf(w, x.member) && y.hash == x.hash ==> y == x)
    && (forall y :: y in PodOf(w, x.member).codes && y.hash == x.hash ==> y == x || x.hash in w.redeemed)
  }

  lemma OnlyOneOnTheHost(codes: Codes, x: Code)
    requires Distinct(codes) && x in codes
    ensures forall y :: y in codes && y.hash == x.hash ==> y == x
  {
  }

  lemma UnknownToTheHost(w: World, codes: Codes, m: MemberId, hash: string)
    requires Belongs(w, codes, m) && !Knows(w.host, hash)
    ensures forall y :: y in codes ==> y.hash != hash
  {
    forall y | y in codes ensures y.hash != hash {
      var j :| 0 <= j < |w.host| && w.host[j].hash == y.hash && w.host[j].member == m;
    }
  }

  lemma MintingMints(c: Config, w: World, x: Code, now: int, writes: nat)
    requires CodesOk(w) && !Knows(w.host, x.hash) && x.Live(now) && writes > |w.host|
    ensures Minted(Step(c, w, Mint(x, now, true, writes)), x)
  {
    var host, m := w.host + [x], x.member;
    var keep := (y: Code) => y.Live(now) && y.member == m;
    UnknownToTheHost(w, SeedOf(w, m), m, x.hash);
    UnknownToTheHost(w, PodOf(w, m).codes, m, x.hash);
    StepKeepsCodes(c, w, Mint(x, now, true, writes));
    OnlyOneOnTheHost(host, x);
    assert x in host by { assert host[|w.host|] == x; }
    CopyLeavesNothingOut(SeedOf(w, m), host, keep, writes);
    CopyBrings(SeedOf(w, m), host, keep, writes, x);
    CopyKeepsWhatWasThere(SeedOf(w, m), host, keep, writes);
  }

  lemma StepKeepsMinted(c: Config, w: World, e: Event, x: Code)
    requires Minted(w, x)
    ensures Minted(Step(c, w, e), x)
  {
    hide CodesOk, AnsweredFairly, Bind;
    StepKeepsCodes(c, w, e);
    match e
    case Mint(_, _, _, _) => MintKeepsMinted(c, w, e, x);
    case Revoke(_, _) =>
    case Start(m, works, writes) => StartKeepsMinted(c, w, m, works, writes, x);
    case Redeem(_, _, _, _, _, _) => RedeemKeepsMinted(c, w, e, x);
  }

  lemma MintKeepsMinted(c: Config, w: World, e: Event, x: Code)
    requires Minted(w, x) && e.Mint? && CodesOk(Step(c, w, e))
    ensures Minted(Step(c, w, e), x)
  {
    hide CodesOk;
    var v := Step(c, w, e);
    if v != w {
      var keep := (y: Code) => y.Live(e.now) && y.member == e.c.member;
      CopyKeepsWhatWasThere(SeedOf(w, e.c.member), w.host + [e.c], keep, e.writes);
      HostIsDistinct(v);
      OnlyOneOnTheHost(v.host, x);
    }
  }

  lemma HostIsDistinct(w: World)
    requires CodesOk(w)
    ensures Distinct(w.host)
  {
  }

  lemma StartKeepsMinted(c: Config, w: World, m: MemberId, works: bool, writes: nat, x: Code)
    requires Minted(w, x) && CodesOk(Step(c, w, Start(m, works, writes)))
    ensures Minted(Step(c, w, Start(m, works, writes)), x)
  {
    hide CodesOk, Revoked, Opens, Opened;
    CopyKeepsWhatWasThere(PodOf(w, m).codes, SeedOf(w, m), _ => true, writes);
  }

  lemma RedeemKeepsMinted(c: Config, w: World, e: Event, x: Code)
    requires Minted(w, x) && e.Redeem? && CodesOk(Step(c, w, e))
    ensures Minted(Step(c, w, e), x)
  {
    hide CodesOk, Bind;
    if Step(c, w, e) != w {
      RedeemShape(c, w, e);
    }
  }

  lemma {:induction false} RunKeepsMinted(c: Config, w: World, events: seq<Event>, x: Code)
    requires Minted(w, x)
    ensures Minted(Run(c, w, events), x)
  {
    hide Step, Minted;
    if events != [] {
      RunKeepsMinted(c, w, events[..|events| - 1], x);
      StepKeepsMinted(c, Run(c, w, events[..|events| - 1]), events[|events| - 1], x);
    }
  }

  lemma StartedHolds(c: Config, w: World, x: Code, works: bool, writes: nat)
    requires Minted(w, x) && x.hash !in w.redeemed
    ensures var p := Step(c, w, Start(x.member, works, writes)).pods[x.member]; p.house.Some? ==> x in p.codes
  {
    hide CodesOk, Revoked, Opens, Opened;
    var p := Step(c, w, Start(x.member, works, writes)).pods[x.member];
    if p.house.Some? {
      var codes := PodOf(w, x.member).codes;
      if Knows(codes, x.hash) {
        var i :| 0 <= i < |codes| && codes[i].hash == x.hash;
        CopyKeepsWhatWasThere(codes, SeedOf(w, x.member), _ => true, writes);
        assert p.codes[i] == x;
      } else {
        CopyBrings(codes, SeedOf(w, x.member), _ => true, writes, x);
      }
    }
  }

  /** A code minted on the host in any run, and exported, is good in its member's pod from any
      start that comes up, through anything in between, until it is redeemed or past its date. */
  lemma MintedCodeIsGood(c: Config, before: seq<Event>, x: Code, now: int, exports: nat, between: seq<Event>,
                         works: bool, writes: nat, user: int, at: int, binds: bool)
    requires !Knows(Run(c, EMPTY, before).host, x.hash) && x.Live(now) && exports > |Run(c, EMPTY, before).host|
    requires at != 0 && at < x.expiresAt
    requires var v := Run(c, Step(c, Run(c, EMPTY, before), Mint(x, now, true, exports)), between);
             x.hash !in v.redeemed && Step(c, v, Start(x.member, works, writes)).pods[x.member].house.Some?
    ensures var v := Run(c, Step(c, Run(c, EMPTY, before), Mint(x, now, true, exports)), between);
            Step(c, Step(c, v, Start(x.member, works, writes)), Redeem(x.member, x.hash, user, at, true, binds)).redeemed ==
            v.redeemed + [x.hash]
  {
    hide Step, CodesOk, Knows;
    var w := Run(c, EMPTY, before);
    RedeemedOnce(c, before);
    MintingMints(c, w, x, now, exports);
    RunKeepsMinted(c, Step(c, w, Mint(x, now, true, exports)), between, x);
    var v := Run(c, Step(c, w, Mint(x, now, true, exports)), between);
    StartedHolds(c, v, x, works, writes);
    StepKeepsMinted(c, v, Start(x.member, works, writes), x);
    GoodCodeIsTaken(c, v, x, works, writes, Redeem(x.member, x.hash, user, at, true, binds));
  }

  lemma GoodCodeIsTaken(c: Config, v: World, x: Code, works: bool, writes: nat, e: Event)
    requires var u := Step(c, v, Start(x.member, works, writes));
             CodesOk(v) && CodesOk(u) && x in u.pods[x.member].codes && u.pods[x.member].house.Some?
    requires e.Redeem? && e.m == x.member && e.hash == x.hash && e.spends && e.now != 0
    requires x.consumedAt == 0 && e.now < x.expiresAt
    ensures Step(c, Step(c, v, Start(x.member, works, writes)), e).redeemed == v.redeemed + [x.hash]
  {
    hide CodesOk;
    var u := Step(c, v, Start(x.member, works, writes));
    var i: nat :| i < |u.pods[x.member].codes| && u.pods[x.member].codes[i] == x;
    assert Claimable(u, e, i);
    ClaimsThatRedeem(c, u, e, i);
  }
}
