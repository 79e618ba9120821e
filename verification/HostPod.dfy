/** Enrolment across two machines: codes minted on the host and spent in a member's pod,
    revocations recorded on the host and applied by the pod as it starts. Nothing crosses
    but the two files a pod is given when it is created. */
module HostPod {
  import opened Optionals
  import opened HouseholdState
  import opened HouseholdRuns
  import opened Invites

  /** The configuration every process is given: the members as the file declares them. */
  datatype Config = Config(members: seq<Member>, shared: string)
  {
    ghost predicate WellFormed() {
      && Declared(members)
      && (forall i :: 0 <= i < |members| ==> members[i].id != "")
      && (forall i, j :: 0 <= i < j < |members| ==> members[i].id != members[j].id)
    }
  }

  /** A pod's volume, and the household it is serving if it came up. */
  datatype Pod = Pod(codes: Codes, state: State, house: Option<Household>)

  /** `redeemed` is every redemption there has ever been, in order. */
  datatype World = World(
    host: Codes, seeds: map<MemberId, Codes>, revoked: map<MemberId, int>,
    pods: map<MemberId, Pod>, redeemed: seq<string>)

  const EMPTY := World([], map[], map[], map[], [])

  function PodOf(w: World, m: MemberId): Pod {
    if m in w.pods then w.pods[m] else Pod([], State(map[], map[]), None)
  }

  function SeedOf(w: World, m: MemberId): Codes {
    if m in w.seeds then w.seeds[m] else []
  }

  // ---- a pod starting ----

  /** The configuration as Load leaves it, the file's rows folded in. */
  function Loaded(rows: seq<Member>, s: State): seq<Member> {
    seq(|rows|, i requires 0 <= i < |rows| => Folded(rows[i], s))
  }

  function IndexOf(rows: seq<Member>, m: MemberId): (r: Option<nat>)
    ensures r.Some? ==> r.value < |rows| && rows[r.value].id == m && forall j :: 0 <= j < r.value ==> rows[j].id != m
    ensures r.None? ==> forall j :: 0 <= j < |rows| ==> rows[j].id != m
  {
    if rows == [] then None
    else if rows[0].id == m then Some(0)
    else
      var r := IndexOf(rows[1..], m);
      if r.None? then None else Some(r.value + 1)
  }

  /** The record asks for this pod's member to be unbound: they are bound, and not by a claim
      made after it. */
  predicate Applies(rows: seq<Member>, m: MemberId, revokedAt: Option<int>) {
    && revokedAt.Some? && IndexOf(rows, m).Some?
    && var row := rows[IndexOf(rows, m).value];
       row.telegramId != 0 && row.enrolledAt <= revokedAt.value
  }

  function Corrected(rows: seq<Member>, m: MemberId): seq<Member> {
    seq(|rows|, i requires 0 <= i < |rows| =>
      if rows[i].id == m then rows[i].(telegramId := 0, enrolledAt := 0) else rows[i])
  }

  /** applyRevocation: the corrected rows and the state file it leaves, or the start fails. */
  function Revoked(rows: seq<Member>, shared: string, s: State, m: MemberId, revokedAt: Option<int>, works: bool):
    (seq<Member>, State, bool)
  {
    if !Applies(rows, m, revokedAt) then (rows, s, true)
    else if !Opens(rows, [], s) then (rows, s, false)
    else
      var (h, r) := Unbind(Opened(rows, shared, [], s), m, works);
      if r.Err? then (rows, s, false) else (Corrected(rows, m), h.disk, true)
  }

  function Started(c: Config, p: Pod, m: MemberId, seed: Codes, revokedAt: Option<int>, works: bool, writes: nat): Pod {
    if exists i :: 0 <= i < |c.members| && Disagrees(c.members[i], p.state) then p.(house := None)
    else
      var (rows, s, ok) := Revoked(Loaded(c.members, p.state), c.shared, p.state, m, revokedAt, works);
      if !ok then p.(state := s, house := None)
      else
        var (codes, copied) := Copied(p.codes, seed, _ => true, writes);
        Pod(codes, s, if copied && Opens(rows, [], s) then Some(Opened(rows, c.shared, [], s)) else None)
  }

  // ---- the steps ----

  datatype Event =
    | Mint(c: Code, now: int, saved: bool, writes: nat)
    | Revoke(m: MemberId, now: int)
    | Start(m: MemberId, works: bool, writes: nat)
    | Redeem(m: MemberId, hash: string, user: int, now: int, spends: bool, binds: bool)

  ghost function Step(c: Config, w: World, e: Event): World {
    match e
    case Mint(code, now, saved, writes) =>
      if !saved || code.Consumed() || Knows(w.host, code.hash) then w
      else
        var host := w.host + [code];
        w.(host := host, seeds := w.seeds[code.member :=
          Copied(SeedOf(w, code.member), host, (x: Code) => x.Live(now) && x.member == code.member, writes).0])
    case Revoke(m, now) => w.(revoked := w.revoked[m := now])
    case Start(m, works, writes) =>
      var at := if m in w.revoked then Some(w.revoked[m]) else None;
      w.(pods := w.pods[m := Started(c, PodOf(w, m), m, SeedOf(w, m), at, works, writes)])
    case Redeem(m, hash, user, now, spends, binds) =>
      var p := PodOf(w, m);
      if p.house.None? || now == 0 then w
      else
        var (codes, r) := Spend(p.codes, hash, now, spends);
        if !r.Redeemed? then w
        else
          var h := Bind(p.house.value, r.code.member, r.code.name, user, now, binds).0;
          w.(pods := w.pods[m := Pod(codes, h.disk, Some(h))], redeemed := w.redeemed + [hash])
  }

  ghost function Run(c: Config, w: World, events: seq<Event>): World {
    if events == [] then w else Step(c, Run(c, w, events[..|events| - 1]), events[|events| - 1])
  }

  // ---- codes ----

  ghost predicate HostHas(w: World, hash: string, m: MemberId) {
    exists i :: 0 <= i < |w.host| && w.host[i].hash == hash && w.host[i].member == m
  }

  /** Every record a store holds is one minted on the host for that store's member. */
  ghost predicate Belongs(w: World, codes: Codes, m: MemberId) {
    forall c :: c in codes ==> c.member == m && HostHas(w, c.hash, m)
  }

  ghost predicate SpentIn(codes: Codes, hash: string) {
    exists i :: 0 <= i < |codes| && codes[i].hash == hash && codes[i].Consumed()
  }

  ghost predicate CodesOk(w: World) {
    && Distinct(w.host)
    && (forall m :: m in w.seeds ==> Belongs(w, w.seeds[m], m))
    && (forall m :: m in w.pods ==> Distinct(w.pods[m].codes) && Belongs(w, w.pods[m].codes, m))
    && (forall h :: h in w.redeemed ==> exists m :: m in w.pods && SpentIn(w.pods[m].codes, h))
    && (forall i, j :: 0 <= i < j < |w.redeemed| ==> w.redeemed[i] != w.redeemed[j])
  }

  lemma HostHasOne(w: World, hash: string, a: MemberId, b: MemberId)
    requires Distinct(w.host) && HostHas(w, hash, a) && HostHas(w, hash, b)
    ensures a == b
  {
  }

  lemma BelongsStill(w: World, v: World, codes: Codes, m: MemberId)
    requires Belongs(w, codes, m) && w.host <= v.host
    ensures Belongs(v, codes, m)
  {
    forall c | c in codes ensures HostHas(v, c.hash, m) {
      var i :| 0 <= i < |w.host| && w.host[i].hash == c.hash && w.host[i].member == m;
      assert v.host[i] == w.host[i];
    }
  }

  lemma CopyBelongs(w: World, dst: Codes, src: Codes, keep: Code -> bool, writes: nat, m: MemberId)
    requires Belongs(w, dst, m)
    requires forall c :: c in src && keep(c) ==> c.member == m && HostHas(w, c.hash, m)
    ensures Belongs(w, Copied(dst, src, keep, writes).0, m)
  {
    CopyKeepsWhatWasThere(dst, src, keep, writes);
    var r := Copied(dst, src, keep, writes).0;
    forall c | c in r ensures c.member == m && HostHas(w, c.hash, m) {
      var i :| 0 <= i < |r| && r[i] == c;
      if i < |dst| { assert dst[i] == c; }
    }
  }

  lemma SpentStays(codes: Codes, more: Codes, hash: string)
    requires SpentIn(codes, hash)
    requires |codes| <= |more| && forall i :: 0 <= i < |codes| && codes[i].Consumed() ==> more[i] == codes[i]
    ensures SpentIn(more, hash)
  {
    var i :| 0 <= i < |codes| && codes[i].hash == hash && codes[i].Consumed();
    assert more[i].hash == hash && more[i].Consumed();
  }

  lemma MintKeeps(c: Config, w: World, e: Event)
    requires CodesOk(w) && e.Mint?
    ensures CodesOk(Step(c, w, e))
  {
    var v := Step(c, w, e);
    if v != w {
      var m := e.c.member;
      assert Distinct(v.host) by {
        forall i, j | 0 <= i < j < |v.host| ensures v.host[i].hash != v.host[j].hash {
          assert i < |w.host| && v.host[i] == w.host[i];
        }
      }
      forall x | x in v.host && x.Live(e.now) && x.member == m ensures HostHas(v, x.hash, m) {
        var i :| 0 <= i < |v.host| && v.host[i] == x;
      }
      forall k | k in w.seeds ensures Belongs(v, w.seeds[k], k) { BelongsStill(w, v, w.seeds[k], k); }
      forall k | k in w.pods ensures Belongs(v, w.pods[k].codes, k) { BelongsStill(w, v, w.pods[k].codes, k); }
      CopyBelongs(v, SeedOf(w, m), v.host, (x: Code) => x.Live(e.now) && x.member == m, e.writes, m);
    }
  }

  /** What starting does to the invite store: new codes from the seed, and nothing else. */
  lemma StartCodes(c: Config, w: World, m: MemberId, works: bool, writes: nat)
    requires CodesOk(w)
    ensures var p, q := PodOf(w, m), Step(c, w, Start(m, works, writes)).pods[m];
            p.codes <= q.codes && Distinct(q.codes) && Belongs(w, q.codes, m)
  {
    CopyKeepsWhatWasThere(PodOf(w, m).codes, SeedOf(w, m), _ => true, writes);
    CopyBelongs(w, PodOf(w, m).codes, SeedOf(w, m), _ => true, writes, m);
  }

  lemma StartKeeps(c: Config, w: World, m: MemberId, works: bool, writes: nat)
    requires CodesOk(w)
    ensures CodesOk(Step(c, w, Start(m, works, writes)))
  {
    var v := Step(c, w, Start(m, works, writes));
    StartCodes(c, w, m, works, writes);
    forall k | k in v.pods ensures Distinct(v.pods[k].codes) && Belongs(v, v.pods[k].codes, k) {
      if k in w.pods && k != m { BelongsStill(w, v, w.pods[k].codes, k); }
      if k == m { BelongsStill(w, v, v.pods[k].codes, k); }
    }
    forall k | k in v.seeds ensures Belongs(v, v.seeds[k], k) { BelongsStill(w, v, w.seeds[k], k); }
    forall h | h in v.redeemed ensures exists k :: k in v.pods && SpentIn(v.pods[k].codes, h) {
      var k :| k in w.pods && SpentIn(w.pods[k].codes, h);
      if k == m { SpentStays(w.pods[m].codes, v.pods[m].codes, h); }
      assert SpentIn(v.pods[k].codes, h);
    }
  }

  lemma SpendShape(codes: Codes, hash: string, now: int, works: bool)
    requires Spend(codes, hash, now, works).1.Redeemed? && now != 0
    ensures var r := Spend(codes, hash, now, works).0; var i := LastWith(codes, hash).value;
            && !codes[i].Consumed() && codes[i].hash == hash
            && r == codes[i := codes[i].(consumedAt := now)] && SpentIn(r, hash)
  {
    var r := Spend(codes, hash, now, works).0;
    var i := LastWith(codes, hash).value;
    assert r[i].hash == hash && r[i].Consumed();
  }

  /** A digest some pod has spent is live in no pod at all. */
  lemma SpentIsNotLiveAnywhere(w: World, m: MemberId, i: nat)
    requires CodesOk(w) && m in w.pods && i < |w.pods[m].codes| && w.pods[m].codes[i].hash in w.redeemed
    ensures w.pods[m].codes[i].Consumed()
  {
    var hash := w.pods[m].codes[i].hash;
    var k :| k in w.pods && SpentIn(w.pods[k].codes, hash);
    var j :| 0 <= j < |w.pods[k].codes| && w.pods[k].codes[j].hash == hash && w.pods[k].codes[j].Consumed();
    assert w.pods[k].codes[j] in w.pods[k].codes && w.pods[m].codes[i] in w.pods[m].codes;
    HostHasOne(w, hash, k, m);
  }

  /** What a redemption that goes through does to the world. */
  lemma RedeemShape(c: Config, w: World, e: Event)
    requires e.Redeem? && Step(c, w, e) != w
    ensures var v, m := Step(c, w, e), e.m;
            && m in w.pods && m in v.pods && v.host == w.host && v.seeds == w.seeds && v.revoked == w.revoked
            && v.pods == w.pods[m := v.pods[m]] && v.redeemed == w.redeemed + [e.hash]
            && LastWith(w.pods[m].codes, e.hash).Some?
            && var i := LastWith(w.pods[m].codes, e.hash).value;
               var x := w.pods[m].codes[i];
               && !x.Consumed() && e.now != 0
               && v.pods[m].codes == w.pods[m].codes[i := x.(consumedAt := e.now)]
  {
    SpendShape(w.pods[e.m].codes, e.hash, e.now, e.spends);
  }

  lemma MarkKeepsBelonging(w: World, v: World, codes: Codes, i: nat, now: int, m: MemberId)
    requires Belongs(w, codes, m) && i < |codes| && v.host == w.host
    ensures Belongs(v, codes[i := codes[i].(consumedAt := now)], m)
  {
    var after := codes[i := codes[i].(consumedAt := now)];
    forall x | x in after ensures x.member == m && HostHas(v, x.hash, m) {
      var j :| 0 <= j < |after| && after[j] == x;
      assert codes[j] in codes && codes[j].hash == x.hash;
      assert HostHas(w, x.hash, m);
    }
  }

  lemma MarkKeepsSpent(codes: Codes, i: nat, now: int, h: string)
    requires i < |codes| && !codes[i].Consumed() && now != 0
    ensures SpentIn(codes, h) || h == codes[i].hash ==> SpentIn(codes[i := codes[i].(consumedAt := now)], h)
  {
    var after := codes[i := codes[i].(consumedAt := now)];
    assert after[i].Consumed();
    if SpentIn(codes, h) { SpentStays(codes, after, h); }
  }

  lemma RedeemKeepsSpent(c: Config, w: World, e: Event, h: string)
    requires CodesOk(w) && e.Redeem? && Step(c, w, e) != w && h in Step(c, w, e).redeemed
    ensures var v := Step(c, w, e); exists k :: k in v.pods && SpentIn(v.pods[k].codes, h)
  {
    var v := Step(c, w, e);
    RedeemShape(c, w, e);
    MarkKeepsSpent(w.pods[e.m].codes, LastWith(w.pods[e.m].codes, e.hash).value, e.now, h);
    if h == e.hash {
      assert SpentIn(v.pods[e.m].codes, h);
    } else {
      var k :| k in w.pods && SpentIn(w.pods[k].codes, h);
      assert SpentIn(v.pods[k].codes, h);
    }
  }

  lemma RedeemKeeps(c: Config, w: World, e: Event)
    requires CodesOk(w) && e.Redeem?
    ensures CodesOk(Step(c, w, e))
  {
    var v := Step(c, w, e);
    if v != w {
      RedeemShape(c, w, e);
      var i := LastWith(w.pods[e.m].codes, e.hash).value;
      if e.hash in w.redeemed {
        SpentIsNotLiveAnywhere(w, e.m, i);
      }
      MarkKeepsBelonging(w, v, w.pods[e.m].codes, i, e.now, e.m);
      forall k | k in w.pods && k != e.m ensures Belongs(v, v.pods[k].codes, k) { BelongsStill(w, v, w.pods[k].codes, k); }
      forall k | k in w.seeds ensures Belongs(v, v.seeds[k], k) { BelongsStill(w, v, w.seeds[k], k); }
      forall h | h in v.redeemed ensures exists k :: k in v.pods && SpentIn(v.pods[k].codes, h) {
        RedeemKeepsSpent(c, w, e, h);
      }
    }
  }

  lemma StepKeepsCodes(c: Config, w: World, e: Event)
    requires CodesOk(w)
    ensures CodesOk(Step(c, w, e))
  {
    match e
    case Mint(_, _, _, _) => MintKeeps(c, w, e);
    case Revoke(m, now) =>
      var v := Step(c, w, e);
      forall k | k in w.seeds ensures Belongs(v, v.seeds[k], k) { BelongsStill(w, v, w.seeds[k], k); }
      forall k | k in w.pods ensures Belongs(v, v.pods[k].codes, k) { BelongsStill(w, v, w.pods[k].codes, k); }
    case Start(m, works, writes) => StartKeeps(c, w, m, works, writes);
    case Redeem(_, _, _, _, _, _) => RedeemKeeps(c, w, e);
  }

  /** Over any run of mints, exports, starts, revocations and claims, in as many pods as there
      are members: no code is redeemed twice. */
  lemma {:induction false} RedeemedOnce(c: Config, events: seq<Event>)
    ensures CodesOk(Run(c, EMPTY, events))
    ensures var r := Run(c, EMPTY, events).redeemed; forall i, j :: 0 <= i < j < |r| ==> r[i] != r[j]
  {
    if events != [] {
      RedeemedOnce(c, events[..|events| - 1]);
      StepKeepsCodes(c, Run(c, EMPTY, events[..|events| - 1]), events[|events| - 1]);
    }
  }

  /** And a record once marked spent in a pod's store is there, spent, ever after, whatever
      seeds are imported over it. */
  lemma {:induction false} SpentForGood(c: Config, before: seq<Event>, after: seq<Event>, m: MemberId, i: nat)
    requires var w := Run(c, EMPTY, before); m in w.pods && i < |w.pods[m].codes| && w.pods[m].codes[i].Consumed()
    ensures var w := Run(c, EMPTY, before); var v := Run(c, w, after);
            CodesOk(v) && m in v.pods && i < |v.pods[m].codes| && v.pods[m].codes[i] == w.pods[m].codes[i]
  {
    RedeemedOnce(c, before);
    if after != [] {
      var w := Run(c, EMPTY, before);
      var u, e := Run(c, w, after[..|after| - 1]), after[|after| - 1];
      SpentForGood(c, before, after[..|after| - 1], m, i);
      StepKeepsCodes(c, u, e);
      SpentAfterStep(c, u, e, m, i);
    }
  }

  lemma SpentAfterStep(c: Config, u: World, e: Event, m: MemberId, i: nat)
    requires CodesOk(u) && m in u.pods && i < |u.pods[m].codes| && u.pods[m].codes[i].Consumed()
    ensures var v := Step(c, u, e); m in v.pods && i < |v.pods[m].codes| && v.pods[m].codes[i] == u.pods[m].codes[i]
  {
    if e.Start? {
      StartCodes(c, u, e.m, e.works, e.writes);
    } else if e.Redeem? && Step(c, u, e) != u {
      RedeemShape(c, u, e);
    }
  }
}
