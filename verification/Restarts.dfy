/** Runs of the binder with restarts anywhere in them: each opens the configuration again over
    whatever the file has come to say. */
module Restarts {
  import opened Optionals
  import opened Text
  import opened HouseholdState
  import opened HouseholdRuns

  datatype Life = Does(e: Event) | Restart

  /** What a process is started with. */
  datatype Setup = Setup(cfg: seq<Member>, shared: string, tiers: seq<string>)
  {
    ghost predicate Ok(declared: set<MemberId>) {
      Declared(cfg) && forall i :: 0 <= i < |cfg| ==> cfg[i].id in declared
    }

    function Open(file: State): Household { Opened(cfg, shared, tiers, file) }
  }

  /** A restart that is refused leaves the household as it was. */
  ghost function StepLife(u: Setup, h: Household, l: Life): Household {
    match l
    case Does(e) => Step(h, e)
    case Restart => if Opens(u.cfg, u.tiers, h.disk) then u.Open(h.disk) else h
  }

  ghost function Live(u: Setup, h: Household, lives: seq<Life>): Household {
    if lives == [] then h else StepLife(u, Live(u, h, lives[..|lives| - 1]), lives[|lives| - 1])
  }

  ghost predicate AtHome(u: Setup, h: Household) {
    forall m :: m in u.cfg ==> StillThere(m, h)
  }

  /** Whenever the process restarts, no member with a declared account has left it. */
  ghost predicate RestartsAtHome(u: Setup, h: Household, lives: seq<Life>) {
    forall i :: 0 <= i < |lives| && lives[i].Restart? ==> AtHome(u, Live(u, h, lives[..i]))
  }

  ghost predicate Lives(u: Setup, h: Household, declared: set<MemberId>) {
    Sound(h, declared) && Unrecorded(h, u.cfg) && HoldsAll(h, u.cfg)
  }

  ghost predicate Startable(u: Setup) {
    && (forall t :: t in u.tiers ==> TrimSpace(t) != "")
    && (forall i :: 0 <= i < |u.cfg| ==> u.cfg[i].id != "")
    && (forall i, j :: 0 <= i < j < |u.cfg| ==> u.cfg[i].id != u.cfg[j].id)
  }

  lemma RestartKeeps(u: Setup, h: Household, declared: set<MemberId>)
    requires u.Ok(declared) && Startable(u) && Lives(u, h, declared) && AtHome(u, h)
    ensures Lives(u, StepLife(u, h, Restart), declared)
  {
    SurvivesIff(u.cfg, u.tiers, h, declared);
    RestartIsSound(u.cfg, u.shared, u.tiers, h, declared);
    OpensUnrecorded(u.cfg, u.shared, u.tiers, h.disk);
  }

  lemma {:induction false} LivesKeep(u: Setup, h: Household, lives: seq<Life>, declared: set<MemberId>)
    requires u.Ok(declared) && Startable(u) && Lives(u, h, declared) && RestartsAtHome(u, h, lives)
    ensures Lives(u, Live(u, h, lives), declared)
  {
    hide Step, Sound, Unrecorded, HoldsAll;
    if lives != [] {
      var n := |lives| - 1;
      forall i | 0 <= i < n ensures lives[..n][..i] == lives[..i] && lives[..n][i] == lives[i] {
      }
      assert RestartsAtHome(u, h, lives[..n]);
      LivesKeep(u, h, lives[..n], declared);
      var before := Live(u, h, lives[..n]);
      match lives[n]
      case Does(e) =>
        StepSound(before, e, declared);
        StepUnrecorded(before, e, u.cfg, declared);
      case Restart =>
        RestartKeeps(u, before, declared);
    }
  }

  /** Through claims, revocations, answers and restarts in any order: one account to one member,
      memory saying what the file says, and another restart giving every declared member the
      account and the time they have exactly when no declared account has been left. */
  lemma AnyLifeIsSound(u: Setup, file: State, lives: seq<Life>, declared: set<MemberId>)
    requires u.Ok(declared) && Opens(u.cfg, u.tiers, file) && OneHolder(u.Open(file)) && OneRow(file)
    requires RestartsAtHome(u, u.Open(file), lives)
    ensures var h := Live(u, u.Open(file), lives);
            && Sound(h, declared)
            && (Survives(u.cfg, u.tiers, h) <==> AtHome(u, h))
  {
    OpensSound(u.cfg, u.shared, u.tiers, file, declared);
    OpensUnrecorded(u.cfg, u.shared, u.tiers, file);
    LivesKeep(u, u.Open(file), lives, declared);
    SurvivesIff(u.cfg, u.tiers, Live(u, u.Open(file), lives), declared);
  }

  /** Where the configuration declares no accounts all of that holds of every life there is. */
  lemma UndeclaredSurvivesAnything(u: Setup, file: State, lives: seq<Life>, declared: set<MemberId>)
    requires u.Ok(declared) && Opens(u.cfg, u.tiers, file) && OneHolder(u.Open(file)) && OneRow(file)
    requires forall m :: m in u.cfg ==> m.telegramId == 0
    ensures var h := Live(u, u.Open(file), lives); Sound(h, declared) && Survives(u.cfg, u.tiers, h)
  {
    AnyLifeIsSound(u, file, lives, declared);
  }
}
