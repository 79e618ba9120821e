/** What the engine does with a proposal that goes ahead and with each thing it is told back:
    every yes is written, every no is recorded, every failure is told, and no button that is
    shown can only fail. */
module CaptureAnswers {
  import opened Optionals
  import opened Text
  import opened Capture
  import opened Offers
  import opened OfferProofs
  import opened CaptureRuns
  import opened CaptureTheorems
  import opened Titles

  // ---- where the shared space is ----

  lemma {:induction false} FirstOtherIs(read: seq<SpaceId>, write: SpaceId, s: SpaceId)
    ensures FirstOther(read, write) == Some(s) <==>
            exists i :: 0 <= i < |read| && read[i] == s && s != write && s != "" &&
                        forall j :: 0 <= j < i ==> read[j] == write || read[j] == ""
    ensures FirstOther(read, write) == None <==> forall i :: 0 <= i < |read| ==> read[i] == write || read[i] == ""
  {
    if read != [] {
      var rest := read[1..];
      FirstOtherIs(rest, write, s);
      forall i | 1 <= i < |read| ensures read[i] == rest[i - 1] {
      }
      forall i | 0 <= i < |rest| ensures rest[i] == read[i + 1] {
      }
      if read[0] == write || read[0] == "" {
        if i :| 0 <= i < |rest| && rest[i] == s && s != write && s != "" &&
                forall j :: 0 <= j < i ==> rest[j] == write || rest[j] == ""
        {
          assert read[i + 1] == s;
        }
        if i :| 0 <= i < |read| && read[i] == s && s != write && s != "" &&
                forall j :: 0 <= j < i ==> read[j] == write || read[j] == ""
        {
          assert i > 0 && rest[i - 1] == s;
        }
      }
    }
  }

  /** The shared space is the conversation's own outside a member's chat, and in one the first
      readable space that is another, or the one the engine was built with. */
  lemma SharedSpaceIs(o: Options, sc: Scope, s: SpaceId)
    ensures SharedSpace(o, sc) == Some(s) <==>
            && s != ""
            && if !sc.AllowsPrivateCapture() then s == sc.write
               else if forall i :: 0 <= i < |sc.read| ==> sc.read[i] == sc.write || sc.read[i] == "" then s == o.shared
               else exists i :: 0 <= i < |sc.read| && sc.read[i] == s && s != sc.write &&
                                forall j :: 0 <= j < i ==> sc.read[j] == sc.write || sc.read[j] == ""
  {
    FirstOtherIs(sc.read, sc.write, s);
    if FirstOther(sc.read, sc.write).Some? {
      FirstOtherIs(sc.read, sc.write, FirstOther(sc.read, sc.write).value);
    }
  }

  // ---- what a granted offer opens with ----

  /** The buttons under a question: each destination there is and the proposal leaves open, and
      the way out, last. */
  ghost predicate Buttons(o: Options, sc: Scope, target: Target, choices: seq<Choice>) {
    && (ChoicePersonal in choices <==> sc.AllowsPrivateCapture() && !target.Shared?)
    && (ChoiceShared in choices <==> SharedSpace(o, sc).Some? && !(sc.AllowsPrivateCapture() && target.Personal?))
    && 2 <= |choices| <= 3 && choices[|choices| - 1] == ChoiceDecline
    && (forall i :: 0 <= i < |choices| - 1 ==> choices[i] == ChoicePersonal || choices[i] == ChoiceShared)
    && (forall i, j :: 0 <= i < j < |choices| ==> choices[i] != choices[j])
  }

  lemma QuestionButtons(o: Options, sc: Scope, target: Target)
    ensures Question(o, sc, target).None? <==> SharedSpace(o, sc).None? && (!sc.AllowsPrivateCapture() || target.Shared?)
    ensures Question(o, sc, target).Some? ==> Buttons(o, sc, target, Question(o, sc, target).value)
  {
    hide SharedSpace;
    if Question(o, sc, target).Some? {
      var choices := Question(o, sc, target).value;
      assert |choices| == 3 ==> choices[2] == ChoiceDecline;
      assert |choices| == 2 ==> choices[1] == ChoiceDecline;
    }
  }

  /** A proposal that goes ahead is written at once exactly in a member's own chat, called
      personal, where the household saves before asking. Otherwise it is put as a question,
      except where every destination it could have is the shared one and there is none. */
  lemma GoingAhead(o: Options, sc: Scope, p: Proposal, speaker: int, turn: nat)
    ensures var f := Launch(o, sc, p, speaker, turn);
            var unasked := o.privateWrites.SaveFirst? && sc.AllowsPrivateCapture() && p.target.Personal?;
            var nowhere := SharedSpace(o, sc).None? && (!sc.AllowsPrivateCapture() || p.target.Shared?);
            && f.title == TrimSpace(p.title)
            && f.body == (if o.english then p.body else o.fold(TrimSpace(p.title), p.body, p.aliases))
            && f.scope == sc && f.target == p.target && f.speaker == speaker && f.turn == turn && f.charged
            && (unasked <==> f.trace == [Put(sc.write, f.title, f.body)])
            && (nowhere <==> f.trace == [])
            && (!unasked && !nowhere <==>
                  |f.trace| == 1 && f.trace[0].Asked? && Buttons(o, sc, p.target, f.trace[0].choices))
            && f.stage == (if unasked then Storing(sc.write, false) else if nowhere then Unbuilt else Asking)
  {
    hide Question, SharedSpace, TrimSpace, Buttons;
    QuestionButtons(o, sc, p.target);
    var f := Launch(o, sc, p, speaker, turn);
    if WritesPrivateDirectly(o, sc, p.target) {
      assert f.trace == [Put(sc.write, f.title, f.body)];
    } else if Question(o, sc, p.target).Some? {
      assert f.trace == [Asked(f.title, f.body, Question(o, sc, p.target).value, speaker)];
    }
  }

  /** An offer is considered at all, and only then is its conversation looked up, where the
      conversation is resolved and the title is more than white space. */
  lemma NothingToOffer(o: Options, s: System, id: nat, sc: Scope, p: Proposal, speaker: int)
    requires id !in s.flights
    ensures var t := Step(o, s, Open(id, sc, p, speaker));
            var nameless := forall i :: 0 <= i < |p.title| ==> IsSpace(p.title[i]);
            && (sc.kind.Unresolved? <==> t.flights[id].stage == Done(Failed(UnresolvedScope)))
            && (!sc.kind.Unresolved? && nameless <==> t.flights[id].stage == Done(Failed(EmptyDraft)))
            && (sc.kind.Unresolved? || nameless ==> t == s.(flights := s.flights[id := t.flights[id]]) && t.flights[id].trace == [])
            && (!sc.kind.Unresolved? && !nameless ==> t.touches == s.touches + [sc.Key()])
  {
    hide TrimSpace, Launch, Reserve, NormalizeTitle;
    var _, _ := TrimSpaceIs(p.title);
    var v := Reserve(s.book, sc.Key(), NormalizeTitle(TrimSpace(p.title)), speaker, o).1;
    if v.Granted? { GoingAhead(o, sc, p, speaker, v.turn); }
  }

  /** A promotion reads the entry from the member's own space exactly in their own chat with
      somewhere shared to publish to; that there is nowhere is told, and elsewhere it does not apply. */
  lemma PromotionOpens(o: Options, sc: Scope, entry: string, speaker: int)
    ensures var f := LaunchPromotion(o, sc, entry, speaker);
            && (forall to :: f.stage == Reading(sc.write, to, entry) <==> sc.kind.Direct? && SharedSpace(o, sc) == Some(to))
            && (sc.kind.Unresolved? <==> f.stage == Done(Failed(UnresolvedScope)))
            && (f.stage == Done(NotApplicable) <==> sc.kind.Group? || sc.kind.Household?)
            && (f.stage == Done(Failed(NoSharedSpace)) <==> sc.kind.Direct? && SharedSpace(o, sc).None?)
            && f.trace == (if f.stage == Done(Failed(NoSharedSpace)) then [Told] else [])
            && f.speaker == speaker && !f.charged
  {
    hide SharedSpace;
    assert [] + [Told] == [Told];
  }

  // ---- what each reply makes happen ----

  /** An answer in time from the member asked. */
  predicate Heeded(f: Flight, r: Reply) {
    r.Answer? && !r.timedOut && r.user == f.speaker
  }

  /** At the question: what was shown is put to the member's own space on Personal where there
      is one, to the shared space on Shared where there is one, and otherwise nowhere. A refusal
      is for a no and a lapse alone; a choice that cannot be honoured is told. */
  lemma AnswersAreActedOn(o: Options, f: Flight, r: Reply)
    requires f.stage.Asking? && r.Answer?
    ensures var (g, op) := Advance(o, f, r);
            var past := f.trace + [Heard(r.user, r.choice, r.timedOut)];
            var no := !r.choice.ChoicePersonal? && !r.choice.ChoiceShared?;
            && (forall s :: g.trace == past + [Put(s, f.title, f.body)] && g.stage == Storing(s, true) <==>
                  Heeded(f, r) && if r.choice.ChoicePersonal? then f.scope.AllowsPrivateCapture() && s == f.scope.write
                                  else r.choice.ChoiceShared? && SharedSpace(o, f.scope) == Some(s))
            && (g.stage.Storing? || g.trace == past || g.trace == past + [Told])
            && (op.Refusing? <==> r.timedOut || (r.user == f.speaker && no)) && (op.NoOp? <==> !op.Refusing?)
            && (g.stage == Done(TimedOut) <==> !Heeded(f, r))
            && (g.stage == Done(Declined) <==> Heeded(f, r) && no)
            && (g.stage == Done(Failed(PersonalNotAllowed)) <==>
                  Heeded(f, r) && r.choice.ChoicePersonal? && !f.scope.AllowsPrivateCapture())
            && (g.stage == Done(Failed(NoSharedSpace)) <==>
                  Heeded(f, r) && r.choice.ChoiceShared? && SharedSpace(o, f.scope).None?)
            && (g.stage.Done? && g.stage.outcome.Failed? <==> g.trace == past + [Told])
  {
    var (g, op) := Advance(o, f, r);
    var past := f.trace + [Heard(r.user, r.choice, r.timedOut)];
    assert |g.trace| <= |past| + 1 && (|g.trace| > |past| ==> g.trace[|past|] == if g.stage.Storing? then Put(g.stage.space, f.title, f.body) else Told);
  }

  /** Under the announcement only Undo does anything, and it both deletes that entry and records
      a refusal; whatever else comes back, the write stands and nothing more is said of it. */
  lemma UndoIsActedOn(o: Options, f: Flight, r: Reply)
    requires f.stage.Announced? && r.Answer?
    ensures var (g, op) := Advance(o, f, r);
            var past := f.trace + [Heard(r.user, r.choice, r.timedOut)];
            if Heeded(f, r) && r.choice.ChoiceUndo?
            then g == f.(trace := past + [Delete(f.stage.space, f.stage.id)], stage := Deleting(f.stage.space, f.stage.id))
                 && op.Refusing?
            else g == f.(trace := past, stage := Done(Saved(f.stage.space, f.stage.id))) && op.NoOp?
  {
  }

  /** Under the question of a promotion only Publish does anything, and it shares that entry. */
  lemma PublishIsActedOn(o: Options, f: Flight, r: Reply)
    requires f.stage.Confirming? && r.Answer?
    ensures var (g, op) := Advance(o, f, r);
            var past := f.trace + [Heard(r.user, r.choice, r.timedOut)];
            && op.NoOp?
            && if Heeded(f, r) && r.choice.ChoicePublish?
               then g == f.(trace := past + [Share(f.stage.from, f.stage.to, f.stage.id)],
                            stage := Sharing(f.stage.to, f.stage.id))
               else g == f.(trace := past, stage := Done(if r.timedOut then TimedOut else Declined))
  {
  }

  /** What the outside can fail at, by where the call is waiting. */
  predicate FailsAt(stage: Stage, r: Reply) {
    match stage
    case Asking => r.AskFailed?
    case Announced(_, _) => r.AskFailed?
    case Confirming(_, _, _) => r.AskFailed?
    case Storing(_, _) => r.PutFailed?
    case Deleting(_, _) => r.DeleteFailed?
    case Reading(_, _, _) => r.GetFailed?
    case Sharing(_, _) => r.NotShared?
    case _ => false
  }

  /** Every failure ends the call and is put to the member, with nothing else done. Only a
      question that could not be put gives its slot back, and only a write that failed is kept
      from coming up again; what was already saved still counts as saved. */
  lemma FailuresAreTold(o: Options, f: Flight, r: Reply)
    requires FailsAt(f.stage, r)
    ensures var (g, op) := Advance(o, f, r);
            && g.trace == f.trace + [Told] && g.stage.Done?
            && (op.Refunding? <==> f.stage.Asking?) && (op.Refusing? <==> f.stage.Storing?)
            && g.charged == (f.charged && !f.stage.Asking?)
            && (if f.stage.Announced? || f.stage.Deleting? then g.stage.outcome == Saved(f.stage.space, f.stage.id)
                else g.stage.outcome.Failed?)
  {
  }

  // ---- what every flight of a run has behind it ----

  ghost predicate WellAsked(o: Options, f: Flight) {
    match f.stage
    case Asking =>
      |f.trace| == 1 && f.trace[0].Asked? && Buttons(o, f.scope, f.target, f.trace[0].choices)
    case Storing(space, asked) =>
      && f.trace != [] && f.trace[|f.trace| - 1] == Put(space, f.title, f.body)
      && (asked <==> exists i :: 0 <= i < |f.trace| && f.trace[i].Asked?)
    case _ => true
  }

  lemma LaunchWellAsked(o: Options, sc: Scope, p: Proposal, speaker: int, turn: nat)
    ensures WellAsked(o, Launch(o, sc, p, speaker, turn))
  {
    GoingAhead(o, sc, p, speaker, turn);
  }

  lemma AdvanceWellAsked(o: Options, f: Flight, r: Reply)
    requires WellAsked(o, f)
    ensures WellAsked(o, Advance(o, f, r).0)
  {
    var g := Advance(o, f, r).0;
    if f.stage.Asking? && g.stage.Storing? {
      assert g.trace[0] == f.trace[0];
    }
  }

  lemma NewWellAsked(o: Options, s: System, e: Event, id: nat)
    requires id !in s.flights && id in Step(o, s, e).flights
    ensures WellAsked(o, Step(o, s, e).flights[id])
  {
    hide Launch, Reserve, WellAsked;
    match e
    case Begin(_, _) =>
    case Open(_, sc, p, speaker) =>
      var v := Reserve(s.book, sc.Key(), NormalizeTitle(TrimSpace(p.title)), speaker, o).1;
      if v.Granted? { LaunchWellAsked(o, sc, p, speaker, v.turn); }
      OthersWellAsked(o, Step(o, s, e).flights[id]);
    case Promote(_, sc, entry, speaker) => OthersWellAsked(o, Step(o, s, e).flights[id]);
    case Deliver(_, _) =>
  }

  lemma OthersWellAsked(o: Options, f: Flight)
    ensures !f.stage.Asking? && !f.stage.Storing? ==> WellAsked(o, f)
  {
  }

  lemma {:induction false} RunWellAsked(o: Options, events: seq<Event>, id: nat)
    requires id in Run(o, START, events).flights
    ensures WellAsked(o, Run(o, START, events).flights[id])
  {
    hide Step, WellAsked, Advance;
    if events != [] {
      var s, e := Run(o, START, events[..|events| - 1]), events[|events| - 1];
      if id in s.flights {
        RunWellAsked(o, events[..|events| - 1], id);
        StepFlights(o, s, e, id);
        if e.Deliver? { AdvanceWellAsked(o, s.flights[id], e.reply); }
      } else {
        NewWellAsked(o, s, e, id);
      }
    }
  }

  lemma Delivered(o: Options, s: System, id: nat, r: Reply)
    requires id in s.flights
    ensures var t := Step(o, s, Deliver(id, r)); var (g, op) := Advance(o, s.flights[id], r);
            var k := g.scope.Key();
            && id in t.flights && t.flights[id] == g
            && LogOf(t, k) == if op.Refusing? then LogOf(s, k) + [Refusal(s.flights[id])] else LogOf(s, k)
  {
  }

  /** No button only fails: over every run, a question waiting shows its buttons, and its
      member's tap in time on any of them that names a destination is written there, while
      their tap on the way out writes nothing and is recorded as a refusal. */
  lemma NoButtonOnlyFails(o: Options, s: System, id: nat, choice: Choice)
    requires Reachable(o, s) && id in s.flights && s.flights[id].stage.Asking?
    ensures var f := s.flights[id];
            |f.trace| == 1 && f.trace[0].Asked? && Buttons(o, f.scope, f.target, f.trace[0].choices)
    ensures var f := s.flights[id]; var t := Step(o, s, Deliver(id, Answer(f.speaker, choice, false)));
            var k := f.scope.Key();
            choice in f.trace[0].choices ==>
              if choice == ChoiceDecline
              then t.flights[id].stage == Done(Declined) && LogOf(t, k) == LogOf(s, k) + [Refusal(f)]
              else && LogOf(t, k) == LogOf(s, k)
                   && (exists space ::
                         && t.flights[id].trace == f.trace + [Heard(f.speaker, choice, false), Put(space, f.title, f.body)]
                         && if choice == ChoicePersonal then space == f.scope.write else SharedSpace(o, f.scope) == Some(space))
  {
    hide Step, Run, Advance;
    var events :| s == Run(o, START, events);
    RunWellAsked(o, events, id);
    var f := s.flights[id];
    var r := Answer(f.speaker, choice, false);
    Delivered(o, s, id, r);
    AdvanceKeepsNames(o, f, r);
    AnswersAreActedOn(o, f, r);
    if choice in f.trace[0].choices && choice != ChoiceDecline {
      var space := if choice == ChoicePersonal then f.scope.write else SharedSpace(o, f.scope).value;
      assert f.trace + [Heard(f.speaker, choice, false)] + [Put(space, f.title, f.body)] ==
             f.trace + [Heard(f.speaker, choice, false), Put(space, f.title, f.body)];
    }
  }

  lemma AdvanceKeepsNames(o: Options, f: Flight, r: Reply)
    ensures Advance(o, f, r).0.scope == f.scope
  {
  }

  /** What the store's answer makes of a write, by whether anybody was asked about it. */
  ghost predicate Reported(f: Flight, g: Flight, space: SpaceId, entry: string) {
    && f.trace != [] && f.trace[|f.trace| - 1].Put?
    && if space == f.trace[|f.trace| - 1].space && forall i :: 0 <= i < |f.trace| ==> !f.trace[i].Asked?
       then g == f.(trace := f.trace + [Stored(space, entry), Asked(f.title, f.body, [ChoiceUndo], f.speaker)],
                    stage := Announced(space, entry))
       else g == f.(trace := f.trace + [Stored(space, entry), Told],
                    stage := Done(if space == f.trace[|f.trace| - 1].space then Saved(space, entry) else Failed(WrongSpace)))
  }

  lemma LandingIsReported(o: Options, f: Flight, space: SpaceId, entry: string)
    requires f.stage.Storing? && WellAsked(o, f)
    ensures Reported(f, Advance(o, f, PutOk(space, entry)).0, space, entry)
    ensures Advance(o, f, PutOk(space, entry)).1.Refusing? <==> space != f.trace[|f.trace| - 1].space
  {
    var news := if space == f.stage.space && !f.stage.asked then Asked(f.title, f.body, [ChoiceUndo], f.speaker) else Told;
    assert f.trace + [Stored(space, entry)] + [news] == f.trace + [Stored(space, entry), news];
  }

  /** Over every run a write that lands where it was sent is told to whoever was asked about it,
      and announced with Undo to a member who was not; one that lands elsewhere is told, and
      that alone is kept from coming up again. */
  lemma UnaskedIsAnnounced(o: Options, s: System, id: nat, space: SpaceId, entry: string)
    requires Reachable(o, s) && id in s.flights && s.flights[id].stage.Storing?
    ensures var f := s.flights[id]; var t := Step(o, s, Deliver(id, PutOk(space, entry)));
            && id in t.flights && Reported(f, t.flights[id], space, entry)
            && LogOf(t, f.scope.Key()) == LogOf(s, f.scope.Key()) +
                 if space == f.trace[|f.trace| - 1].space then [] else [Refusal(f)]
  {
    hide Step, Run, Advance, Reported, Refusal, WellAsked;
    var events :| s == Run(o, START, events);
    RunWellAsked(o, events, id);
    Delivered(o, s, id, PutOk(space, entry));
    LandingIsReported(o, s.flights[id], space, entry);
    AdvanceKeepsNames(o, s.flights[id], PutOk(space, entry));
  }
}
