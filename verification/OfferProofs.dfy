/** Every step of a flight keeps it justified, announced and truthful. */
module OfferProofs {
  import opened Optionals
  import opened Text
  import opened Capture
  import opened Offers

  lemma LeftOfExtended(trace: seq<Effect>, e: Effect)
    ensures Left(trace + [e]) == LeftAfter(Left(trace), e)
  {
    assert (trace + [e])[..|trace|] == trace;
  }

  /** One more effect, justified by what came before it, keeps the whole trace justified. */
  lemma Extend(o: Options, f: Flight, e: Effect, next: Stage)
    requires AllJustified(o, f) && Justified(o, f, f.trace, e)
    ensures AllJustified(o, f.Does([e], next))
  {
    var g := f.Does([e], next);
    forall i | 0 <= i < |g.trace| ensures Justified(o, g, g.trace[..i], g.trace[i]) {
      if i < |f.trace| {
        assert g.trace[..i] == f.trace[..i] && g.trace[i] == f.trace[i];
        assert Justified(o, f, f.trace[..i], f.trace[i]);
      } else {
        assert g.trace[..i] == f.trace;
      }
    }
  }

  lemma ExtendQuietly(trace: seq<Effect>, e: Effect)
    requires AllAnnounced(trace) && !e.Stored?
    ensures AllAnnounced(trace + [e])
  {
    var t := trace + [e];
    forall i | 0 <= i < |t| && t[i].Stored?
      ensures exists j :: i < j < |t| && (t[j].Told? || (t[j].Asked? && ChoiceUndo in t[j].choices))
    {
      assert trace[i].Stored?;
      var j :| i < j < |trace| && (trace[j].Told? || (trace[j].Asked? && ChoiceUndo in trace[j].choices));
      assert t[j] == trace[j];
    }
  }

  lemma ExtendStored(trace: seq<Effect>, e: Effect, after: Effect)
    requires AllAnnounced(trace) && e.Stored?
    requires after.Told? || (after.Asked? && ChoiceUndo in after.choices)
    ensures AllAnnounced(trace + [e] + [after])
  {
    var t := trace + [e] + [after];
    forall i | 0 <= i < |t| && t[i].Stored?
      ensures exists j :: i < j < |t| && (t[j].Told? || (t[j].Asked? && ChoiceUndo in t[j].choices))
    {
      assert t[|t| - 1] == after;
    }
  }

  /** The bookkeeping of appending one effect that stores nothing. */
  lemma Quiet(o: Options, f: Flight, e: Effect, next: Stage)
    requires AllJustified(o, f) && AllAnnounced(f.trace)
    requires Justified(o, f, f.trace, e) && !e.Stored?
    ensures AllJustified(o, f.Does([e], next)) && AllAnnounced(f.Does([e], next).trace)
    ensures Left(f.Does([e], next).trace) ==
            if e.Removed? then Left(f.trace) - {(e.space, e.id)} else Left(f.trace)
    ensures NothingPut(f.trace) && !e.Put? ==> NothingPut(f.Does([e], next).trace)
    ensures forall x :: x in f.trace || x == e ==> x in f.Does([e], next).trace
  {
    Extend(o, f, e, next);
    ExtendQuietly(f.trace, e);
    LeftOfExtended(f.trace, e);
  }

  /** The bookkeeping of a store's confirmation followed by the news of it. */
  lemma Landed(o: Options, f: Flight, space: SpaceId, id: string, news: Effect, next: Stage)
    requires AllJustified(o, f) && AllAnnounced(f.trace)
    requires news.Told? || (news == Asked(f.title, f.body, [ChoiceUndo], f.speaker))
    ensures news.Asked? ==> !NothingAsked(f.(trace := f.trace + [Stored(space, id)]).Does([news], next).trace)
    ensures var g := f.(trace := f.trace + [Stored(space, id)]).Does([news], next);
            AllJustified(o, g) && AllAnnounced(g.trace) &&
            Left(g.trace) == Left(f.trace) + {(space, id)} && Stored(space, id) in g.trace
  {
    var m := f.Does([Stored(space, id)], f.stage);
    Extend(o, f, Stored(space, id), f.stage);
    Extend(o, m, news, next);
    ExtendStored(f.trace, Stored(space, id), news);
    LeftOfExtended(f.trace, Stored(space, id));
    LeftOfExtended(m.trace, news);
    assert news in m.Does([news], next).trace;
  }

  lemma NothingDoneYet(o: Options, f: Flight)
    requires f.trace == []
    ensures AllJustified(o, f) && AllAnnounced(f.trace)
  {
  }

  lemma LaunchOk(o: Options, sc: Scope, p: Proposal, speaker: int, turn: nat)
    ensures FlightOk(o, Launch(o, sc, p, speaker, turn))
  {
    hide TrimSpace, StoredBody, Question, SharedSpace, AllJustified, AllAnnounced;
    var f := Flight(sc, p.target, TrimSpace(p.title), StoredBody(o, p), speaker, turn, true, Unbuilt, []);
    NothingDoneYet(o, f);
    if WritesPrivateDirectly(o, sc, p.target) {
      Quiet(o, f, Put(sc.write, f.title, f.body), Storing(sc.write, false));
    } else if Question(o, sc, p.target).Some? {
      Quiet(o, f, Asked(f.title, f.body, Question(o, sc, p.target).value, speaker), Asking);
    }
  }

  lemma LaunchPromotionOk(o: Options, sc: Scope, entry: string, speaker: int)
    ensures FlightOk(o, LaunchPromotion(o, sc, entry, speaker))
  {
    var f := Flight(sc, Unsure, "", "", speaker, 0, false, Done(Failed(UnresolvedScope)), []);
    Quiet(o, f, Told, Done(Failed(NoSharedSpace)));
  }

  lemma AnswerOk(o: Options, f: Flight, user: int, choice: Choice, timedOut: bool)
    requires FlightOk(o, f) && f.stage.Asking?
    ensures FlightOk(o, OnAnswer(o, f, user, choice, timedOut).0)
  {
    var heard := Heard(user, choice, timedOut);
    var g := f.Does([heard], f.stage);
    Quiet(o, f, heard, f.stage);
    var r := OnAnswer(o, f, user, choice, timedOut).0;
    if !timedOut && user == f.speaker && (choice.ChoicePersonal? || choice.ChoiceShared?) {
      if r.stage.Storing? {
        Quiet(o, g, Put(r.stage.space, f.title, f.body), r.stage);
      } else {
        Quiet(o, g, Told, r.stage);
      }
    } else {
      Quiet(o, f, heard, r.stage);
    }
  }

  /** One entry landed where nothing of this call's doing was before. */
  lemma LandedFirst(o: Options, f: Flight, space: SpaceId, id: string, news: Effect, next: Stage)
    requires AllJustified(o, f) && AllAnnounced(f.trace) && Left(f.trace) == {}
    requires news.Told? || (news == Asked(f.title, f.body, [ChoiceUndo], f.speaker))
    requires match next
             case Done(Saved(s, i)) => s == space && i == id
             case Done(Failed(e)) => e == WrongSpace
             case Announced(s, i) => s == space && i == id && news.Asked?
             case _ => false
    ensures FlightOk(o, f.(trace := f.trace + [Stored(space, id)]).Does([news], next))
  {
    Landed(o, f, space, id, news, next);
    assert {} + {(space, id)} == {(space, id)};
  }

  lemma StoredOk(o: Options, f: Flight, space: SpaceId, id: string)
    requires FlightOk(o, f) && f.stage.Storing?
    ensures FlightOk(o, OnStored(f, space, id).0)
  {
    if space != f.stage.space {
      LandedFirst(o, f, space, id, Told, Done(Failed(WrongSpace)));
    } else if f.stage.asked {
      LandedFirst(o, f, space, id, Told, Done(Saved(space, id)));
    } else {
      LandedFirst(o, f, space, id, Asked(f.title, f.body, [ChoiceUndo], f.speaker), Announced(space, id));
    }
  }

  lemma AnnouncementOk(o: Options, f: Flight, user: int, choice: Choice, timedOut: bool)
    requires FlightOk(o, f) && f.stage.Announced?
    ensures FlightOk(o, OnAnnouncement(f, user, choice, timedOut).0)
  {
    var heard := Heard(user, choice, timedOut);
    var g := f.Does([heard], f.stage);
    var r := OnAnnouncement(f, user, choice, timedOut).0;
    Quiet(o, f, heard, f.stage);
    if r.stage.Deleting? {
      Quiet(o, g, Delete(f.stage.space, f.stage.id), r.stage);
    } else {
      Quiet(o, f, heard, r.stage);
    }
  }

  lemma ConfirmationOk(o: Options, f: Flight, user: int, choice: Choice, timedOut: bool)
    requires FlightOk(o, f) && f.stage.Confirming?
    ensures FlightOk(o, OnConfirmation(f, user, choice, timedOut))
  {
    var heard := Heard(user, choice, timedOut);
    var g := f.Does([heard], f.stage);
    var r := OnConfirmation(f, user, choice, timedOut);
    Quiet(o, f, heard, f.stage);
    if r.stage.Sharing? {
      Quiet(o, g, Share(f.stage.from, f.stage.to, f.stage.id), r.stage);
    } else {
      Quiet(o, f, heard, r.stage);
    }
  }

  lemma DeletedOk(o: Options, f: Flight, edited: bool)
    requires FlightOk(o, f) && f.stage.Deleting?
    ensures FlightOk(o, OnDeleted(f, edited))
  {
    var gone := Removed(f.stage.space, f.stage.id);
    Quiet(o, f, gone, f.stage);
    Quiet(o, f.Does([gone], f.stage), if edited then Struck else Told, OnDeleted(f, edited).stage);
  }

  lemma SharedOk(o: Options, f: Flight, space: SpaceId, id: string)
    requires FlightOk(o, f) && f.stage.Sharing?
    ensures FlightOk(o, OnShared(f, space, id))
  {
    LandedFirst(o, f, space, id, Told, OnShared(f, space, id).stage);
  }

  lemma ReadOk(o: Options, f: Flight, title: string, body: string)
    requires FlightOk(o, f) && f.stage.Reading?
    ensures FlightOk(o, OnRead(f, title, body))
  {
    var g := f.(title := title, body := body);
    var r := OnRead(f, title, body);
    Quiet(o, g, Asked(title, body, [ChoicePublish, ChoiceCancel], f.speaker), r.stage);
  }

  lemma JustifiedWhateverCharged(o: Options, f: Flight, charged: bool)
    requires AllJustified(o, f)
    ensures AllJustified(o, f.(charged := charged))
  {
    var g := f.(charged := charged);
    forall i | 0 <= i < |g.trace| ensures Justified(o, g, g.trace[..i], g.trace[i]) {
      assert Justified(o, f, f.trace[..i], f.trace[i]);
    }
  }

  /** Left to the stages that can be told "no", the outcome says what is left in the store. */
  lemma EndingFits(o: Options, f: Flight, r: Reply)
    requires StageFits(o, f) && Ending(f, r).Some?
    ensures match Ending(f, r).value.0
            case Saved(s, id) => Left(f.trace) == {(s, id)}
            case outcome => outcome != Failed(WrongSpace) && Left(f.trace) == {}
  {
    match f.stage
    case Unbuilt =>
    case Asking =>
    case Storing(_, _) =>
    case Announced(_, _) =>
    case Deleting(_, _) =>
    case Reading(_, _, _) =>
    case Confirming(_, _, _) =>
    case Sharing(_, _) =>
    case Done(_) =>
  }

  lemma EndOk(o: Options, f: Flight, r: Reply)
    requires FlightOk(o, f) && Ending(f, r).Some?
    ensures var (outcome, op) := Ending(f, r).value; FlightOk(o, End(f, outcome, op))
  {
    var (outcome, op) := Ending(f, r).value;
    var g := f.(charged := f.charged && !op.Refunding?);
    JustifiedWhateverCharged(o, f, g.charged);
    Quiet(o, g, Told, Done(outcome));
    EndingFits(o, f, r);
  }

  /** Whatever the outside answers, a flight stays justified, announced and truthful. */
  lemma AdvanceOk(o: Options, f: Flight, r: Reply)
    requires FlightOk(o, f)
    ensures FlightOk(o, Advance(o, f, r).0)
  {
    hide FlightOk, OnAnswer, OnStored, OnAnnouncement, OnConfirmation, OnDeleted, OnShared, OnRead, End;
    if Ending(f, r).Some? {
      EndOk(o, f, r);
    } else {
      match (f.stage, r)
      case (Asking, Answer(u, c, t)) => AnswerOk(o, f, u, c, t);
      case (Storing(_, _), PutOk(s, id)) => StoredOk(o, f, s, id);
      case (Announced(_, _), Answer(u, c, t)) => AnnouncementOk(o, f, u, c, t);
      case (Deleting(_, _), DeleteOk(edited)) => DeletedOk(o, f, edited);
      case (Reading(_, _, _), GetOk(title, body)) => ReadOk(o, f, title, body);
      case (Confirming(_, _, _), Answer(u, c, t)) => ConfirmationOk(o, f, u, c, t);
      case (Sharing(_, _), SharedOk(s, id)) => SharedOk(o, f, s, id);
      case _ =>
    }
  }
}
