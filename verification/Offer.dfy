/** One offer or promotion, cut where it waits on somebody outside: the transport, which
    may answer anything, and the store, which may report anything.

    A flight is what one call has in hand while it waits, with the trace of everything
    that has passed between it and the outside. `Advance` is what it does with a reply. */
module Offers {
  import opened Optionals
  import opened Text
  import opened Capture

  datatype Target = Unsure | Personal | Shared

  datatype Proposal = Proposal(title: string, body: string, aliases: seq<string>, target: Target)

  datatype Choice =
    | ChoicePersonal | ChoiceShared | ChoiceDecline
    | ChoicePublish | ChoiceCancel | ChoiceUndo | ChoiceOther(raw: string)

  datatype Effect =
    | Asked(title: string, body: string, choices: seq<Choice>, of: int)
    | Heard(user: int, choice: Choice, timedOut: bool)
    | Put(space: SpaceId, title: string, body: string)
    | Stored(space: SpaceId, id: string)
    | Delete(space: SpaceId, id: string)
    | Removed(space: SpaceId, id: string)
    | Share(from: SpaceId, to: SpaceId, id: string)
    | Struck
    | Told

  datatype Error =
    | UnresolvedScope | EmptyDraft | NoSharedSpace | AskingFailed | PersonalNotAllowed
    | StoreFailed | WrongSpace | Unreadable | ShareFailed

  datatype Outcome =
    | Saved(space: SpaceId, id: string)
    | Undone(space: SpaceId, id: string)
    | Declined | TimedOut | Duplicate | Limited | NotApplicable
    | Failed(error: Error)

  datatype Stage =
    | Unbuilt
    | Asking
    | Storing(space: SpaceId, asked: bool)
    | Announced(space: SpaceId, id: string)
    | Deleting(space: SpaceId, id: string)
    | Reading(from: SpaceId, to: SpaceId, id: string)
    | Confirming(from: SpaceId, to: SpaceId, id: string)
    | Sharing(to: SpaceId, id: string)
    | Done(outcome: Outcome)

  /** `charged` says that the reservation this offer made has not been handed back. */
  datatype Flight = Flight(
    scope: Scope, target: Target, title: string, body: string, speaker: int, turn: nat,
    charged: bool, stage: Stage, trace: seq<Effect>)
  {
    function Does(effects: seq<Effect>, next: Stage): Flight {
      this.(trace := trace + effects, stage := next)
    }
  }

  datatype Reply =
    | Resume
    | AskFailed
    | Answer(user: int, choice: Choice, timedOut: bool)
    | PutFailed
    | PutOk(space: SpaceId, id: string)
    | DeleteFailed
    | DeleteOk(edited: bool)
    | GetFailed
    | GetOk(title: string, body: string)
    | NotShared
    | SharedOk(space: SpaceId, id: string)

  /** The critical section a step ends with, if it has one. */
  datatype LockedOp = NoOp | Refunding | Refusing

  // ---- decisions without state ----

  function FirstOther(read: seq<SpaceId>, write: SpaceId): Option<SpaceId> {
    if read == [] then None
    else if read[0] != write && read[0] != "" then Some(read[0])
    else FirstOther(read[1..], write)
  }

  function SharedSpace(o: Options, sc: Scope): Option<SpaceId> {
    if !sc.AllowsPrivateCapture() then
      if sc.write == "" then None else Some(sc.write)
    else
      match FirstOther(sc.read, sc.write)
      case Some(s) => Some(s)
      case None => if o.shared != "" then Some(o.shared) else None
  }

  predicate WritesPrivateDirectly(o: Options, sc: Scope, target: Target) {
    o.privateWrites.SaveFirst? && sc.AllowsPrivateCapture() && target.Personal?
  }

  /** The buttons a question carries, or nothing when no question can be built. */
  function Question(o: Options, sc: Scope, proposed: Target): Option<seq<Choice>> {
    var target := if sc.AllowsPrivateCapture() then proposed else Target.Shared;
    match target
    case Unsure =>
      if SharedSpace(o, sc).None? then Some([ChoicePersonal, ChoiceDecline])
      else Some([ChoicePersonal, ChoiceShared, ChoiceDecline])
    case Personal => Some([ChoicePersonal, ChoiceDecline])
    case Shared => if SharedSpace(o, sc).None? then None else Some([ChoiceShared, ChoiceDecline])
  }

  function StoredBody(o: Options, p: Proposal): string {
    if o.english then p.body else o.fold(TrimSpace(p.title), p.body, p.aliases)
  }

  // ---- the call up to its first wait ----

  function Refused(sc: Scope, p: Proposal, speaker: int, outcome: Outcome): Flight {
    Flight(sc, p.target, TrimSpace(p.title), p.body, speaker, 0, false, Done(outcome), [])
  }

  /** An offer whose reservation was granted in `turn`. */
  function Launch(o: Options, sc: Scope, p: Proposal, speaker: int, turn: nat): Flight {
    var title, body := TrimSpace(p.title), StoredBody(o, p);
    var f := Flight(sc, p.target, title, body, speaker, turn, true, Unbuilt, []);
    if WritesPrivateDirectly(o, sc, p.target) then
      f.Does([Put(sc.write, title, body)], Storing(sc.write, false))
    else
      match Question(o, sc, p.target)
      case None => f
      case Some(choices) => f.Does([Asked(title, body, choices, speaker)], Asking)
  }

  function LaunchPromotion(o: Options, sc: Scope, entry: string, speaker: int): Flight {
    var f := Flight(sc, Unsure, "", "", speaker, 0, false, Done(Failed(UnresolvedScope)), []);
    if sc.kind.Unresolved? then f
    else if !sc.AllowsPrivateCapture() then f.(stage := Done(NotApplicable))
    else
      match SharedSpace(o, sc)
      case None => f.Does([Told], Done(Failed(NoSharedSpace)))
      case Some(to) => f.(stage := Reading(sc.write, to, entry))
  }

  // ---- what a reply does to a waiting call ----

  function OnAnswer(o: Options, f: Flight, user: int, choice: Choice, timedOut: bool): (Flight, LockedOp) {
    var g := f.(trace := f.trace + [Heard(user, choice, timedOut)]);
    if timedOut then (g.(stage := Done(TimedOut)), Refusing)
    else if user != f.speaker then (g.(stage := Done(TimedOut)), NoOp)
    else if choice.ChoicePersonal? then
      if !f.scope.AllowsPrivateCapture() then (g.Does([Told], Done(Failed(PersonalNotAllowed))), NoOp)
      else (g.Does([Put(f.scope.write, f.title, f.body)], Storing(f.scope.write, true)), NoOp)
    else if choice.ChoiceShared? then
      match SharedSpace(o, f.scope)
      case None => (g.Does([Told], Done(Failed(NoSharedSpace))), NoOp)
      case Some(s) => (g.Does([Put(s, f.title, f.body)], Storing(s, true)), NoOp)
    else (g.(stage := Done(Declined)), Refusing)
  }

  function OnStored(f: Flight, space: SpaceId, id: string): (Flight, LockedOp)
    requires f.stage.Storing?
  {
    var g := f.(trace := f.trace + [Stored(space, id)]);
    if space != f.stage.space then (g.Does([Told], Done(Failed(WrongSpace))), Refusing)
    else if f.stage.asked then (g.Does([Told], Done(Saved(space, id))), NoOp)
    else (g.Does([Asked(f.title, f.body, [ChoiceUndo], f.speaker)], Announced(space, id)), NoOp)
  }

  function OnAnnouncement(f: Flight, user: int, choice: Choice, timedOut: bool): (Flight, LockedOp)
    requires f.stage.Announced?
  {
    var g := f.(trace := f.trace + [Heard(user, choice, timedOut)]);
    var space, id := f.stage.space, f.stage.id;
    if timedOut || user != f.speaker || choice != ChoiceUndo then (g.(stage := Done(Saved(space, id))), NoOp)
    else (g.Does([Delete(space, id)], Deleting(space, id)), Refusing)
  }

  function OnConfirmation(f: Flight, user: int, choice: Choice, timedOut: bool): Flight
    requires f.stage.Confirming?
  {
    var g := f.(trace := f.trace + [Heard(user, choice, timedOut)]);
    if timedOut then g.(stage := Done(TimedOut))
    else if user != f.speaker || choice != ChoicePublish then g.(stage := Done(Declined))
    else g.Does([Share(f.stage.from, f.stage.to, f.stage.id)], Sharing(f.stage.to, f.stage.id))
  }

  function OnDeleted(f: Flight, edited: bool): Flight
    requires f.stage.Deleting?
  {
    var g := f.(trace := f.trace + [Removed(f.stage.space, f.stage.id)]);
    g.Does([if edited then Struck else Told], Done(Undone(f.stage.space, f.stage.id)))
  }

  function OnShared(f: Flight, space: SpaceId, id: string): Flight
    requires f.stage.Sharing?
  {
    var g := f.(trace := f.trace + [Stored(space, id)]);
    g.Does([Told], Done(if space == f.stage.to then Saved(space, id) else Failed(WrongSpace)))
  }

  function OnRead(f: Flight, title: string, body: string): Flight
    requires f.stage.Reading?
  {
    f.(title := title, body := body)
     .Does([Asked(title, body, [ChoicePublish, ChoiceCancel], f.speaker)],
           Confirming(f.stage.from, f.stage.to, f.stage.id))
  }

  /** What a call that is told "no" by the outside ends as, if the stage it is in can end so. */
  function Ending(f: Flight, r: Reply): Option<(Outcome, LockedOp)> {
    match (f.stage, r)
    case (Unbuilt, Resume) => Some((Failed(NoSharedSpace), Refunding))
    case (Asking, AskFailed) => Some((Failed(AskingFailed), Refunding))
    case (Storing(_, _), PutFailed) => Some((Failed(StoreFailed), Refusing))
    case (Announced(s, id), AskFailed) => Some((Saved(s, id), NoOp))
    case (Deleting(s, id), DeleteFailed) => Some((Saved(s, id), NoOp))
    case (Reading(_, _, _), GetFailed) => Some((Failed(Unreadable), NoOp))
    case (Confirming(_, _, _), AskFailed) => Some((Failed(AskingFailed), NoOp))
    case (Sharing(_, _), NotShared) => Some((Failed(ShareFailed), NoOp))
    case _ => None
  }

  /** Every such ending is put to the member; a refund also takes the charge back. */
  function End(f: Flight, outcome: Outcome, op: LockedOp): Flight {
    f.(charged := f.charged && !op.Refunding?).Does([Told], Done(outcome))
  }

  /** A reply the call is not waiting for changes nothing. */
  function Advance(o: Options, f: Flight, r: Reply): (Flight, LockedOp) {
    if Ending(f, r).Some? then
      var (outcome, op) := Ending(f, r).value;
      (End(f, outcome, op), op)
    else
      match (f.stage, r)
      case (Asking, Answer(u, c, t)) => OnAnswer(o, f, u, c, t)
      case (Storing(_, _), PutOk(s, id)) => OnStored(f, s, id)
      case (Announced(_, _), Answer(u, c, t)) => OnAnnouncement(f, u, c, t)
      case (Deleting(_, _), DeleteOk(edited)) => (OnDeleted(f, edited), NoOp)
      case (Reading(_, _, _), GetOk(title, body)) => (OnRead(f, title, body), NoOp)
      case (Confirming(_, _, _), Answer(u, c, t)) => (OnConfirmation(f, u, c, t), NoOp)
      case (Sharing(_, _), SharedOk(s, id)) => (OnShared(f, s, id), NoOp)
      case _ => (f, NoOp)
  }

  // ---- consent ----

  predicate Consented(speaker: int, choice: Choice, past: seq<Effect>) {
    Heard(speaker, choice, false) in past
  }

  ghost predicate NothingAsked(past: seq<Effect>) {
    forall e :: e in past ==> !e.Asked?
  }

  ghost predicate NothingPut(past: seq<Effect>) {
    forall e :: e in past ==> !e.Put?
  }

  /** Who has to have agreed to what before an effect, judged on what came before it. */
  ghost predicate Justified(o: Options, f: Flight, past: seq<Effect>, e: Effect) {
    match e
    case Asked(title, body, _, of) => of == f.speaker && title == f.title && body == f.body
    case Put(space, title, body) =>
      && title == f.title && body == f.body
      && NothingPut(past)
      && (|| (WritesPrivateDirectly(o, f.scope, f.target) && space == f.scope.write && NothingAsked(past))
          || (f.scope.AllowsPrivateCapture() && space == f.scope.write && Consented(f.speaker, ChoicePersonal, past))
          || (SharedSpace(o, f.scope) == Some(space) && Consented(f.speaker, ChoiceShared, past)))
    case Share(from, to, _) =>
      && f.scope.AllowsPrivateCapture() && from == f.scope.write && SharedSpace(o, f.scope) == Some(to)
      && Consented(f.speaker, ChoicePublish, past)
    case Delete(space, id) => Stored(space, id) in past && Consented(f.speaker, ChoiceUndo, past)
    case Removed(space, id) => Delete(space, id) in past
    case Heard(_, _, _) => !NothingAsked(past)
    case _ => true
  }

  ghost predicate AllJustified(o: Options, f: Flight) {
    forall i :: 0 <= i < |f.trace| ==> Justified(o, f, f.trace[..i], f.trace[i])
  }

  /** Whatever reached memory was put in front of the member afterwards, or was tried to be. */
  ghost predicate AllAnnounced(trace: seq<Effect>) {
    forall i :: 0 <= i < |trace| && trace[i].Stored? ==>
      exists j :: i < j < |trace| && (trace[j].Told? || (trace[j].Asked? && ChoiceUndo in trace[j].choices))
  }

  function LeftAfter(before: set<(SpaceId, string)>, e: Effect): set<(SpaceId, string)> {
    match e
    case Stored(s, id) => before + {(s, id)}
    case Removed(s, id) => before - {(s, id)}
    case _ => before
  }

  /** What the store holds of this call's doing. */
  function Left(trace: seq<Effect>): set<(SpaceId, string)> {
    if trace == [] then {} else LeftAfter(Left(trace[..|trace| - 1]), trace[|trace| - 1])
  }

  /** What each stage knows about the trace behind it. */
  ghost predicate StageFits(o: Options, f: Flight) {
    match f.stage
    case Unbuilt => f.trace == [] && f.charged
    case Asking => NothingPut(f.trace) && !NothingAsked(f.trace) && Left(f.trace) == {} && f.charged
    case Storing(s, _) => Left(f.trace) == {}
    case Announced(s, id) => Stored(s, id) in f.trace && !NothingAsked(f.trace) && Left(f.trace) == {(s, id)}
    case Deleting(s, id) => Delete(s, id) in f.trace && Left(f.trace) == {(s, id)}
    case Reading(from, to, _) =>
      f.trace == [] && f.scope.AllowsPrivateCapture() && from == f.scope.write && SharedSpace(o, f.scope) == Some(to)
    case Confirming(from, to, _) =>
      NothingPut(f.trace) && !NothingAsked(f.trace) && Left(f.trace) == {} &&
      f.scope.AllowsPrivateCapture() && from == f.scope.write && SharedSpace(o, f.scope) == Some(to)
    case Sharing(_, _) => Left(f.trace) == {}
    case Done(Saved(s, id)) => Left(f.trace) == {(s, id)}
    case Done(Failed(WrongSpace)) => |Left(f.trace)| == 1
    case Done(_) => Left(f.trace) == {}
  }

  ghost predicate FlightOk(o: Options, f: Flight) {
    AllJustified(o, f) && AllAnnounced(f.trace) && StageFits(o, f)
  }
}
