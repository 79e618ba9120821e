/** From a model's tool calls to an offer: which words can lead to a write nobody was asked
    about. */
module Remember {
  import opened Optionals
  import opened Text
  import opened Capture
  import opened Offers
  import opened CaptureRuns
  import opened CaptureTheorems

  /** `arguments` is None where the completion carried none at all. */
  datatype ToolCall = ToolCall(name: string, arguments: Option<string>)

  datatype RememberCall = RememberCall(title: string, body: string, aliases: seq<string>, target: string)

  const REMEMBER := "remember"
  const KNOWN: set<string> := {"remember", "publish", "remind", "unremind"}

  /** What the node makes of arguments that decode: a title and a body are required. */
  predicate Usable(c: RememberCall) {
    TrimSpace(c.title) != "" && TrimSpace(c.body) != ""
  }

  function TargetOf(word: string): Target {
    if word == "personal" then Personal else if word == "shared" then Target.Shared else Unsure
  }

  function Proposed(c: RememberCall): Proposal {
    Proposal(c.title, c.body, c.aliases, TargetOf(c.target))
  }

  predicate IsRemember(c: ToolCall) {
    c.name == REMEMBER && c.arguments.Some?
  }

  /** The call the node acts on: the first remember call that carried arguments. */
  ghost predicate IsFirst(calls: seq<ToolCall>, i: nat) {
    i < |calls| && IsRemember(calls[i]) && forall j :: 0 <= j < i ==> !IsRemember(calls[j])
  }

  /** A proposal in the call's own words, whose target is one of two words or left open. */
  predicate AsCalled(p: Proposal, c: RememberCall) {
    && p.title == c.title && p.body == c.body && p.aliases == c.aliases
    && (p.target.Personal? <==> c.target == "personal") && (p.target.Shared? <==> c.target == "shared")
  }

  /** The arguments acted on do not decode, lack a title or a body, or name no known target. */
  predicate Flawed(call: Option<RememberCall>) {
    call.None? || !Usable(call.value) || call.value.target !in {"personal", "shared", "unsure"}
  }

  /** `decode` is the JSON decoder; anything it makes of the arguments is allowed for. A warning
      says exactly that some call was to no known tool, that there was a second remember call, or
      that the first was flawed. */
  method ExtractProposal(calls: seq<ToolCall>, decode: string -> Option<RememberCall>)
    returns (p: Option<Proposal>, warned: bool)
    ensures p.Some? <==>
      exists i: nat :: IsFirst(calls, i) && decode(calls[i].arguments.value).Some? && Usable(decode(calls[i].arguments.value).value)
    ensures forall i: nat :: IsFirst(calls, i) && p.Some? ==>
              p.value == Proposed(decode(calls[i].arguments.value).value) &&
              AsCalled(p.value, decode(calls[i].arguments.value).value)
    ensures warned <==>
      || (exists i :: 0 <= i < |calls| && calls[i].name !in KNOWN)
      || (exists i: nat, j :: IsFirst(calls, i) && i < j < |calls| && calls[j].name == REMEMBER)
      || (exists i: nat :: IsFirst(calls, i) && Flawed(decode(calls[i].arguments.value)))
  {
    var payload: Option<string> := None;
    warned := false;
    ghost var at: nat := 0;
    for i := 0 to |calls|
      invariant payload.Some? ==> at < i && IsFirst(calls, at) && payload == calls[at].arguments
      invariant payload.None? ==> forall j :: 0 <= j < i ==> !IsRemember(calls[j])
      invariant warned <==>
        || (exists j :: 0 <= j < i && calls[j].name !in KNOWN)
        || (payload.Some? && exists j :: at < j < i && calls[j].name == REMEMBER)
    {
      var c := calls[i];
      if c.name != REMEMBER {
        if c.name !in KNOWN {
          warned := true;
        }
      } else if payload.Some? {
        warned := true;
      } else {
        payload := c.arguments;
        if payload.Some? { at := i; }
      }
    }
    if payload.None? {
      return None, warned;
    }
    var call := decode(payload.value);
    if call.None? || !Usable(call.value) {
      return None, true;
    }
    p := Some(Proposed(call.value));
    if call.value.target !in {"personal", "shared", "unsure"} {
      warned := true;
    }
  }

  /** A call keeps, for good, the target it was opened with. */
  lemma {:induction false} TargetIsKept(o: Options, s: System, events: seq<Event>, id: nat)
    requires id in s.flights
    ensures var t := Run(o, s, events); id in t.flights && t.flights[id].target == s.flights[id].target
  {
    if events != [] {
      var t, e := Run(o, s, events[..|events| - 1]), events[|events| - 1];
      TargetIsKept(o, s, events[..|events| - 1], id);
      StepFlights(o, t, e, id);
      if e.Deliver? { AdvanceKeepsTarget(o, t.flights[id], e.reply); }
    }
  }

  lemma AdvanceKeepsTarget(o: Options, f: Flight, r: Reply)
    ensures Advance(o, f, r).0.target == f.target
  {
  }

  lemma OpenedWithTarget(o: Options, s: System, id: nat, sc: Scope, p: Proposal, speaker: int)
    requires id !in s.flights
    ensures var t := Step(o, s, Open(id, sc, p, speaker)); id in t.flights && t.flights[id].target == p.target
  {
  }

  /** Over every run: a write that no question preceded belongs to an offer the model's first
      remember call named "personal", in that word exactly, in a member's own chat, in a
      household that saves before asking; and it went to that member's own space. */
  lemma UnaskedWritesWereCalledPersonal(o: Options, s: System, id: nat, sc: Scope, call: RememberCall, speaker: int,
                                        after: seq<Event>, i: nat)
    requires o.Normal() && Reachable(o, s) && id !in s.flights
    requires var t := Run(o, Step(o, s, Open(id, sc, Proposed(call), speaker)), after);
             id in t.flights && i < |t.flights[id].trace| && t.flights[id].trace[i].Put? &&
             forall j :: 0 <= j < i ==> !t.flights[id].trace[j].Asked?
    ensures var t := Run(o, Step(o, s, Open(id, sc, Proposed(call), speaker)), after);
            call.target == "personal" && o.privateWrites.SaveFirst? &&
            t.flights[id].scope.AllowsPrivateCapture() && t.flights[id].trace[i].space == t.flights[id].scope.write
  {
    var s' := Step(o, s, Open(id, sc, Proposed(call), speaker));
    OpenedWithTarget(o, s, id, sc, Proposed(call), speaker);
    TargetIsKept(o, s', after, id);
    ReachStep(o, s, Open(id, sc, Proposed(call), speaker));
    ReachRun(o, s', after);
    ConsentBeforeEveryWrite(o, Run(o, s', after), id, i);
  }
}
