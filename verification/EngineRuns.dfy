/** What holds of every run of the headless engine: its events, their order and their ids. */
module EngineRuns {
  import opened Common
  import opened NavigationContract
  import opened Engine
  import Downloads

  // ---- events drain in the order of emission ----

  ghost function Observations(log: seq<Record>): seq<Observation> {
    if log == [] then []
    else
      var earlier := Observations(log[..|log| - 1]);
      if log[|log| - 1].Emitted? then earlier + [log[|log| - 1].observation] else earlier
  }

  ghost predicate Fifo(s: State) {
    Observations(s.log) == s.polled + s.queue
  }

  lemma EmitIsFifo(s: State, k: SurfaceId, epoch: nat, e: Event)
    requires Fifo(s)
    ensures Fifo(Emit(s, k, epoch, e))
  {
  }

  lemma {:induction false} PlayStepsIsFifo(s: State, k: SurfaceId, id: NavigationId, steps: seq<ScriptStep>)
    requires Fifo(s)
    ensures Fifo(PlaySteps(s, k, id, steps))
    decreases |steps|
  {
    if steps != [] {
      var s' := if k in s.surfaces then s.(surfaces := s.surfaces[k := Play(s.surfaces[k], id, steps[0])]) else s;
      EmitIsFifo(s', k, EpochOf(s', k), EventOf(id, steps[0]));
      PlayStepsIsFifo(PlayStep(s, k, id, steps[0]), k, id, steps[1..]);
    }
  }

  lemma StartIsFifo(s: State, k: SurfaceId, address: string)
    requires Fifo(s)
    ensures Fifo(Start(s, k, address))
  {
  }

  lemma HostIsFifo(s: State, k: SurfaceId, identity: string)
    requires Fifo(s)
    ensures Fifo(Host(s, k, identity))
  {
    var id := s.nextId;
    var s1 := s.(nextId := id + 1);
    var s2 := if k !in s.surfaces then s1 else s1.(surfaces := s.surfaces[k := s.surfaces[k].(
      epoch := NextEpoch(s.surfaces[k].epoch), current := Some(Page(identity, "")),
      loads := s.surfaces[k].loads + [identity])]);
    var epoch := EpochOf(s2, k);
    EmitIsFifo(s2, k, epoch, Started(id, identity));
    var s3 := Emit(s2, k, epoch, Started(id, identity));
    EmitIsFifo(s3, k, epoch, Committed(id, identity));
    EmitIsFifo(Emit(s3, k, epoch, Committed(id, identity)), k, epoch, Succeeded(id));
  }

  lemma NavigateIsFifo(s: State, k: SurfaceId, address: string, token: Downloads.Token)
    requires Fifo(s)
    ensures Fifo(Navigate(s, k, address, token))
  {
    var s1 := s.(loads := s.loads + [address]);
    if !(k in s.surfaces && s.surfaces[k].state.Closed?) {
      var visited := if k in s.surfaces then Visit(s1, k, address) else s1;
      StartIsFifo(visited, k, address);
      var s2 := Start(visited, k, address);
      var s3 := if address in s.offers then Offer(s2, address, token) else s2;
      PlayStepsIsFifo(s3, k, s.nextId, ScriptFor(s, address));
    }
  }

  lemma SameDocumentIsFifo(s: State, k: SurfaceId, address: string)
    requires Fifo(s)
    ensures Fifo(SameDocument(s, k, address))
  {
  }

  /** A call that says nothing leaves the order of what was said. */
  lemma SilentIsFifo(s: State, s': State)
    requires Fifo(s) && s'.queue == s.queue && s'.polled == s.polled
    requires s'.log == s.log || exists r: Record :: !r.Emitted? && s'.log == s.log + [r]
    ensures Fifo(s')
  {
  }

  lemma PollIsFifo(s: State)
    requires Fifo(s)
    ensures Fifo(Poll(s))
  {
  }

  lemma NextIsFifo(s: State, c: Call)
    requires Fifo(s)
    ensures Fifo(Next(s, c))
  {
    hide Navigate, PlaySteps, Start, Host, SameDocument, Observations, Fifo, Poll, Downloads.Next;
    match c
    case CallNavigate(k, address, token) => NavigateIsFifo(s, k, address, token);
    case CallInitiate(k, address, steps) =>
      StartIsFifo(s, k, address);
      PlayStepsIsFifo(Start(s, k, address), k, s.nextId, steps);
    case CallSameDocument(k, address) => SameDocumentIsFifo(s, k, address);
    case CallHost(k, identity) => HostIsFifo(s, k, identity);
    case CallPoll => PollIsFifo(s);
    case _ => SilentIsFifo(s, Next(s, c));
  }

  // ---- every navigation obeys the contract ----

  /** The events a history holds for one navigation, in order. */
  ghost function TraceOf(log: seq<Record>, id: NavigationId): seq<Event> {
    if log == [] then []
    else
      var earlier := TraceOf(log[..|log| - 1], id);
      var last := log[|log| - 1];
      if last.Emitted? && last.observation.event.id == id then earlier + [last.observation.event] else earlier
  }

  lemma TraceSnoc(log: seq<Record>, r: Record, id: NavigationId)
    ensures TraceOf(log + [r], id) ==
            if r.Emitted? && r.observation.event.id == id then TraceOf(log, id) + [r.observation.event]
            else TraceOf(log, id)
  {
  }

  lemma EventsCons(id: NavigationId, steps: seq<ScriptStep>)
    requires steps != []
    ensures EventsOf(id, steps) == [EventOf(id, steps[0])] + EventsOf(id, steps[1..])
  {
  }

  lemma PlayStepTrace(s: State, k: SurfaceId, id: NavigationId, step: ScriptStep, other: NavigationId)
    ensures TraceOf(PlayStep(s, k, id, step).log, other) ==
            if other == id then TraceOf(s.log, other) + [EventOf(id, step)] else TraceOf(s.log, other)
  {
  }

  lemma {:induction false} PlayStepsTrace(s: State, k: SurfaceId, id: NavigationId, steps: seq<ScriptStep>)
    ensures TraceOf(PlaySteps(s, k, id, steps).log, id) == TraceOf(s.log, id) + EventsOf(id, steps)
    decreases |steps|
  {
    hide TraceOf, PlayStep, EventsOf;
    var before := TraceOf(s.log, id);
    if steps == [] {
      assert before + EventsOf(id, steps) == before;
    } else {
      var first, rest := [EventOf(id, steps[0])], EventsOf(id, steps[1..]);
      PlayStepTrace(s, k, id, steps[0], id);
      PlayStepsTrace(PlayStep(s, k, id, steps[0]), k, id, steps[1..]);
      EventsCons(id, steps);
      assert (before + first) + rest == before + (first + rest);
    }
  }

  lemma {:induction false} PlayStepsLeaveOtherTraces(s: State, k: SurfaceId, id: NavigationId, steps: seq<ScriptStep>, other: NavigationId)
    requires other != id
    ensures TraceOf(PlaySteps(s, k, id, steps).log, other) == TraceOf(s.log, other)
    decreases |steps|
  {
    if steps != [] {
      PlayStepTrace(s, k, id, steps[0], other);
      PlayStepsLeaveOtherTraces(PlayStep(s, k, id, steps[0]), k, id, steps[1..], other);
    }
  }

  /** Playing a script changes a surface's page, epoch and shown navigation, and nothing else but the events. */
  ghost predicate PlayedOnto(s: State, s': State, k: SurfaceId) {
    && s'.(surfaces := s.surfaces, queue := s.queue, log := s.log) == s
    && s'.surfaces.Keys == s.surfaces.Keys
    && forall j | j in s.surfaces ::
         var a, b := s.surfaces[j], s'.surfaces[j];
         if j == k then b.(epoch := a.epoch, current := a.current, currentNav := a.currentNav) == a
         else b == a
  }

  lemma PlayedOntoItself(s: State, k: SurfaceId)
    ensures PlayedOnto(s, s, k)
  {
  }

  lemma PlayedOntoOn(s: State, t: State, u: State, k: SurfaceId)
    requires PlayedOnto(s, t, k) && PlayedOnto(t, u, k)
    ensures PlayedOnto(s, u, k)
  {
  }

  lemma PlayStepFrame(s: State, k: SurfaceId, id: NavigationId, step: ScriptStep)
    ensures PlayedOnto(s, PlayStep(s, k, id, step), k)
  {
  }

  lemma {:induction false} PlayStepsFrame(s: State, k: SurfaceId, id: NavigationId, steps: seq<ScriptStep>)
    ensures PlayedOnto(s, PlaySteps(s, k, id, steps), k)
    decreases |steps|
  {
    hide PlayStep, PlayedOnto;
    if steps == [] {
      PlayedOntoItself(s, k);
    } else {
      PlayStepFrame(s, k, id, steps[0]);
      PlayStepsFrame(PlayStep(s, k, id, steps[0]), k, id, steps[1..]);
      PlayedOntoOn(s, PlayStep(s, k, id, steps[0]), PlaySteps(PlayStep(s, k, id, steps[0]), k, id, steps[1..]), k);
    }
  }

  /** A same-document navigation is one event of its own; every other trace is the contract's. */
  ghost predicate Allowed(t: seq<Event>) {
    ObeysContract(t) || (|t| == 1 && t[0].SameDocumentNavigated?)
  }

  /** Identifiers not yet minted have no events, and minted ones have allowed traces. */
  ghost predicate TracesAllowed(s: State) {
    forall id: NavigationId ::
      && Allowed(TraceOf(s.log, id))
      && (id >= s.nextId ==> TraceOf(s.log, id) == [])
  }

  predicate ResponseFollows(r: Response) {
    r.SequenceResponse? ==> Follows(r.steps)
  }

  ghost predicate ScriptsFollow(s: State) {
    forall address | address in s.responses :: ResponseFollows(s.responses[address])
  }

  predicate CallFollows(c: Call) {
    && (c.CallAnswer? ==> ResponseFollows(c.response))
    && (c.CallInitiate? ==> Follows(c.steps))
  }

  lemma StartedAndPlayed(s: State, s': State, k: SurfaceId, address: string, steps: seq<ScriptStep>)
    requires TracesAllowed(s) && Follows(steps)
    requires s'.log == Start(s, k, address).log && s'.nextId == s.nextId + 1
    ensures TracesAllowed(PlaySteps(s', k, s.nextId, steps))
  {
    var id := s.nextId;
    var end := PlaySteps(s', k, id, steps);
    forall other: NavigationId
      ensures Allowed(TraceOf(end.log, other)) && (other >= end.nextId ==> TraceOf(end.log, other) == [])
    {
      PlayStepsFrame(s', k, id, steps);
      TraceSnoc(s.log, s'.log[|s.log|], other);
      if other != id {
        PlayStepsLeaveOtherTraces(s', k, id, steps, other);
      } else {
        PlayStepsTrace(s', k, id, steps);
        assert TraceOf(end.log, id) == ScriptTrace(id, address, steps);
        ScriptObeysContractIffItFollows(id, address, steps);
      }
    }
  }

  /** The state a navigation plays its script from: visited, announced, and with its download offered. */
  function Begun(s: State, k: SurfaceId, address: string, token: Downloads.Token): State {
    var s1 := s.(loads := s.loads + [address]);
    var s2 := Start(if k in s.surfaces then Visit(s1, k, address) else s1, k, address);
    if address in s.offers then Offer(s2, address, token) else s2
  }

  lemma NavigateFrame(s: State, k: SurfaceId, address: string, token: Downloads.Token)
    ensures if k in s.surfaces && s.surfaces[k].state.Closed?
            then Navigate(s, k, address, token) == s.(loads := s.loads + [address], nextId := s.nextId + 1)
            else && Navigate(s, k, address, token) == PlaySteps(Begun(s, k, address, token), k, s.nextId, ScriptFor(s, address))
                 && PlayedOnto(Begun(s, k, address, token), Navigate(s, k, address, token), k)
  {
    PlayStepsFrame(Begun(s, k, address, token), k, s.nextId, ScriptFor(s, address));
  }

  lemma NavigateTraces(s: State, k: SurfaceId, address: string, token: Downloads.Token)
    requires TracesAllowed(s) && ScriptsFollow(s)
    ensures TracesAllowed(Navigate(s, k, address, token))
  {
    var s1 := s.(loads := s.loads + [address]);
    if !(k in s.surfaces && s.surfaces[k].state.Closed?) {
      var visited := if k in s.surfaces then Visit(s1, k, address) else s1;
      var s2 := Start(visited, k, address);
      var s3 := if address in s.offers then Offer(s2, address, token) else s2;
      var title := match Answer(s, address) case Some(PageResponse(t)) => t case _ => "";
      var error := match Answer(s, address) case Some(FailResponse(e)) => e case _ => Unresolvable(address);
      OwnScriptsFollow(address, title, error);
      StartedAndPlayed(visited, s3, k, address, ScriptFor(s, address));
    }
  }

  lemma HostedTraceObeys(id: NavigationId, identity: string)
    ensures ObeysContract([Started(id, identity), Committed(id, identity), Succeeded(id)])
  {
    var t := [Started(id, identity), Committed(id, identity), Succeeded(id)];
    assert t[1].Committed?;
  }

  lemma HostTrace(s: State, k: SurfaceId, identity: string, other: NavigationId)
    ensures TraceOf(Host(s, k, identity).log, other) ==
            if other == s.nextId
            then TraceOf(s.log, other) + [Started(other, identity), Committed(other, identity), Succeeded(other)]
            else TraceOf(s.log, other)
  {
    var s' := Host(s, k, identity);
    hide TraceOf;
    var epoch := s'.log[|s.log|].observation.epoch;
    var r0 := Emitted(k, Observation(epoch, Started(s.nextId, identity)));
    var r1 := Emitted(k, Observation(epoch, Committed(s.nextId, identity)));
    var r2 := Emitted(k, Observation(epoch, Succeeded(s.nextId)));
    assert s'.log == s.log + [r0] + [r1] + [r2];
    TraceSnoc(s.log, r0, other);
    TraceSnoc(s.log + [r0], r1, other);
    TraceSnoc(s.log + [r0] + [r1], r2, other);
  }

  lemma HostTraces(s: State, k: SurfaceId, identity: string)
    requires TracesAllowed(s)
    ensures TracesAllowed(Host(s, k, identity))
  {
    var s' := Host(s, k, identity);
    forall other: NavigationId
      ensures Allowed(TraceOf(s'.log, other)) && (other >= s'.nextId ==> TraceOf(s'.log, other) == [])
    {
      HostTrace(s, k, identity, other);
      HostedTraceObeys(s.nextId, identity);
      assert other == s.nextId ==> TraceOf(s'.log, other)
                                   == [Started(other, identity), Committed(other, identity), Succeeded(other)];
    }
  }

  lemma SameDocumentTraces(s: State, k: SurfaceId, address: string)
    requires TracesAllowed(s)
    ensures TracesAllowed(SameDocument(s, k, address))
  {
  }

  lemma SilentRecordKeepsTraces(s: State, s': State, r: Record)
    requires TracesAllowed(s) && !r.Emitted?
    requires s'.log == s.log + [r] && s'.nextId == s.nextId
    ensures TracesAllowed(s')
  {
  }

  lemma EnsureActiveKeepsTraces(s: State, k: SurfaceId)
    requires TracesAllowed(s)
    ensures TracesAllowed(EnsureActive(s, k))
  {
  }

  lemma NextKeepsTraces(s: State, c: Call)
    requires TracesAllowed(s) && ScriptsFollow(s) && CallFollows(c)
    ensures TracesAllowed(Next(s, c))
  {
    hide Navigate, PlaySteps, Host, SameDocument, TraceOf;
    match c
    case CallCreate(_) => SilentRecordKeepsTraces(s, Next(s, c), Created(s.nextSurface));
    case CallClose(k) =>
      if k in s.surfaces {
        SilentRecordKeepsTraces(s, Next(s, c), Shut(k));
      }
    case CallEnsureActive(k) => EnsureActiveKeepsTraces(s, k);
    case CallNavigate(k, address, token) => NavigateTraces(s, k, address, token);
    case CallInitiate(k, address, steps) => StartedAndPlayed(s, Start(s, k, address), k, address, steps);
    case CallSameDocument(k, address) => SameDocumentTraces(s, k, address);
    case CallHost(k, identity) => HostTraces(s, k, identity);
    case _ => assert Next(s, c).log == s.log;
  }

  /** The responses scripted, the next identifier and the downloads, which most calls leave. */
  ghost predicate Rest(s: State, s': State, c: Call) {
    && s'.responses == (if c.CallAnswer? then s.responses[c.address := c.response] else s.responses)
    && s'.nextId == (if Mints(c) then s.nextId + 1 else s.nextId)
    && s'.downloads == Downloads.Run(s.downloads, DownloadCalls(s, c))
  }

  lemma NoDownloadCall(d: Downloads.State, c: Downloads.Call)
    ensures Downloads.Run(d, []) == d && Downloads.Run(d, [c]) == Downloads.Next(d, c)
  {
    hide Downloads.Next;
    assert [c][1..] == [];
  }

  lemma NavigateKeepsRest(s: State, k: SurfaceId, address: string, token: Downloads.Token)
    ensures Rest(s, Navigate(s, k, address, token), CallNavigate(k, address, token))
  {
    hide Navigate, PlaySteps, Downloads.Run, Downloads.Trigger;
    NavigateFrame(s, k, address, token);
    if address in s.offers {
      var offer := s.offers[address];
      NoDownloadCall(s.downloads, Downloads.CallTrigger(token, offer.suggestedName, offer.totalBytes, offer.steps));
    } else {
      NoDownloadCall(s.downloads, Downloads.CallPoll);
    }
  }

  lemma InitiateKeepsRest(s: State, k: SurfaceId, address: string, steps: seq<ScriptStep>)
    requires Downloads.Run(s.downloads, []) == s.downloads
    ensures Rest(s, Initiate(s, k, address, steps), CallInitiate(k, address, steps))
  {
    hide PlaySteps, Downloads.Run;
    PlayStepsFrame(Start(s, k, address), k, s.nextId, steps);
  }

  lemma EnsureActiveKeepsRest(s: State, k: SurfaceId)
    requires Downloads.Run(s.downloads, []) == s.downloads
    ensures Rest(s, EnsureActive(s, k), CallEnsureActive(k))
  {
    hide Downloads.Run;
  }

  lemma HostKeepsRest(s: State, k: SurfaceId, identity: string)
    requires Downloads.Run(s.downloads, []) == s.downloads
    ensures Rest(s, Host(s, k, identity), CallHost(k, identity))
  {
    hide Downloads.Run;
  }

  lemma SameDocumentKeepsRest(s: State, k: SurfaceId, address: string)
    requires Downloads.Run(s.downloads, []) == s.downloads
    ensures Rest(s, SameDocument(s, k, address), CallSameDocument(k, address))
  {
    hide Downloads.Run;
  }

  predicate SameRest(s: State, s': State) {
    s'.responses == s.responses && s'.nextId == s.nextId && s'.downloads == s.downloads
  }

  lemma CreateAndCloseKeepRest(s: State, store: Store, k: SurfaceId)
    ensures SameRest(s, CreateSurface(s, store)) && SameRest(s, Close(s, k))
  {
  }

  lemma ActivateAndSuspendKeepRest(s: State, k: SurfaceId)
    ensures SameRest(s, Activate(s, k)) && SameRest(s, Suspend(s, k))
  {
  }

  lemma NextKeepsRest(s: State, c: Call)
    ensures Rest(s, Next(s, c), c)
  {
    hide Navigate, Initiate, EnsureActive, Host, SameDocument, CreateSurface, Activate, Suspend, Close, Downloads.Next, Downloads.Run;
    NoDownloadCall(s.downloads, if c.CallDownload? then c.call else Downloads.CallPoll);
    match c
    case CallNavigate(k, address, token) => NavigateKeepsRest(s, k, address, token);
    case CallInitiate(k, address, steps) => InitiateKeepsRest(s, k, address, steps);
    case CallEnsureActive(k) => EnsureActiveKeepsRest(s, k);
    case CallHost(k, identity) => HostKeepsRest(s, k, identity);
    case CallSameDocument(k, address) => SameDocumentKeepsRest(s, k, address);
    case CallCreate(store) => CreateAndCloseKeepRest(s, store, 0);
    case CallClose(k) => CreateAndCloseKeepRest(s, Persistent, k);
    case CallActivate(k) => ActivateAndSuspendKeepRest(s, k);
    case CallResume(k) => ActivateAndSuspendKeepRest(s, k);
    case CallSuspend(k) => ActivateAndSuspendKeepRest(s, k);
    case _ =>
  }

  lemma NextKeepsScripts(s: State, c: Call)
    requires ScriptsFollow(s) && CallFollows(c)
    ensures ScriptsFollow(Next(s, c))
  {
    hide Next, Follows;
    NextKeepsRest(s, c);
  }

  // ---- identifiers ----

  /** The identifiers a run's calls return, in order: each minting call returns the next one. */
  function Minted(s: State, calls: seq<Call>): seq<NavigationId>
    decreases |calls|
  {
    if calls == [] then []
    else (if Mints(calls[0]) then [s.nextId] else []) + Minted(Next(s, calls[0]), calls[1..])
  }

  lemma NextMints(s: State, c: Call)
    ensures Next(s, c).nextId == if Mints(c) then s.nextId + 1 else s.nextId
  {
    hide Next;
    NextKeepsRest(s, c);
  }

  lemma {:induction false} MintedInSequence(s: State, calls: seq<Call>)
    ensures |Minted(s, calls)| == Run(s, calls).nextId - s.nextId
    ensures forall i | 0 <= i < |Minted(s, calls)| :: Minted(s, calls)[i] == s.nextId + i
    decreases |calls|
  {
    if calls != [] {
      NextMints(s, calls[0]);
      MintedInSequence(Next(s, calls[0]), calls[1..]);
    }
  }

  // ---- over every run ----

  predicate CallsFollow(calls: seq<Call>) {
    forall i | 0 <= i < |calls| :: CallFollows(calls[i])
  }

  lemma {:induction false} RunIsFifo(s: State, calls: seq<Call>)
    requires Fifo(s)
    ensures Fifo(Run(s, calls))
    decreases |calls|
  {
    if calls != [] {
      NextIsFifo(s, calls[0]);
      RunIsFifo(Next(s, calls[0]), calls[1..]);
    }
  }

  lemma {:induction false} RunKeepsTraces(s: State, calls: seq<Call>)
    requires TracesAllowed(s) && ScriptsFollow(s) && CallsFollow(calls)
    ensures TracesAllowed(Run(s, calls))
    decreases |calls|
  {
    if calls != [] {
      assert CallFollows(calls[0]);
      NextKeepsTraces(s, calls[0]);
      NextKeepsScripts(s, calls[0]);
      RunKeepsTraces(Next(s, calls[0]), calls[1..]);
    }
  }

  /** The events of one navigation among observations. */
  function EventsFor(observations: seq<Observation>, id: NavigationId): seq<Event> {
    if observations == [] then []
    else
      var earlier := EventsFor(observations[..|observations| - 1], id);
      var last := observations[|observations| - 1].event;
      if last.id == id then earlier + [last] else earlier
  }

  lemma {:induction false} TraceIsObserved(log: seq<Record>, id: NavigationId)
    ensures TraceOf(log, id) == EventsFor(Observations(log), id)
  {
    if log != [] {
      TraceIsObserved(log[..|log| - 1], id);
      var o := Observations(log[..|log| - 1]);
      if log[|log| - 1].Emitted? {
        assert Observations(log)[..|o|] == o;
      }
    }
  }

  /** In any run whose scripts follow the grammar, the events of every navigation, drained ones followed by
      waiting ones, obey the contract; or they are the single event of a same-document move. */
  lemma EveryNavigationObeysTheContract(calls: seq<Call>, id: NavigationId)
    requires CallsFollow(calls)
    ensures var s := Run(INITIAL, calls);
            var t := EventsFor(s.polled + s.queue, id);
            && (ObeysContract(t) || (|t| == 1 && t[0].SameDocumentNavigated?))
            && (id >= s.nextId ==> t == [])
  {
    RunIsFifo(INITIAL, calls);
    RunKeepsTraces(INITIAL, calls);
    TraceIsObserved(Run(INITIAL, calls).log, id);
  }

  /** Draining is in the order of emission, and loses nothing: what was drained and what waits are the whole history. */
  lemma DrainIsInOrder(calls: seq<Call>)
    ensures var s := Run(INITIAL, calls); s.polled + s.queue == Observations(s.log)
  {
    RunIsFifo(INITIAL, calls);
  }

  /** No identifier is returned twice: a run's calls return 0, 1, 2 and so on. */
  lemma IdentifiersAreNeverReused(calls: seq<Call>, i: nat, j: nat)
    requires i < j < |Minted(INITIAL, calls)|
    ensures Minted(INITIAL, calls)[i] == i && Minted(INITIAL, calls)[i] != Minted(INITIAL, calls)[j]
  {
    MintedInSequence(INITIAL, calls);
  }

  lemma PlayedTrace(s: State, s': State, k: SurfaceId, address: string, steps: seq<ScriptStep>)
    requires s'.log == Start(s, k, address).log && TraceOf(s.log, s.nextId) == []
    ensures TraceOf(PlaySteps(s', k, s.nextId, steps).log, s.nextId) == ScriptTrace(s.nextId, address, steps)
  {
    TraceSnoc(s.log, s'.log[|s.log|], s.nextId);
    PlayStepsTrace(s', k, s.nextId, steps);
  }

  /** What a page begins obeys the contract exactly when its script follows the grammar, whatever the engine's state. */
  lemma InitiatedObeysIffItsScriptFollows(s: State, k: SurfaceId, address: string, steps: seq<ScriptStep>)
    requires TraceOf(s.log, s.nextId) == []
    ensures ObeysContract(TraceOf(Initiate(s, k, address, steps).log, s.nextId)) <==> Follows(steps)
  {
    PlayedTrace(s, Start(s, k, address), k, address, steps);
    ScriptObeysContractIffItFollows(s.nextId, address, steps);
  }

  /** So does a navigation, whose script the engine was given as a response or makes itself; one to a closed surface
      says nothing. */
  lemma NavigationObeysIffItsScriptFollows(s: State, k: SurfaceId, address: string, token: Downloads.Token)
    requires TraceOf(s.log, s.nextId) == []
    ensures var t := TraceOf(Navigate(s, k, address, token).log, s.nextId);
            && (!(k in s.surfaces && s.surfaces[k].state.Closed?) ==>
                  (ObeysContract(t) <==> (address in s.responses ==> ResponseFollows(s.responses[address]))))
            && (k in s.surfaces && s.surfaces[k].state.Closed? ==> t == [])
  {
    hide ObeysContract, Follows, TraceOf, PlaySteps;
    var id, steps := s.nextId, ScriptFor(s, address);
    NavigateFrame(s, k, address, token);
    if !(k in s.surfaces && s.surfaces[k].state.Closed?) {
      var s1 := s.(loads := s.loads + [address]);
      var visited := if k in s.surfaces then Visit(s1, k, address) else s1;
      PlayedTrace(visited, Begun(s, k, address, token), k, address, steps);
      ScriptObeysContractIffItFollows(id, address, steps);
      var title := match Answer(s, address) case Some(PageResponse(t)) => t case _ => "";
      var error := match Answer(s, address) case Some(FailResponse(e)) => e case _ => Unresolvable(address);
      OwnScriptsFollow(address, title, error);
    }
  }

  // ---- the download handshake inside the engine ----

  /** What a call does to the handshake: nothing, or one call of the handshake's own. */
  function DownloadCalls(s: State, c: Call): seq<Downloads.Call> {
    match c
    case CallDownload(call) => [call]
    case CallNavigate(k, address, token) =>
      if (k in s.surfaces && s.surfaces[k].state.Closed?) || address !in s.offers then []
      else
        var offer := s.offers[address];
        [Downloads.CallTrigger(token, offer.suggestedName, offer.totalBytes, offer.steps)]
    case _ => []
  }

  function AllDownloadCalls(s: State, calls: seq<Call>): seq<Downloads.Call>
    decreases |calls|
  {
    if calls == [] then []
    else DownloadCalls(s, calls[0]) + AllDownloadCalls(Next(s, calls[0]), calls[1..])
  }

  lemma NextRunsDownloads(s: State, c: Call)
    requires Possible(s, c)
    ensures Next(s, c).downloads == Downloads.Run(s.downloads, DownloadCalls(s, c))
    ensures Downloads.Admissible(s.downloads, DownloadCalls(s, c))
  {
    hide Next, Downloads.Next;
    NextKeepsRest(s, c);
  }

  /** An engine run takes its download handshake through an admissible run, so every theorem about such
      runs holds of it. */
  lemma {:induction false} RunRunsDownloads(s: State, calls: seq<Call>)
    requires PossibleRun(s, calls)
    ensures Run(s, calls).downloads == Downloads.Run(s.downloads, AllDownloadCalls(s, calls))
    ensures Downloads.Admissible(s.downloads, AllDownloadCalls(s, calls))
    decreases |calls|
  {
    if calls != [] {
      NextRunsDownloads(s, calls[0]);
      RunRunsDownloads(Next(s, calls[0]), calls[1..]);
      var first, rest := DownloadCalls(s, calls[0]), AllDownloadCalls(Next(s, calls[0]), calls[1..]);
      if first == [] {
        assert first + rest == rest;
      } else {
        assert first == [first[0]] && first[1..] == [];
        assert (first + rest)[1..] == rest;
      }
    }
  }
}
