/** The page and the epoch of every surface are a replay of the events it emitted. */
module EngineViews {
  import opened Common
  import opened NavigationContract
  import opened Engine
  import opened EngineRuns
  import Downloads

  /** What a surface shows: its page, the navigation that put it there, and its epoch. */
  datatype View = View(page: Option<Page>, shown: Option<NavigationId>, epoch: nat)

  const NEW_VIEW := View(None, None, FIRST_EPOCH)

  function Show(v: View, e: Event): View {
    match e
    case Committed(id, address) => View(Some(Page(address, "")), Some(id), NextEpoch(v.epoch))
    case SameDocumentNavigated(_, address) =>
      v.(page := Some(Page(address, if v.page.Some? then v.page.value.title else "")),
         epoch := NextEpoch(v.epoch))
    case TitleChanged(id, title) =>
      if v.shown == Some(id) && v.page.Some? then v.(page := Some(v.page.value.(title := title))) else v
    case _ => v
  }

  function ShowRecord(v: Option<View>, k: SurfaceId, r: Record): Option<View> {
    if r.surface != k then v
    else if r.Created? then Some(NEW_VIEW)
    else if v.None? then None
    else if r.Shut? then Some(v.value.(page := None))
    else Some(Show(v.value, r.observation.event))
  }

  function Replay(log: seq<Record>, k: SurfaceId): Option<View> {
    if log == [] then None else ShowRecord(Replay(log[..|log| - 1], k), k, log[|log| - 1])
  }

  lemma ReplaySnoc(log: seq<Record>, r: Record, k: SurfaceId)
    ensures Replay(log + [r], k) == ShowRecord(Replay(log, k), k, r)
  {
  }

  ghost predicate Below(id: Option<NavigationId>, bound: nat) {
    id.Some? ==> id.value < bound
  }

  ghost predicate Agree(surface: Surface, v: View, bound: nat) {
    && v.page == surface.current
    && v.epoch == surface.epoch
    && Below(surface.currentNav, bound)
    && Below(v.shown, bound)
  }

  ghost predicate ViewsAgree(s: State) {
    forall k: SurfaceId ::
      && (k in s.surfaces <==> Replay(s.log, k).Some?)
      && (k in s.surfaces ==> Agree(s.surfaces[k], Replay(s.log, k).value, s.nextId))
  }

  /** While navigation `id` plays: engine and replay agree on whether `id` is the one shown. */
  ghost predicate AgreeWhile(surface: Surface, v: View, id: NavigationId) {
    Agree(surface, v, id + 1) && (surface.currentNav == Some(id) <==> v.shown == Some(id))
  }

  ghost predicate ViewsAgreeWhile(s: State, id: NavigationId) {
    forall k: SurfaceId ::
      && (k in s.surfaces <==> Replay(s.log, k).Some?)
      && (k in s.surfaces ==> AgreeWhile(s.surfaces[k], Replay(s.log, k).value, id))
  }

  // ---- the stamp on an observation ----

  function EpochIn(v: Option<View>): nat {
    if v.Some? then v.value.epoch else FIRST_EPOCH
  }

  /** An observation carries the epoch its surface is in once the event has happened; the announcement of a hosting,
      whose commit follows at once, carries the epoch of that commit. */
  ghost predicate StampedAt(log: seq<Record>, i: nat)
    requires i < |log|
  {
    log[i].Emitted? ==>
      || log[i].observation.epoch == EpochIn(Replay(log[..i + 1], log[i].surface))
      || (AnnouncesHosting(log, i) && log[i].observation.epoch == EpochIn(Replay(log[..i + 2], log[i].surface)))
  }

  predicate AnnouncesHosting(log: seq<Record>, i: nat)
    requires i < |log| && log[i].Emitted?
  {
    var o := log[i].observation;
    o.event.Started? && i + 1 < |log|
    && log[i + 1] == Emitted(log[i].surface, Observation(o.epoch, Committed(o.event.id, o.event.address)))
  }

  ghost predicate Stamped(log: seq<Record>) {
    forall i | 0 <= i < |log| :: StampedAt(log, i)
  }

  lemma StampStays(log: seq<Record>, r: Record, i: nat)
    requires i < |log| && StampedAt(log, i)
    ensures StampedAt(log + [r], i)
  {
    assert (log + [r])[..i + 1] == log[..i + 1];
    if i + 1 < |log| {
      assert (log + [r])[..i + 2] == log[..i + 2];
    }
  }

  lemma StampedSnoc(log: seq<Record>, r: Record)
    requires Stamped(log)
    requires r.Emitted? ==> r.observation.epoch == EpochIn(Replay(log + [r], r.surface))
    ensures Stamped(log + [r])
  {
    var log' := log + [r];
    forall i | 0 <= i < |log'| ensures StampedAt(log', i) {
      if i < |log| {
        StampStays(log, r, i);
      } else {
        assert log'[..i + 1] == log';
      }
    }
  }

  /** A hosting's first two records: its announcement, and the commit that follows. */
  lemma StampedHosting(log: seq<Record>, k: SurfaceId, epoch: nat, id: NavigationId, address: string)
    requires Stamped(log)
    requires var a, c := Emitted(k, Observation(epoch, Started(id, address))), Emitted(k, Observation(epoch, Committed(id, address)));
             EpochIn(Replay(log + [a] + [c], k)) == epoch
    ensures var a, c := Emitted(k, Observation(epoch, Started(id, address))), Emitted(k, Observation(epoch, Committed(id, address)));
            Stamped(log + [a] + [c])
  {
    var a, c := Emitted(k, Observation(epoch, Started(id, address))), Emitted(k, Observation(epoch, Committed(id, address)));
    var log' := log + [a] + [c];
    forall i | 0 <= i < |log'| ensures StampedAt(log', i) {
      if i < |log| {
        StampStays(log, a, i);
        StampStays(log + [a], c, i);
      } else {
        assert log'[..|log| + 2] == log';
        assert AnnouncesHosting(log', |log|);
      }
    }
  }

  // ---- each step keeps replay and engine together ----

  lemma PlayStepAgrees(s: State, k: SurfaceId, id: NavigationId, step: ScriptStep, j: SurfaceId)
    requires j in s.surfaces <==> Replay(s.log, j).Some?
    requires j in s.surfaces ==> AgreeWhile(s.surfaces[j], Replay(s.log, j).value, id)
    ensures var s' := PlayStep(s, k, id, step);
            && (j in s'.surfaces <==> Replay(s'.log, j).Some?)
            && (j in s'.surfaces ==> AgreeWhile(s'.surfaces[j], Replay(s'.log, j).value, id))
            && (j == k ==> s'.log[|s.log|].observation.epoch == EpochIn(Replay(s'.log, k)))
  {
  }

  lemma PlayStepKeepsViews(s: State, k: SurfaceId, id: NavigationId, step: ScriptStep)
    requires ViewsAgreeWhile(s, id) && Stamped(s.log)
    ensures ViewsAgreeWhile(PlayStep(s, k, id, step), id) && Stamped(PlayStep(s, k, id, step).log)
  {
    forall j: SurfaceId
      ensures j in PlayStep(s, k, id, step).surfaces <==> Replay(PlayStep(s, k, id, step).log, j).Some?
      ensures j in PlayStep(s, k, id, step).surfaces ==>
                AgreeWhile(PlayStep(s, k, id, step).surfaces[j], Replay(PlayStep(s, k, id, step).log, j).value, id)
    {
      PlayStepAgrees(s, k, id, step, j);
    }
    PlayStepAgrees(s, k, id, step, k);
    StampedSnoc(s.log, PlayStep(s, k, id, step).log[|s.log|]);
  }

  lemma {:induction false} PlayStepsKeepViews(s: State, k: SurfaceId, id: NavigationId, steps: seq<ScriptStep>)
    requires ViewsAgreeWhile(s, id) && Stamped(s.log)
    ensures ViewsAgreeWhile(PlaySteps(s, k, id, steps), id) && Stamped(PlaySteps(s, k, id, steps).log)
    decreases |steps|
  {
    if steps != [] {
      PlayStepKeepsViews(s, k, id, steps[0]);
      PlayStepsKeepViews(PlayStep(s, k, id, steps[0]), k, id, steps[1..]);
    }
  }

  /** A started navigation that then plays a script. */
  lemma StartedThenPlayed(s: State, s': State, k: SurfaceId, address: string, steps: seq<ScriptStep>)
    requires ViewsAgree(s) && Stamped(s.log)
    requires s'.log == Start(s, k, address).log && s'.nextId == s.nextId + 1 && s'.surfaces == s.surfaces
    ensures s'.log == s.log + [Emitted(k, Observation(EpochIn(Replay(s.log, k)), Started(s.nextId, address)))]
    ensures ViewsAgree(PlaySteps(s', k, s.nextId, steps)) && Stamped(PlaySteps(s', k, s.nextId, steps).log)
  {
    var r := s'.log[|s.log|];
    forall j: SurfaceId
      ensures j in s'.surfaces <==> Replay(s'.log, j).Some?
      ensures j in s'.surfaces ==> AgreeWhile(s'.surfaces[j], Replay(s'.log, j).value, s.nextId)
    {
      ReplaySnoc(s.log, r, j);
    }
    ReplaySnoc(s.log, r, k);
    StampedSnoc(s.log, r);
    PlayStepsKeepViews(s', k, s.nextId, steps);
    PlayStepsFrame(s', k, s.nextId, steps);
  }

  lemma NavigateKeepsViews(s: State, k: SurfaceId, address: string, token: Downloads.Token)
    requires ViewsAgree(s) && Stamped(s.log)
    ensures ViewsAgree(Navigate(s, k, address, token)) && Stamped(Navigate(s, k, address, token).log)
  {
    NavigateFrame(s, k, address, token);
    if !(k in s.surfaces && s.surfaces[k].state.Closed?) {
      var s1 := s.(loads := s.loads + [address]);
      var visited := if k in s.surfaces then Visit(s1, k, address) else s1;
      assert ViewsAgree(visited);
      StartedThenPlayed(visited, Begun(s, k, address, token), k, address, ScriptFor(s, address));
    }
  }

  /** A change of address made at once, outside any script. */
  lemma MovedAtOnce(s: State, s': State, k: SurfaceId, r: Record)
    requires ViewsAgree(s) && r.Emitted? && r.surface == k
    requires s'.log == s.log + [r] && s'.nextId > s.nextId && s'.nextId > r.observation.event.id
    requires s'.surfaces.Keys == s.surfaces.Keys
    requires forall j | j in s.surfaces && j != k :: s'.surfaces[j] == s.surfaces[j]
    requires k in s.surfaces ==>
               && s'.surfaces[k].currentNav == s.surfaces[k].currentNav
               && s'.surfaces[k].current == Show(Replay(s.log, k).value, r.observation.event).page
               && s'.surfaces[k].epoch == Show(Replay(s.log, k).value, r.observation.event).epoch
    requires r.observation.epoch == EpochOf(s', k)
    ensures ViewsAgree(s') && (Stamped(s.log) ==> Stamped(s'.log))
    ensures r.observation.epoch == EpochIn(Replay(s'.log, k))
  {
    forall j: SurfaceId
      ensures j in s'.surfaces <==> Replay(s'.log, j).Some?
      ensures j in s'.surfaces ==> Agree(s'.surfaces[j], Replay(s'.log, j).value, s'.nextId)
    {
      ReplaySnoc(s.log, r, j);
    }
    if Stamped(s.log) {
      StampedSnoc(s.log, r);
    }
  }

  lemma SameDocumentKeepsViews(s: State, k: SurfaceId, address: string)
    requires ViewsAgree(s) && Stamped(s.log)
    ensures ViewsAgree(SameDocument(s, k, address)) && Stamped(SameDocument(s, k, address).log)
  {
    var s' := SameDocument(s, k, address);
    MovedAtOnce(s, s', k, s'.log[|s.log|]);
  }

  /** An event that leaves the replay as it was. */
  lemma SaidAtOnce(s: State, s': State, k: SurfaceId, epoch: nat, e: Event)
    requires ViewsAgree(s) && (e.Started? || e.Succeeded?)
    requires s' == Emit(s, k, epoch, e)
    ensures ViewsAgree(s') && (Stamped(s.log) && epoch == EpochOf(s, k) ==> Stamped(s'.log))
  {
    var r := Emitted(k, Observation(epoch, e));
    forall j: SurfaceId
      ensures j in s'.surfaces <==> Replay(s'.log, j).Some?
      ensures j in s'.surfaces ==> Agree(s'.surfaces[j], Replay(s'.log, j).value, s'.nextId)
    {
      ReplaySnoc(s.log, r, j);
    }
    ReplaySnoc(s.log, r, k);
    if Stamped(s.log) && epoch == EpochOf(s, k) {
      StampedSnoc(s.log, r);
    }
  }

  /** Hosting in three stages, as its events come. */
  lemma HostInStages(s: State, k: SurfaceId, identity: string) returns (announced: State, committed: State, epoch: nat)
    ensures epoch == EpochOf(committed, k) && announced == Emit(s, k, epoch, Started(s.nextId, identity))
    ensures committed == Emit(announced.(surfaces := committed.surfaces, nextId := s.nextId + 1),
                              k, epoch, Committed(s.nextId, identity))
    ensures committed.surfaces ==
            if k !in s.surfaces then s.surfaces
            else s.surfaces[k := s.surfaces[k].(epoch := epoch, current := Some(Page(identity, "")),
                                                loads := s.surfaces[k].loads + [identity])]
    ensures k in s.surfaces ==> epoch == NextEpoch(s.surfaces[k].epoch)
    ensures Host(s, k, identity) == Emit(committed, k, epoch, Succeeded(s.nextId))
  {
    var s' := Host(s, k, identity);
    epoch := EpochOf(s', k);
    announced := Emit(s, k, epoch, Started(s.nextId, identity));
    committed := Emit(announced.(surfaces := s'.surfaces, nextId := s.nextId + 1), k, epoch, Committed(s.nextId, identity));
  }

  lemma HostKeepsViews(s: State, k: SurfaceId, identity: string)
    requires ViewsAgree(s) && Stamped(s.log)
    ensures ViewsAgree(Host(s, k, identity)) && Stamped(Host(s, k, identity).log)
  {
    hide Host, Replay, Stamped;
    var announced, committed, epoch := HostInStages(s, k, identity);
    SaidAtOnce(s, announced, k, epoch, Started(s.nextId, identity));
    MovedAtOnce(announced, committed, k, Emitted(k, Observation(epoch, Committed(s.nextId, identity))));
    StampedHosting(s.log, k, epoch, s.nextId, identity);
    SaidAtOnce(committed, Host(s, k, identity), k, epoch, Succeeded(s.nextId));
  }

  lemma CreateKeepsViews(s: State, store: Store)
    requires ViewsAgree(s) && Stamped(s.log)
    ensures ViewsAgree(CreateSurface(s, store)) && Stamped(CreateSurface(s, store).log)
  {
    var s' := CreateSurface(s, store);
    var r := Created(s.nextSurface);
    forall j: SurfaceId
      ensures j in s'.surfaces <==> Replay(s'.log, j).Some?
      ensures j in s'.surfaces ==> Agree(s'.surfaces[j], Replay(s'.log, j).value, s'.nextId)
    {
      ReplaySnoc(s.log, r, j);
    }
    StampedSnoc(s.log, r);
  }

  lemma CloseKeepsViews(s: State, k: SurfaceId)
    requires ViewsAgree(s) && Stamped(s.log)
    ensures ViewsAgree(Close(s, k)) && Stamped(Close(s, k).log)
  {
    if k in s.surfaces {
      var s' := Close(s, k);
      var r := Shut(k);
      forall j: SurfaceId
        ensures j in s'.surfaces <==> Replay(s'.log, j).Some?
        ensures j in s'.surfaces ==> Agree(s'.surfaces[j], Replay(s'.log, j).value, s'.nextId)
      {
        ReplaySnoc(s.log, r, j);
      }
      StampedSnoc(s.log, r);
    }
  }

  lemma EnsureActiveKeepsViews(s: State, k: SurfaceId)
    requires ViewsAgree(s) && Stamped(s.log)
    ensures ViewsAgree(EnsureActive(s, k)) && Stamped(EnsureActive(s, k).log)
  {
    if !Open(s, k) {
      CreateKeepsViews(s, Persistent);
      ActivateKeepsViews(CreateSurface(s, Persistent), k);
    } else {
      ActivateKeepsViews(s, k);
    }
  }

  lemma ActivateKeepsViews(s: State, k: SurfaceId)
    requires ViewsAgree(s)
    ensures ViewsAgree(Activate(s, k)) && Activate(s, k).log == s.log
  {
  }

  lemma InitiateKeepsViews(s: State, k: SurfaceId, address: string, steps: seq<ScriptStep>)
    requires ViewsAgree(s) && Stamped(s.log)
    ensures ViewsAgree(Initiate(s, k, address, steps)) && Stamped(Initiate(s, k, address, steps).log)
  {
    StartedThenPlayed(s, Start(s, k, address), k, address, steps);
  }

  lemma NextKeepsViews(s: State, c: Call)
    requires ViewsAgree(s) && Stamped(s.log)
    ensures ViewsAgree(Next(s, c)) && Stamped(Next(s, c).log)
  {
    hide Navigate, Initiate, Host, SameDocument, Replay, Stamped;
    match c
    case CallCreate(store) => CreateKeepsViews(s, store);
    case CallClose(k) => CloseKeepsViews(s, k);
    case CallActivate(k) => ActivateKeepsViews(s, k);
    case CallResume(k) => ActivateKeepsViews(s, k);
    case CallEnsureActive(k) => EnsureActiveKeepsViews(s, k);
    case CallNavigate(k, address, token) => NavigateKeepsViews(s, k, address, token);
    case CallInitiate(k, address, steps) => InitiateKeepsViews(s, k, address, steps);
    case CallSameDocument(k, address) => SameDocumentKeepsViews(s, k, address);
    case CallHost(k, identity) => HostKeepsViews(s, k, identity);
    case _ =>
  }

  // ---- the epoch counts changes of address ----

  /** Changes of address on `k` since it was created: commits, same-document moves and hostings. */
  function Moves(log: seq<Record>, k: SurfaceId): nat {
    if log == [] then 0
    else
      var r := log[|log| - 1];
      if r.surface != k then Moves(log[..|log| - 1], k)
      else if r.Created? then 0
      else if r.Emitted? && (r.observation.event.Committed? || r.observation.event.SameDocumentNavigated?)
      then Moves(log[..|log| - 1], k) + 1
      else Moves(log[..|log| - 1], k)
  }

  lemma {:induction false} ReplayedEpochCountsMoves(log: seq<Record>, k: SurfaceId)
    ensures Replay(log, k).Some? ==>
              Replay(log, k).value.epoch == if 1 + Moves(log, k) < U64_MAX then 1 + Moves(log, k) else U64_MAX
  {
    if log != [] {
      ReplayedEpochCountsMoves(log[..|log| - 1], k);
    }
  }

  // ---- over every run ----

  lemma {:induction false} RunKeepsViews(s: State, calls: seq<Call>)
    requires ViewsAgree(s) && Stamped(s.log)
    ensures ViewsAgree(Run(s, calls)) && Stamped(Run(s, calls).log)
    decreases |calls|
  {
    if calls != [] {
      NextKeepsViews(s, calls[0]);
      RunKeepsViews(Next(s, calls[0]), calls[1..]);
    }
  }

  /** After any run a surface shows the page its events replay to, and its epoch is one more than the
      changes of address since it was created, up to saturation. */
  lemma SurfaceIsReplayOfItsEvents(calls: seq<Call>, k: SurfaceId)
    ensures var s := Run(INITIAL, calls);
            && (k in s.surfaces <==> Replay(s.log, k).Some?)
            && (k in s.surfaces ==>
                  && s.surfaces[k].current == Replay(s.log, k).value.page
                  && s.surfaces[k].epoch == Replay(s.log, k).value.epoch
                  && s.surfaces[k].epoch == if 1 + Moves(s.log, k) < U64_MAX then 1 + Moves(s.log, k) else U64_MAX)
  {
    RunKeepsViews(INITIAL, calls);
    ReplayedEpochCountsMoves(Run(INITIAL, calls).log, k);
  }

  /** After any run every observation was stamped with its surface's epoch at that moment, and a hosting's announcement
      with that of its commit. */
  lemma ObservationsCarryTheirEpoch(calls: seq<Call>, i: nat)
    requires i < |Run(INITIAL, calls).log|
    ensures StampedAt(Run(INITIAL, calls).log, i)
  {
    RunKeepsViews(INITIAL, calls);
  }

  /** The announcement the next call makes: a navigation's carries the epoch its surface's events replay to, a hosting's
      the one after. */
  lemma AnnouncementsCarryTheirEpoch(calls: seq<Call>, k: SurfaceId, address: string, token: Downloads.Token, steps: seq<ScriptStep>)
    ensures var s := Run(INITIAL, calls);
            var replayed, announced := EpochIn(Replay(s.log, k)), Started(s.nextId, address);
            var hosted := if k in s.surfaces then NextEpoch(replayed) else replayed;
            && (!(k in s.surfaces && s.surfaces[k].state.Closed?) ==>
                  s.log + [Emitted(k, Observation(replayed, announced))] <= Navigate(s, k, address, token).log)
            && s.log + [Emitted(k, Observation(replayed, announced))] <= Initiate(s, k, address, steps).log
            && s.log + [Emitted(k, Observation(hosted, announced))] <= Host(s, k, address).log
  {
    var s := Run(INITIAL, calls);
    RunKeepsViews(INITIAL, calls);
    AgreesOnEpoch(s, k);
    hide *;
    if !(k in s.surfaces && s.surfaces[k].state.Closed?) {
      NavigateAnnounces(s, k, address, token);
    }
    InitiateAnnounces(s, k, address, steps);
    HostAnnounces(s, k, address);
  }

  lemma AgreesOnEpoch(s: State, k: SurfaceId)
    requires ViewsAgree(s)
    ensures EpochOf(s, k) == EpochIn(Replay(s.log, k))
    ensures (if k in s.surfaces then NextEpoch(EpochOf(s, k)) else EpochOf(s, k))
         == (if k in s.surfaces then NextEpoch(EpochIn(Replay(s.log, k))) else EpochIn(Replay(s.log, k)))
  {
  }

  lemma NavigateAnnounces(s: State, k: SurfaceId, address: string, token: Downloads.Token)
    requires !(k in s.surfaces && s.surfaces[k].state.Closed?)
    ensures s.log + [Emitted(k, Observation(EpochOf(s, k), Started(s.nextId, address)))] <= Navigate(s, k, address, token).log
  {
    hide PlaySteps;
    NavigateFrame(s, k, address, token);
    PlayedLog(Begun(s, k, address, token), k, s.nextId, ScriptFor(s, address));
  }

  lemma InitiateAnnounces(s: State, k: SurfaceId, address: string, steps: seq<ScriptStep>)
    ensures s.log + [Emitted(k, Observation(EpochOf(s, k), Started(s.nextId, address)))] <= Initiate(s, k, address, steps).log
  {
    hide PlaySteps;
    PlayedLog(Start(s, k, address), k, s.nextId, steps);
  }

  lemma HostAnnounces(s: State, k: SurfaceId, identity: string)
    ensures var epoch := if k in s.surfaces then NextEpoch(EpochOf(s, k)) else EpochOf(s, k);
            s.log + [Emitted(k, Observation(epoch, Started(s.nextId, identity)))] <= Host(s, k, identity).log
  {
  }

  lemma {:induction false} PlayedLog(s: State, k: SurfaceId, id: NavigationId, steps: seq<ScriptStep>)
    ensures s.log <= PlaySteps(s, k, id, steps).log
    decreases |steps|
  {
    if steps != [] {
      PlayedLog(PlayStep(s, k, id, steps[0]), k, id, steps[1..]);
    }
  }
}
