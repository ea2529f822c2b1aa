/** What each of the engine's other calls changes, surface by surface, and what it leaves. */
module EngineCalls {
  import opened Common
  import opened NavigationContract
  import opened Engine
  import opened EngineRuns
  import opened EngineOutcomes
  import Downloads

  // ---- the lifecycle ----

  predicate IsOpen(s: State, k: SurfaceId) { k in s.surfaces && s.surfaces[k].state != Closed }

  /** Nothing but the surfaces' states and which of them is active changed. */
  ghost predicate OnlyStates(s: State, s': State) {
    && s'.(surfaces := s.surfaces, active := s.active) == s && s'.surfaces.Keys == s.surfaces.Keys
    && forall j | j in s.surfaces :: s'.surfaces[j].(state := s.surfaces[j].state) == s.surfaces[j]
  }

  /** A new surface: under the next identifier, inactive, of its store, at the first epoch, with nothing shown, loaded or
      kept. No other surface changes. */
  lemma CreatingAdds(s: State, store: Store)
    requires s.nextSurface !in s.surfaces
    ensures var s', k := CreateSurface(s, store), s.nextSurface;
            && s'.surfaces.Keys == s.surfaces.Keys + {k} && (forall j | j in s.surfaces :: s'.surfaces[j] == s.surfaces[j])
            && s'.surfaces[k].store == store && s'.surfaces[k].state == Inactive && s'.surfaces[k].epoch == 1
            && s'.surfaces[k].current.None? && s'.surfaces[k].currentNav.None?
            && s'.surfaces[k].loads == [] && s'.surfaces[k].data == map[]
            && s'.nextSurface == k + 1 && s'.queue == s.queue && s'.active == s.active && s'.persistent == s.persistent
  {
  }

  /** Activating an open surface makes it the active one, and the one that was active before inactive. */
  lemma ActivatingActivates(s: State, k: SurfaceId)
    ensures !IsOpen(s, k) ==> Activate(s, k) == s
    ensures IsOpen(s, k) ==>
              var s' := Activate(s, k);
              && OnlyStates(s, s') && s'.active == Some(k)
              && forall j | j in s.surfaces ::
                   s'.surfaces[j].state == if j == k then Active
                                           else if s.active == Some(j) && s.surfaces[j].state == Active then Inactive
                                           else s.surfaces[j].state
  {
  }

  /** Suspending an open surface suspends it, and leaves none active if it was. */
  lemma SuspendingSuspends(s: State, k: SurfaceId)
    ensures !IsOpen(s, k) ==> Suspend(s, k) == s
    ensures IsOpen(s, k) ==>
              var s' := Suspend(s, k);
              && OnlyStates(s, s') && s'.active == (if s.active == Some(k) then None else s.active)
              && forall j | j in s.surfaces :: s'.surfaces[j].state == if j == k then Suspended else s.surfaces[j].state
  {
  }

  /** A surface suspended and then resumed is the active one; resuming any other changes nothing. */
  lemma ResumingUndoesSuspending(s: State, k: SurfaceId)
    ensures IsOpen(s, k) ==> Resume(Suspend(s, k), k).active == Some(k)
    ensures k in s.surfaces && s.surfaces[k].state == Suspended ==> Resume(s, k) == Activate(s, k)
    ensures !(k in s.surfaces && s.surfaces[k].state == Suspended) ==> Resume(s, k) == s
  {
  }

  /** Closing empties a surface for good: a private one's data is gone, and a normal one's joins what the engine keeps. */
  lemma ClosingEmpties(s: State, k: SurfaceId)
    requires k in s.surfaces
    ensures var s', surface := Close(s, k), s.surfaces[k];
            && s'.surfaces == s.surfaces[k := surface.(state := Closed, current := None, data := map[])]
            && s'.active == (if s.active == Some(k) then None else s.active)
            && s'.persistent == (if surface.store == NonPersistent then s.persistent - {k}
                                 else s.persistent[k := (if k in s.persistent then s.persistent[k] else map[]) + surface.data])
            && s'.queue == s.queue && s'.nextId == s.nextId && s'.loads == s.loads
  {
  }

  // ---- calls that move a surface at once ----

  /** Of the surfaces only `k`'s page, epoch, shown navigation and loads may have changed, and beside these and what was
      said only the identifier counter. */
  ghost predicate OnlyMoved(s: State, s': State, k: SurfaceId) {
    && s'.(surfaces := s.surfaces, queue := s.queue, log := s.log) == s.(nextId := s.nextId + 1)
    && s'.surfaces.Keys == s.surfaces.Keys
    && forall j | j in s.surfaces ::
         var a, b := s.surfaces[j], s'.surfaces[j];
         b == if j == k then a.(epoch := b.epoch, current := b.current, loads := b.loads) else a
  }

  /** A same-document move is one event at the next epoch. The surface keeps its title and goes on being what it was, and
      the address is among its loads. */
  lemma SameDocumentMoves(s: State, k: SurfaceId, address: string)
    ensures var s' := SameDocument(s, k, address);
            var epoch := if k in s.surfaces then NextEpoch(s.surfaces[k].epoch) else 1;
            && Says(s, s', k, [Observation(epoch, SameDocumentNavigated(s.nextId, address))]) && OnlyMoved(s, s', k)
            && (k in s.surfaces ==>
                  && s'.surfaces[k].epoch == epoch && s'.surfaces[k].loads == s.surfaces[k].loads + [address]
                  && s'.surfaces[k].current ==
                     Some(Page(address, if s.surfaces[k].current.Some? then s.surfaces[k].current.value.title else "")))
  {
    hide NextEpoch;
    var epoch := if k in s.surfaces then NextEpoch(s.surfaces[k].epoch) else 1;
    var o := Observation(epoch, SameDocumentNavigated(s.nextId, address));
    assert Records(k, [o]) == [Emitted(k, o)];
  }

  /** Hosting is a whole navigation at the next epoch, and shows the identity under no title. */
  lemma HostingShows(s: State, k: SurfaceId, identity: string)
    ensures var s', id := Host(s, k, identity), s.nextId;
            var epoch := if k in s.surfaces then NextEpoch(s.surfaces[k].epoch) else 1;
            && Says(s, s', k, [Observation(epoch, Started(id, identity)), Observation(epoch, Committed(id, identity)),
                               Observation(epoch, Succeeded(id))])
            && OnlyMoved(s, s', k)
            && (k in s.surfaces ==>
                  && s'.surfaces[k].epoch == epoch && s'.surfaces[k].loads == s.surfaces[k].loads + [identity]
                  && s'.surfaces[k].current == Some(Page(identity, "")))
  {
    hide NextEpoch;
    var s', id := Host(s, k, identity), s.nextId;
    var epoch := if k in s.surfaces then NextEpoch(s.surfaces[k].epoch) else 1;
    var a, b, c := Observation(epoch, Started(id, identity)), Observation(epoch, Committed(id, identity)),
                   Observation(epoch, Succeeded(id));
    assert Records(k, [a, b, c]) == [Emitted(k, a)] + [Emitted(k, b)] + [Emitted(k, c)];
    assert s.queue + [a] + [b] + [c] == s.queue + [a, b, c];
    assert s'.log == s.log + [Emitted(k, a)] + [Emitted(k, b)] + [Emitted(k, c)];
    assert s.log + [Emitted(k, a)] + [Emitted(k, b)] + [Emitted(k, c)] == s.log + Records(k, [a, b, c]);
  }

  // ---- scripted steps ----

  /** What a step tells of the navigation that plays it. */
  predicate Tells(e: Event, step: ScriptStep, id: NavigationId) {
    match step
    case Redirect(address) => e == Redirected(id, address)
    case Commit(address) => e == Committed(id, address)
    case Title(title) => e == TitleChanged(id, title)
    case Succeed => e == Succeeded(id)
    case Fail(error) => e == Failed(id, error)
    case NavigateAway => e == NavigatedAway(id)
  }

  /** A scripted sequence tells its steps one for one, in order, after the announcement. */
  lemma SequenceIsTold(s: State, k: SurfaceId, address: string, token: Downloads.Token, steps: seq<ScriptStep>, i: nat)
    requires Accepts(s, k) && address in s.responses && s.responses[address] == SequenceResponse(steps)
    requires TraceOf(s.log, s.nextId) == [] && i < |steps|
    ensures var t := TraceOf(Navigate(s, k, address, token).log, s.nextId);
            |t| == |steps| + 1 && t[0] == Started(s.nextId, address) && Tells(t[i + 1], steps[i], s.nextId)
  {
    SequencePlays(s, k, address, token, steps);
  }
}
