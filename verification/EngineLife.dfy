/** The lifecycle of surfaces over every run, and what becomes of their data. */
module EngineLife {
  import opened Common
  import opened NavigationContract
  import opened Engine
  import opened EngineRuns
  import Downloads

  /** The active surface, if the engine names one, is exactly the surface in the active state. */
  ghost predicate OneActive(s: State) {
    forall k: SurfaceId :: s.active == Some(k) <==> k in s.surfaces && s.surfaces[k].state.Active?
  }

  ghost predicate SurfacesBelowNext(s: State) {
    forall k | k in s.surfaces :: k < s.nextSurface
  }

  /** Only normal surfaces have an entry in the engine's store, and a closed private surface holds nothing. */
  ghost predicate PrivateLeavesNothing(s: State) {
    && (forall k | k in s.persistent :: k in s.surfaces && s.surfaces[k].store.Persistent?)
    && (forall k | k in s.surfaces && s.surfaces[k].state.Closed? :: s.surfaces[k].data == map[])
  }

  ghost predicate Alive(s: State) {
    OneActive(s) && SurfacesBelowNext(s) && PrivateLeavesNothing(s)
  }

  /** Whether the engine holds any data for a surface. */
  predicate HasRetainedData(s: State, k: SurfaceId) {
    if k !in s.surfaces then Retained(s, k) != map[]
    else if s.surfaces[k].store.NonPersistent? then s.surfaces[k].data != map[]
    else s.surfaces[k].data != map[] || Retained(s, k) != map[]
  }

  /** What a call never undoes: a surface stays, in its store, closed if it was closed, and holding data
      if it is a normal one that held any. */
  ghost predicate Endures(s: State, s': State, k: SurfaceId) {
    k in s.surfaces ==>
      && k in s'.surfaces
      && s'.surfaces[k].store == s.surfaces[k].store
      && (s.surfaces[k].state.Closed? ==> s'.surfaces[k].state.Closed?)
      && (s.surfaces[k].store.Persistent? && HasRetainedData(s, k) ==> HasRetainedData(s', k))
  }

  lemma VisitLives(s: State, k: SurfaceId, address: string, j: SurfaceId)
    requires Alive(s) && Open(s, k)
    ensures Alive(Visit(s, k, address)) && Endures(s, Visit(s, k, address), j)
    ensures HasRetainedData(Visit(s, k, address), k)
  {
    assert "visited_url" in Visit(s, k, address).surfaces[k].data;
    assert "visited_url" in Retained(s, k)["visited_url" := address];
  }

  /** A state that differs from `s` in neither its surfaces nor what it keeps of them. */
  ghost predicate SameSurfaces(s: State, s': State) {
    && s'.surfaces == s.surfaces && s'.active == s.active
    && s'.nextSurface == s.nextSurface && s'.persistent == s.persistent
  }

  /** Only the visit touches surfaces and stored data. */
  lemma BegunOnlyVisits(s: State, k: SurfaceId, address: string, token: Downloads.Token)
    ensures SameSurfaces(if k in s.surfaces then Visit(s, k, address) else s, Begun(s, k, address, token))
  {
  }

  lemma SameSurfacesLive(s: State, s': State, j: SurfaceId)
    requires SameSurfaces(s, s') && Alive(s)
    ensures Alive(s') && Endures(s, s', j) && (HasRetainedData(s, j) ==> HasRetainedData(s', j))
  {
  }

  lemma EnduresOn(s: State, t: State, u: State, j: SurfaceId)
    requires Endures(s, t, j) && Endures(t, u, j)
    ensures Endures(s, u, j)
  {
  }

  lemma BegunLives(s: State, k: SurfaceId, address: string, token: Downloads.Token, j: SurfaceId)
    requires Alive(s) && !(k in s.surfaces && s.surfaces[k].state.Closed?)
    ensures Alive(Begun(s, k, address, token)) && Endures(s, Begun(s, k, address, token), j)
    ensures k in s.surfaces ==> HasRetainedData(Begun(s, k, address, token), k)
  {
    hide Alive, Begun, Visit, SameSurfaces, HasRetainedData, Endures;
    BegunOnlyVisits(s, k, address, token);
    if k in s.surfaces {
      VisitLives(s, k, address, j);
      SameSurfacesLive(Visit(s, k, address), Begun(s, k, address, token), j);
      SameSurfacesLive(Visit(s, k, address), Begun(s, k, address, token), k);
      EnduresOn(s, Visit(s, k, address), Begun(s, k, address, token), j);
    } else {
      SameSurfacesLive(s, Begun(s, k, address, token), j);
    }
  }

  /** Only what a surface shows has changed. */
  ghost predicate OnlyShown(s: State, s': State) {
    && s'.active == s.active && s'.nextSurface == s.nextSurface && s'.persistent == s.persistent
    && s'.surfaces.Keys == s.surfaces.Keys
    && forall j | j in s.surfaces ::
         && s'.surfaces[j].store == s.surfaces[j].store
         && s'.surfaces[j].state == s.surfaces[j].state
         && s'.surfaces[j].data == s.surfaces[j].data
  }

  lemma ShownLives(s: State, s': State, j: SurfaceId)
    requires Alive(s) && OnlyShown(s, s')
    ensures Alive(s') && Endures(s, s', j)
    ensures HasRetainedData(s, j) ==> HasRetainedData(s', j)
  {
  }

  lemma PlayedOnlyShows(s: State, s': State, k: SurfaceId)
    requires PlayedOnto(s, s', k)
    ensures OnlyShown(s, s')
  {
  }

  lemma NavigateLives(s: State, k: SurfaceId, address: string, token: Downloads.Token, j: SurfaceId)
    requires Alive(s)
    ensures Alive(Navigate(s, k, address, token)) && Endures(s, Navigate(s, k, address, token), j)
    ensures Open(s, k) ==> HasRetainedData(Navigate(s, k, address, token), k)
  {
    NavigateFrame(s, k, address, token);
    if !(k in s.surfaces && s.surfaces[k].state.Closed?) {
      BegunLives(s, k, address, token, j);
      PlayedOnlyShows(Begun(s, k, address, token), Navigate(s, k, address, token), k);
      ShownLives(Begun(s, k, address, token), Navigate(s, k, address, token), j);
      ShownLives(Begun(s, k, address, token), Navigate(s, k, address, token), k);
    }
  }

  lemma ActivateLives(s: State, k: SurfaceId, j: SurfaceId)
    requires Alive(s)
    ensures Alive(Activate(s, k)) && Endures(s, Activate(s, k), j)
    ensures Open(s, k) ==> Activate(s, k).active == Some(k)
  {
    hide HasRetainedData;
    if j in s.surfaces {
      SameDataRetained(s, Activate(s, k), j);
    }
  }

  lemma CreateLives(s: State, store: Store, j: SurfaceId)
    requires Alive(s)
    ensures Alive(CreateSurface(s, store)) && Endures(s, CreateSurface(s, store), j)
    ensures s.nextSurface !in s.surfaces
  {
  }

  lemma EnsureActiveLives(s: State, k: SurfaceId, j: SurfaceId)
    requires Alive(s) && MayPick(s, k)
    ensures Alive(EnsureActive(s, k)) && Endures(s, EnsureActive(s, k), j)
    ensures EnsureActive(s, k).active == Some(k) && Open(EnsureActive(s, k), k)
  {
    if Open(s, k) {
      ActivateLives(s, k, j);
    } else {
      CreateLives(s, Persistent, j);
      ActivateLives(CreateSurface(s, Persistent), k, j);
    }
  }

  lemma ClosedKeepsData(s: State, k: SurfaceId)
    requires k in s.surfaces && s.surfaces[k].store.Persistent? && HasRetainedData(s, k)
    ensures HasRetainedData(Close(s, k), k)
  {
  }

  lemma CloseStaysAlive(s: State, k: SurfaceId)
    requires Alive(s)
    ensures Alive(Close(s, k))
  {
  }

  lemma CloseLives(s: State, k: SurfaceId, j: SurfaceId)
    requires Alive(s)
    ensures Alive(Close(s, k)) && Endures(s, Close(s, k), j)
  {
    CloseStaysAlive(s, k);
    hide HasRetainedData, Alive;
    if k in s.surfaces && s.surfaces[k].store.Persistent? && HasRetainedData(s, k) {
      ClosedKeepsData(s, k);
    }
    if j != k && j in s.surfaces && HasRetainedData(s, j) {
      ClosingElsewhereKeepsData(s, k, j);
    }
  }

  lemma ClosingElsewhereKeepsData(s: State, k: SurfaceId, j: SurfaceId)
    requires j != k && j in s.surfaces && HasRetainedData(s, j)
    ensures HasRetainedData(Close(s, k), j)
  {
  }

  lemma InitiateLives(s: State, k: SurfaceId, address: string, steps: seq<ScriptStep>, j: SurfaceId)
    requires Alive(s)
    ensures Alive(Initiate(s, k, address, steps)) && Endures(s, Initiate(s, k, address, steps), j)
  {
    PlayStepsFrame(Start(s, k, address), k, s.nextId, steps);
    PlayedOnlyShows(Start(s, k, address), Initiate(s, k, address, steps), k);
    ShownLives(Start(s, k, address), Initiate(s, k, address, steps), j);
  }

  lemma SameDocumentOnlyShows(s: State, k: SurfaceId, address: string)
    ensures OnlyShown(s, SameDocument(s, k, address))
  {
    hide NextEpoch;
  }

  lemma HostOnlyShows(s: State, k: SurfaceId, identity: string)
    ensures OnlyShown(s, Host(s, k, identity))
  {
  }

  lemma SuspendLives(s: State, k: SurfaceId, j: SurfaceId)
    requires Alive(s)
    ensures Alive(Suspend(s, k)) && Endures(s, Suspend(s, k), j)
  {
    hide HasRetainedData;
    if j in s.surfaces {
      SameDataRetained(s, Suspend(s, k), j);
    }
  }

  lemma SameDataRetained(s: State, s': State, k: SurfaceId)
    requires k in s.surfaces && k in s'.surfaces && s'.persistent == s.persistent
    requires s'.surfaces[k].store == s.surfaces[k].store && s'.surfaces[k].data == s.surfaces[k].data
    ensures HasRetainedData(s', k) == HasRetainedData(s, k)
  {
  }

  lemma NextLives(s: State, c: Call, j: SurfaceId)
    requires Alive(s) && Possible(s, c)
    ensures Alive(Next(s, c)) && Endures(s, Next(s, c), j)
  {
    hide Navigate, Initiate, Host, SameDocument, Close, Activate, Suspend, CreateSurface, EnsureActive, Downloads.Next;
    match c
    case CallCreate(store) => CreateLives(s, store, j);
    case CallActivate(k) => ActivateLives(s, k, j);
    case CallResume(k) => ActivateLives(s, k, j);
    case CallClose(k) => CloseLives(s, k, j);
    case CallEnsureActive(k) => EnsureActiveLives(s, k, j);
    case CallNavigate(k, address, token) => NavigateLives(s, k, address, token, j);
    case CallInitiate(k, address, steps) => InitiateLives(s, k, address, steps, j);
    case CallSuspend(k) => SuspendLives(s, k, j);
    case CallSameDocument(k, address) =>
      SameDocumentOnlyShows(s, k, address);
      ShownLives(s, Next(s, c), j);
    case CallHost(k, identity) =>
      HostOnlyShows(s, k, identity);
      ShownLives(s, Next(s, c), j);
    case _ => assert SameSurfaces(s, Next(s, c));
  }

  lemma {:induction false} RunLives(s: State, calls: seq<Call>, j: SurfaceId)
    requires Alive(s) && PossibleRun(s, calls)
    ensures Alive(Run(s, calls)) && Endures(s, Run(s, calls), j)
    decreases |calls|
  {
    if calls != [] {
      NextLives(s, calls[0], j);
      RunLives(Next(s, calls[0]), calls[1..], j);
    }
  }

  // ---- the theorems ----

  /** In every reachable state the engine names a surface active exactly when that surface, and no other, is. */
  lemma ActiveSurfaceIsTheOneActive(calls: seq<Call>)
    requires PossibleRun(INITIAL, calls)
    ensures OneActive(Run(INITIAL, calls))
  {
    RunLives(INITIAL, calls, 0);
  }

  /** A closed surface stays closed, and a private one holds and leaves nothing, in every later state. */
  lemma ClosedForGood(s: State, k: SurfaceId, calls: seq<Call>)
    requires Alive(s) && k in s.surfaces && PossibleRun(Close(s, k), calls)
    ensures var s' := Run(Close(s, k), calls);
            && k in s'.surfaces && s'.surfaces[k].state.Closed?
            && (s.surfaces[k].store.NonPersistent? ==>
                  !HasRetainedData(s', k) && k !in s'.persistent)
  {
    CloseLives(s, k, k);
    RunLives(Close(s, k), calls, k);
  }

  /** Whether a call puts a page on `k` even once it is closed, where the code does not look. */
  predicate PutsPage(c: Call, k: SurfaceId) {
    (c.CallSameDocument? || c.CallHost?) && c.k == k
  }

  lemma NextShowsOnClosed(s: State, c: Call, k: SurfaceId)
    requires Alive(s) && Possible(s, c) && k in s.surfaces && s.surfaces[k].state.Closed?
    ensures k in Next(s, c).surfaces
    ensures Shows(Next(s, c), k) <==> PutsPage(c, k) || (Shows(s, k) && c != CallClose(k))
  {
    hide Navigate, Initiate, Host, SameDocument, Close, Activate, Suspend, CreateSurface, EnsureActive, Alive, Downloads.Next;
    match c
    case CallCreate(store) => NewShows(s, store, k);
    case CallActivate(j) => ActivateShows(s, j, k);
    case CallResume(j) => ActivateShows(s, j, k);
    case CallSuspend(j) => SuspendShows(s, j, k);
    case CallEnsureActive(j) =>
      NewShows(s, Persistent, k);
      EnsureActiveShows(s, j, k);
    case CallClose(j) => CloseShows(s, j, k);
    case CallNavigate(j, address, token) => NavigateShows(s, j, address, token, k);
    case CallInitiate(j, address, steps) => InitiateShows(s, j, address, steps, k);
    case CallSameDocument(j, address) => SameDocumentShows(s, j, address, k);
    case CallHost(j, identity) => HostShows(s, j, identity, k);
    case _ =>
  }

  /** Whether a surface that is there shows a page. */
  predicate Shows(s: State, k: SurfaceId) {
    k in s.surfaces && s.surfaces[k].current.Some?
  }

  lemma NewShows(s: State, store: Store, k: SurfaceId)
    requires Alive(s) && k in s.surfaces
    ensures k in CreateSurface(s, store).surfaces && Shows(CreateSurface(s, store), k) == Shows(s, k)
  {
  }

  lemma ActivateShows(s: State, j: SurfaceId, k: SurfaceId)
    requires k in s.surfaces
    ensures k in Activate(s, j).surfaces && Shows(Activate(s, j), k) == Shows(s, k)
  {
  }

  lemma EnsureActiveShows(s: State, j: SurfaceId, k: SurfaceId)
    requires k in s.surfaces && k in CreateSurface(s, Persistent).surfaces
    requires Shows(CreateSurface(s, Persistent), k) == Shows(s, k)
    ensures k in EnsureActive(s, j).surfaces && Shows(EnsureActive(s, j), k) == Shows(s, k)
  {
    hide Activate, CreateSurface, Shows;
    ActivateShows(s, j, k);
    ActivateShows(CreateSurface(s, Persistent), j, k);
  }

  lemma SuspendShows(s: State, j: SurfaceId, k: SurfaceId)
    requires k in s.surfaces
    ensures k in Suspend(s, j).surfaces && Shows(Suspend(s, j), k) == Shows(s, k)
  {
  }

  lemma CloseShows(s: State, j: SurfaceId, k: SurfaceId)
    requires k in s.surfaces
    ensures k in Close(s, j).surfaces && Shows(Close(s, j), k) == (j != k && Shows(s, k))
  {
  }

  lemma NavigateShows(s: State, j: SurfaceId, address: string, token: Downloads.Token, k: SurfaceId)
    requires k in s.surfaces && s.surfaces[k].state.Closed?
    ensures k in Navigate(s, j, address, token).surfaces && Shows(Navigate(s, j, address, token), k) == Shows(s, k)
  {
    hide Navigate, Begun;
    NavigateFrame(s, j, address, token);
    BegunOnlyVisits(s, j, address, token);
  }

  lemma InitiateShows(s: State, j: SurfaceId, address: string, steps: seq<ScriptStep>, k: SurfaceId)
    requires k in s.surfaces && j != k
    ensures k in Initiate(s, j, address, steps).surfaces && Shows(Initiate(s, j, address, steps), k) == Shows(s, k)
  {
    hide PlaySteps;
    PlayStepsFrame(Start(s, j, address), j, s.nextId, steps);
  }

  lemma SameDocumentShows(s: State, j: SurfaceId, address: string, k: SurfaceId)
    requires k in s.surfaces
    ensures k in SameDocument(s, j, address).surfaces && Shows(SameDocument(s, j, address), k) == (j == k || Shows(s, k))
  {
  }

  lemma HostShows(s: State, j: SurfaceId, identity: string, k: SurfaceId)
    requires k in s.surfaces
    ensures k in Host(s, j, identity).surfaces && Shows(Host(s, j, identity), k) == (j == k || Shows(s, k))
  {
  }

  /** A call that puts a page on `k` with no later call closing it again. */
  ghost predicate PutLast(calls: seq<Call>, k: SurfaceId, i: nat)
    requires i < |calls|
  {
    PutsPage(calls[i], k) && NeverCloses(calls[i + 1..], k)
  }

  predicate NeverCloses(calls: seq<Call>, k: SurfaceId) {
    CallClose(k) !in calls
  }

  lemma {:induction false} RunShowsOnClosed(s: State, calls: seq<Call>, k: SurfaceId)
    requires Alive(s) && PossibleRun(s, calls) && k in s.surfaces && s.surfaces[k].state.Closed?
    ensures k in Run(s, calls).surfaces
    ensures Shows(Run(s, calls), k) <==>
            (exists i :: 0 <= i < |calls| && PutLast(calls, k, i)) || (Shows(s, k) && NeverCloses(calls, k))
    decreases |calls|
  {
    if calls != [] {
      hide Alive, Next, Possible, Shows;
      var c, rest := calls[0], calls[1..];
      NextLives(s, c, k);
      NextShowsOnClosed(s, c, k);
      RunShowsOnClosed(Next(s, c), rest, k);
      assert calls == [c] + rest;
      assert forall i | 0 <= i < |rest| :: PutLast(rest, k, i) <==> PutLast(calls, k, i + 1) by {
        forall i | 0 <= i < |rest| ensures calls[i + 1..][1..] == rest[i..][1..] {
        }
      }
      assert forall i | 0 < i < |calls| && PutLast(calls, k, i) :: PutLast(rest, k, i - 1);
      assert PutLast(calls, k, 0) <==> PutsPage(c, k) && NeverCloses(rest, k);
    }
  }

  /** A closed surface shows no page until a same-document move or a hosting puts one back, and again once it is
      closed again. */
  lemma ClosedShowsOnlyWhatIsPutThere(s: State, k: SurfaceId, calls: seq<Call>)
    requires Alive(s) && k in s.surfaces && PossibleRun(Close(s, k), calls)
    ensures k in Run(Close(s, k), calls).surfaces
    ensures Shows(Run(Close(s, k), calls), k) <==> exists i :: 0 <= i < |calls| && PutLast(calls, k, i)
  {
    CloseLives(s, k, k);
    RunShowsOnClosed(Close(s, k), calls, k);
  }

  /** A private surface never has an entry in the engine's store, closed or not. */
  lemma PrivateIsNeverStored(calls: seq<Call>, k: SurfaceId)
    requires PossibleRun(INITIAL, calls)
    requires k in Run(INITIAL, calls).surfaces && Run(INITIAL, calls).surfaces[k].store.NonPersistent?
    ensures k !in Run(INITIAL, calls).persistent
  {
    RunLives(INITIAL, calls, k);
  }

  /** A normal surface that accepted a navigation retains data in every later state, its close included. */
  lemma NavigatedNormalSurfaceRetains(s: State, k: SurfaceId, address: string, token: Downloads.Token, calls: seq<Call>)
    requires Alive(s) && Open(s, k) && s.surfaces[k].store.Persistent?
    requires PossibleRun(Navigate(s, k, address, token), calls)
    ensures HasRetainedData(Run(Navigate(s, k, address, token), calls), k)
  {
    NavigateLives(s, k, address, token, k);
    RunLives(Navigate(s, k, address, token), calls, k);
  }

  /** A new surface's identifier was never used before, whatever became of earlier surfaces. */
  lemma SurfaceIdentifiersAreFresh(calls: seq<Call>)
    requires PossibleRun(INITIAL, calls)
    ensures Run(INITIAL, calls).nextSurface !in Run(INITIAL, calls).surfaces
    ensures Run(INITIAL, calls).nextSurface !in Run(INITIAL, calls).persistent
  {
    RunLives(INITIAL, calls, 0);
  }
}
