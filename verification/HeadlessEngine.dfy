/** The headless engine as one object whose methods update its fields, proved to compute `Engine`. */
module HeadlessEngineObject {
  import opened Common
  import opened NavigationContract
  import opened Engine
  import opened EngineRuns
  import opened EngineViews
  import opened EngineLife
  import E = Engine
  import Downloads

  /** The invariants every call keeps, whatever the scripts. */
  ghost predicate Sound(s: State) {
    && Fifo(s)
    && ViewsAgree(s) && Stamped(s.log)
    && Alive(s)
    && Downloads.Invariant(s.downloads)
  }

  lemma InitiallySound()
    ensures Sound(INITIAL)
  {
  }

  lemma NextIsSound(s: State, c: Call)
    requires Sound(s) && Possible(s, c)
    ensures Sound(Next(s, c))
  {
    NextIsFifo(s, c);
    NextKeepsViews(s, c);
    NextLives(s, c, 0);
    NextRunsDownloads(s, c);
    Downloads.RunKeepsInvariant(s.downloads, DownloadCalls(s, c));
  }

  lemma HostIsSound(s: State, k: SurfaceId, identity: string)
    requires Sound(s)
    ensures Sound(Host(s, k, identity))
  {
    hide Sound, Host;
    NextIsSound(s, CallHost(k, identity));
  }

  lemma CloseIsSound(s: State, k: SurfaceId)
    requires Sound(s)
    ensures Sound(Close(s, k))
  {
    hide Sound, Close;
    NextIsSound(s, CallClose(k));
  }

  lemma SameDocumentIsSound(s: State, k: SurfaceId, address: string)
    requires Sound(s)
    ensures Sound(SameDocument(s, k, address))
  {
    hide Sound, SameDocument;
    NextIsSound(s, CallSameDocument(k, address));
  }

  /** What a sound engine lets its surface methods rely on. */
  lemma SoundSurfaces(s: State, k: SurfaceId)
    requires Sound(s)
    ensures s.nextSurface !in s.surfaces
    ensures MayPick(s, k) ==> EnsureActive(s, k).active == Some(k) && Open(EnsureActive(s, k), k)
  {
  }

  datatype EngineEvent =
    | NavigationObserved(event: Event)
    | DownloadObserved(download: Downloads.Event)

  class HeadlessEngine {
    var responses: map<string, Response>
    var offers: map<string, DownloadScript>
    var surfaces: map<SurfaceId, Surface>
    var activeSurface: Option<SurfaceId>
    var nextSurfaceId: SurfaceId
    var nextId: NavigationId
    var loads: seq<string>
    var persistentData: map<SurfaceId, map<string, string>>
    var queue: seq<Observation>
    var downloadEvents: seq<Downloads.Event>
    var activeDownloads: map<Downloads.Token, Downloads.Download>
    ghost var nextToken: Downloads.Token
    ghost var polledDownloads: seq<Downloads.Event>
    ghost var downloadLog: seq<Downloads.Entry>
    ghost var polled: seq<Observation>
    ghost var log: seq<Record>

    ghost function DownloadValue(): Downloads.State
      reads this
    {
      Downloads.State(downloadEvents, activeDownloads, nextToken, polledDownloads, downloadLog)
    }

    ghost function Value(): State
      reads this
    {
      State(responses, offers, surfaces, activeSurface, nextSurfaceId, nextId, loads, persistentData, queue,
            DownloadValue(), polled, log)
    }

    ghost predicate Valid()
      reads this
    {
      Sound(Value())
    }

    constructor ()
      ensures Valid() && Value() == INITIAL
    {
      responses, offers, surfaces, activeSurface := map[], map[], map[], None;
      nextSurfaceId, nextId, loads, persistentData, queue := 0, 0, [], map[], [];
      downloadEvents, activeDownloads := [], map[];
      nextToken, polledDownloads, downloadLog := 1, [], [];
      polled, log := [], [];
      new;
      InitiallySound();
    }

    // ---- scripting ----

    method WithResponse(address: string, response: Response)
      requires Valid()
      modifies this
      ensures Valid() && Value() == Next(old(Value()), CallAnswer(address, response))
    {
      hide Sound;
      responses := responses[address := response];
      NextIsSound(old(Value()), CallAnswer(address, response));
    }

    method WithDownloadSequence(address: string, script: DownloadScript)
      requires Valid()
      modifies this
      ensures Valid() && Value() == Next(old(Value()), CallOffer(address, script))
    {
      hide Sound;
      offers := offers[address := script];
      NextIsSound(old(Value()), CallOffer(address, script));
    }

    // ---- surfaces ----

    method CreateSurface(store: Store) returns (k: SurfaceId)
      requires Valid()
      modifies this
      ensures Valid() && Value() == E.CreateSurface(old(Value()), store)
      ensures k == old(nextSurfaceId) && k !in old(surfaces)
    {
      hide Sound;
      SoundSurfaces(Value(), 0);
      k := nextSurfaceId;
      nextSurfaceId := k + 1;
      surfaces := surfaces[k := Surface(store, Inactive, FIRST_EPOCH, None, None, [], map[])];
      log := log + [Created(k)];
      NextIsSound(old(Value()), CallCreate(store));
    }

    method ActivateSurface(k: SurfaceId)
      requires Valid()
      modifies this
      ensures Valid() && Value() == E.Activate(old(Value()), k)
    {
      hide Sound;
      if k in surfaces {
        if surfaces[k].state.Closed? {
          return;
        }
      } else {
        return;
      }
      if activeSurface.Some? {
        var prev := activeSurface.value;
        if prev != k && prev in surfaces && surfaces[prev].state.Active? {
          surfaces := surfaces[prev := surfaces[prev].(state := Inactive)];
        }
      }
      surfaces := surfaces[k := surfaces[k].(state := Active)];
      activeSurface := Some(k);
      NextIsSound(old(Value()), CallActivate(k));
    }

    method SuspendSurface(k: SurfaceId)
      requires Valid()
      modifies this
      ensures Valid() && Value() == E.Suspend(old(Value()), k)
    {
      hide Sound;
      if k in surfaces {
        if surfaces[k].state.Closed? {
          return;
        }
        surfaces := surfaces[k := surfaces[k].(state := Suspended)];
        if activeSurface == Some(k) {
          activeSurface := None;
        }
      }
      NextIsSound(old(Value()), CallSuspend(k));
    }

    method ResumeSurface(k: SurfaceId)
      requires Valid()
      modifies this
      ensures Valid() && Value() == E.Resume(old(Value()), k)
    {
      hide Sound;
      if k in surfaces && surfaces[k].state.Suspended? {
        ActivateSurface(k);
      }
    }

    method CloseSurface(k: SurfaceId)
      requires Valid()
      modifies this
      ensures Valid() && Value() == E.Close(old(Value()), k)
    {
      hide Sound;
      if k in surfaces {
        var s := surfaces[k];
        if s.store.NonPersistent? {
          persistentData := persistentData - {k};
        } else {
          var kept := if k in persistentData then persistentData[k] else map[];
          persistentData := persistentData[k := kept + s.data];
        }
        surfaces := surfaces[k := s.(state := Closed, current := None, data := map[])];
        log := log + [Shut(k)];
      }
      if activeSurface == Some(k) {
        activeSurface := None;
      }
      CloseIsSound(old(Value()), k);
    }

    /** The surface a navigation the shell addresses to none in particular goes to. */
    method EnsureActiveSurface() returns (k: SurfaceId)
      requires Valid()
      modifies this
      ensures Valid() && MayPick(old(Value()), k) && Value() == E.EnsureActive(old(Value()), k)
      ensures activeSurface == Some(k) && Open(Value(), k)
    {
      hide Sound;
      if activeSurface.Some? {
        k := activeSurface.value;
        if k in surfaces && !surfaces[k].state.Closed? {
          return;
        }
      }
      var open := set j | j in surfaces && !surfaces[j].state.Closed?;
      if open != {} {
        k :| k in open;
        assert Open(Value(), k);
        SoundSurfaces(Value(), k);
        ActivateSurface(k);
        return;
      }
      assert forall j | j in surfaces :: j !in open;
      SoundSurfaces(Value(), nextSurfaceId);
      k := CreateSurface(Persistent);
      ActivateSurface(k);
    }

    // ---- navigations ----

    method Mint() returns (id: NavigationId)
      modifies this`nextId
      ensures id == old(nextId) && nextId == id + 1
    {
      id := nextId;
      nextId := id + 1;
    }

    method Enqueue(k: SurfaceId, epoch: nat, e: Event)
      modifies this`queue, this`log
      ensures Value() == E.Emit(old(Value()), k, epoch, e)
    {
      queue := queue + [Observation(epoch, e)];
      log := log + [Emitted(k, Observation(epoch, e))];
    }

    method ProcessSurfaceSteps(k: SurfaceId, id: NavigationId, steps: seq<ScriptStep>)
      modifies this`queue, this`log, this`surfaces
      ensures Value() == PlaySteps(old(Value()), k, id, steps)
    {
      for i := 0 to |steps|
        invariant PlaySteps(Value(), k, id, steps[i..]) == PlaySteps(old(Value()), k, id, steps)
      {
        ghost var before := Value();
        var step := steps[i];
        var epoch := if k in surfaces then surfaces[k].epoch else FIRST_EPOCH;
        match step {
          case Commit(address) =>
            if k in surfaces {
              epoch := NextEpoch(surfaces[k].epoch);
              surfaces := surfaces[k := surfaces[k].(
                epoch := epoch, current := Some(Page(address, "")), currentNav := Some(id))];
            }
          case Title(title) =>
            if k in surfaces && surfaces[k].currentNav == Some(id) && surfaces[k].current.Some? {
              var page := surfaces[k].current.value;
              surfaces := surfaces[k := surfaces[k].(current := Some(Page(page.address, title)))];
            }
          case _ =>
        }
        if k in surfaces {
          assert surfaces == before.surfaces[k := Play(before.surfaces[k], id, step)];
        }
        Enqueue(k, epoch, EventOf(id, step));
        assert Value() == PlayStep(before, k, id, step);
        assert steps[i..][0] == step && steps[i..][1..] == steps[i + 1..];
      }
      assert steps[|steps|..] == [];
    }

    /** What a navigation leaves on the surface it loads on, and in the persistent store. */
    method RecordVisit(k: SurfaceId, address: string)
      requires k in surfaces
      modifies this`surfaces, this`persistentData
      ensures Value() == Visit(old(Value()), k, address)
    {
      surfaces := surfaces[k := surfaces[k].(
        loads := surfaces[k].loads + [address],
        data := surfaces[k].data["visited_url" := address]["session_cookie" := "session_for_" + address])];
      if surfaces[k].store.Persistent? {
        var kept := if k in persistentData then persistentData[k] else map[];
        persistentData := persistentData[k := kept["visited_url" := address]];
      }
    }

    method Announce(k: SurfaceId, address: string) returns (id: NavigationId)
      modifies this`nextId, this`queue, this`log
      ensures Value() == E.Start(old(Value()), k, address) && id == old(nextId)
    {
      hide Emit;
      id := Mint();
      var epoch := if k in surfaces then surfaces[k].epoch else FIRST_EPOCH;
      Enqueue(k, epoch, Started(id, address));
    }

    /** Everything a navigation does before its script plays. */
    method Begin(k: SurfaceId, address: string, token: Downloads.Token) returns (id: NavigationId)
      modifies this
      ensures Value() == Begun(old(Value()), k, address, token) && id == old(nextId)
    {
      hide Visit, E.Start, Offer;
      loads := loads + [address];
      if k in surfaces {
        RecordVisit(k, address);
      }
      id := Announce(k, address);
      if address in offers {
        OfferDownload(address, token);
      }
    }

    method OfferDownload(address: string, token: Downloads.Token)
      requires address in offers
      modifies this`downloadEvents, this`activeDownloads, this`nextToken, this`downloadLog
      ensures Value() == E.Offer(old(Value()), address, token)
    {
      hide Downloads.Trigger;
      TriggerDownload(token, offers[address].suggestedName, offers[address].totalBytes, offers[address].steps);
    }

    method StartSurfaceNavigation(k: SurfaceId, address: string, token: Downloads.Token) returns (id: NavigationId)
      requires Valid() && nextToken <= token
      modifies this
      ensures Valid() && Value() == E.Navigate(old(Value()), k, address, token) && id == old(nextId)
    {
      hide Sound, Begun, Navigate;
      NextIsSound(Value(), CallNavigate(k, address, token));
      NavigateFrame(Value(), k, address, token);
      if k in surfaces && surfaces[k].state.Closed? {
        loads := loads + [address];
        id := Mint();
        return;
      }
      var response: Option<Response> :=
        if address in responses then Some(responses[address])
        else if address == BLOCKED_CONTENT then Some(PageResponse("Blocked Content Test Page"))
        else None;
      var hanging := address in offers && response.None?;
      id := Begin(k, address, token);
      if !hanging {
        Respond(k, id, address, response);
      }
    }

    method Respond(k: SurfaceId, id: NavigationId, address: string, response: Option<Response>)
      modifies this`queue, this`log, this`surfaces
      ensures Value() == PlaySteps(old(Value()), k, id, StepsFor(address, response))
    {
      match response {
        case Some(PageResponse(title)) =>
          ProcessSurfaceSteps(k, id, [Commit(address), Title(title), Succeed]);
        case Some(FailResponse(error)) =>
          ProcessSurfaceSteps(k, id, [Fail(error)]);
        case Some(SequenceResponse(steps)) =>
          ProcessSurfaceSteps(k, id, steps);
        case None =>
          ProcessSurfaceSteps(k, id, [Fail(Unresolvable(address))]);
      }
    }

    method StartNavigation(address: string, token: Downloads.Token) returns (id: NavigationId, ghost k: SurfaceId)
      requires Valid() && nextToken <= token
      modifies this
      ensures Valid() && MayPick(old(Value()), k) && id == old(nextId)
      ensures Value() == E.Navigate(E.EnsureActive(old(Value()), k), k, address, token)
    {
      hide Sound;
      var surface := EnsureActiveSurface();
      k := surface;
      id := StartSurfaceNavigation(surface, address, token);
    }

    /** A navigation the page content began. */
    method EngineInitiated(address: string, steps: seq<ScriptStep>) returns (ghost k: SurfaceId)
      requires Valid()
      modifies this
      ensures Valid() && MayPick(old(Value()), k)
      ensures Value() == E.Initiate(E.EnsureActive(old(Value()), k), k, address, steps)
    {
      hide Sound, Start, PlaySteps, E.EnsureActive;
      var surface := EnsureActiveSurface();
      k := surface;
      ghost var s := Value();
      var id := Announce(surface, address);
      ProcessSurfaceSteps(surface, id, steps);
      NextIsSound(s, CallInitiate(k, address, steps));
    }

    method NavigateSameDocument(k: SurfaceId, address: string) returns (id: NavigationId)
      requires Valid()
      modifies this
      ensures Valid() && Value() == E.SameDocument(old(Value()), k, address) && id == old(nextId)
    {
      hide Sound, Emit;
      id := Mint();
      var newEpoch := FIRST_EPOCH;
      if k in surfaces {
        var s := surfaces[k];
        newEpoch := NextEpoch(s.epoch);
        var title := if s.current.Some? then s.current.value.title else "";
        surfaces := surfaces[k := s.(
          epoch := newEpoch, current := Some(Page(address, title)), loads := s.loads + [address])];
      }
      Enqueue(k, newEpoch, SameDocumentNavigated(id, address));
      SameDocumentIsSound(old(Value()), k, address);
    }

    /** Puts the hosted content on its surface. */
    method ShowHosted(k: SurfaceId, identity: string) returns (newEpoch: nat)
      modifies this`surfaces
      ensures k !in old(surfaces) ==> surfaces == old(surfaces) && newEpoch == FIRST_EPOCH
      ensures k in old(surfaces) ==>
                && newEpoch == NextEpoch(old(surfaces)[k].epoch)
                && surfaces == old(surfaces)[k := old(surfaces)[k].(
                     epoch := newEpoch, current := Some(Page(identity, "")),
                     loads := old(surfaces)[k].loads + [identity])]
    {
      newEpoch := FIRST_EPOCH;
      if k in surfaces {
        var s := surfaces[k];
        newEpoch := NextEpoch(s.epoch);
        surfaces := surfaces[k := s.(
          epoch := newEpoch, current := Some(Page(identity, "")), loads := s.loads + [identity])];
      }
    }

    method HostSurfaceBytes(k: SurfaceId, identity: string) returns (id: NavigationId)
      requires Valid()
      modifies this
      ensures Valid() && Value() == E.Host(old(Value()), k, identity) && id == old(nextId)
    {
      hide Sound, Emit;
      id := Mint();
      var newEpoch := ShowHosted(k, identity);
      assert newEpoch == EpochOf(Value(), k);
      Enqueue(k, newEpoch, Started(id, identity));
      Enqueue(k, newEpoch, Committed(id, identity));
      Enqueue(k, newEpoch, Succeeded(id));
      HostIsSound(old(Value()), k, identity);
    }

    method PollObservation() returns (next: Option<Observation>)
      requires Valid()
      modifies this
      ensures Valid() && Value() == E.Poll(old(Value()))
      ensures next == if old(queue) == [] then None else Some(old(queue)[0])
    {
      hide Sound;
      NextIsSound(Value(), CallPoll);
      if queue == [] {
        next := None;
      } else {
        next := Some(queue[0]);
        polled := polled + [queue[0]];
        queue := queue[1..];
      }
    }

    // ---- downloads ----

    /** `token` is the process-wide counter's, which other engines may have moved on. */
    method TriggerDownload(token: Downloads.Token, name: string, total: Option<nat>, steps: seq<Downloads.Step>)
      modifies this`activeDownloads, this`downloadEvents, this`nextToken, this`downloadLog
      ensures DownloadValue() == Downloads.Trigger(old(DownloadValue()), token, name, total, steps)
    {
      activeDownloads := activeDownloads[token := Downloads.Download(total, steps, None, None, false, false)];
      downloadEvents := downloadEvents + [Downloads.Requested(token, name, total)];
      downloadLog := downloadLog + [Downloads.Entry(Downloads.Requested(token, name, total), Downloads.Pending)];
      nextToken := token + 1;
    }

    method AcceptDownload(token: Downloads.Token, id: Downloads.DownloadId, destination: Downloads.Path)
      requires Valid()
      modifies this
      ensures Valid()
      ensures Value() == old(Value()).(downloads := Downloads.Accept(old(DownloadValue()), token, id, destination))
    {
      hide Sound;
      NextIsSound(Value(), CallDownload(Downloads.CallAccept(token, id, destination)));
      if token !in activeDownloads || activeDownloads[token].rejected || activeDownloads[token].acceptedId.Some? {
        return;
      }
      var dl := activeDownloads[token].(acceptedId := Some(id), destination := Some(destination));
      activeDownloads := activeDownloads[token := dl];
      PlayDownload(dl.cancelled, id, destination, Downloads.Plan(dl));
    }

    method PlayDownload(cancelled: bool, id: Downloads.DownloadId, destination: Downloads.Path, steps: seq<Downloads.Step>)
      modifies this`downloadEvents, this`downloadLog
      ensures DownloadValue() == Downloads.Play(old(DownloadValue()), cancelled, id, destination, steps)
    {
      var i := 0;
      while i < |steps|
        invariant 0 <= i <= |steps|
        invariant Downloads.Play(DownloadValue(), cancelled, id, destination, steps[i..])
               == Downloads.Play(old(DownloadValue()), cancelled, id, destination, steps)
      {
        if cancelled {
          break;
        }
        var e := match steps[i]
          case Progress(received) => Downloads.Progressed(id, received)
          case Finish(_) => Downloads.Finished(id, destination)
          case Fail(cause) => Downloads.Failed(id, cause);
        downloadEvents := downloadEvents + [e];
        downloadLog := downloadLog + [Downloads.Entry(e, Downloads.Pending)];
        assert steps[i..][0] == steps[i] && steps[i..][1..] == steps[i + 1..];
        i := i + 1;
      }
    }

    method RejectDownload(token: Downloads.Token)
      requires Valid()
      modifies this
      ensures Valid() && Value() == old(Value()).(downloads := Downloads.Reject(old(DownloadValue()), token))
    {
      hide Sound;
      NextIsSound(Value(), CallDownload(Downloads.CallReject(token)));
      if token in activeDownloads {
        activeDownloads := activeDownloads[token := activeDownloads[token].(rejected := true)];
        downloadEvents := Downloads.Retain(downloadEvents, Downloads.RequestOf(token));
        downloadLog := Downloads.Strike(downloadLog, Downloads.RequestOf(token));
      }
    }

    method CancelDownload(id: Downloads.DownloadId)
      requires Valid()
      modifies this
      ensures Valid() && Value() == old(Value()).(downloads := Downloads.Cancel(old(DownloadValue()), id))
    {
      hide Sound;
      NextIsSound(Value(), CallDownload(Downloads.CallCancel(id)));
      activeDownloads := Downloads.MarkCancelled(activeDownloads, id);
      downloadEvents := Downloads.Retain(downloadEvents, Downloads.FinishOf(id)) + [Downloads.Cancelled(id)];
      downloadLog := Downloads.Strike(downloadLog, Downloads.FinishOf(id))
                     + [Downloads.Entry(Downloads.Cancelled(id), Downloads.Pending)];
    }

    method PollDownloadEvent() returns (next: Option<Downloads.Event>)
      requires Valid()
      modifies this
      ensures Valid() && Value() == old(Value()).(downloads := Downloads.Poll(old(DownloadValue())))
      ensures next == if old(downloadEvents) == [] then None else Some(old(downloadEvents)[0])
    {
      hide Sound;
      NextIsSound(Value(), CallDownload(Downloads.CallPoll));
      if downloadEvents == [] {
        next := None;
      } else {
        next := Some(downloadEvents[0]);
        polledDownloads := polledDownloads + [downloadEvents[0]];
        downloadEvents := downloadEvents[1..];
        downloadLog := Downloads.MarkPolled(downloadLog);
      }
    }

    /** Navigation events drain before download events. */
    method PollEngineEvent() returns (next: Option<EngineEvent>)
      requires Valid()
      modifies this
      ensures Valid()
      ensures old(queue) != [] ==>
                && next == Some(NavigationObserved(old(queue)[0].event))
                && Value() == E.Poll(old(Value()))
      ensures old(queue) == [] ==>
                && next == (if old(downloadEvents) == [] then None
                            else Some(DownloadObserved(old(downloadEvents)[0])))
                && Value() == old(Value()).(downloads := Downloads.Poll(old(DownloadValue())))
    {
      hide Sound;
      var observation := PollObservation();
      if observation.Some? {
        return Some(NavigationObserved(observation.value.event));
      }
      var download := PollDownloadEvent();
      if download.Some? {
        return Some(DownloadObserved(download.value));
      }
      next := None;
    }
  }
}
