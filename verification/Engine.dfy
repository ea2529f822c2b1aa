/**
 The headless engine's state and what each of its calls does to it. Beside the engine's own
 fields a state carries `log`, every event emitted, and `polled`, those drained.
 */
module Engine {
  import opened Common
  import opened NavigationContract
  import Downloads

  type SurfaceId = nat

  const U64_MAX: nat := 0xFFFF_FFFF_FFFF_FFFF
  const FIRST_EPOCH: nat := 1

  /** The epoch counter saturates. */
  function NextEpoch(epoch: nat): nat {
    if epoch < U64_MAX then epoch + 1 else U64_MAX
  }

  datatype Page = Page(address: string, title: string)

  datatype Store = Persistent | NonPersistent

  datatype SurfaceState = Active | Inactive | Suspended | Closed

  datatype Surface = Surface(
    store: Store,
    state: SurfaceState,
    epoch: nat,
    current: Option<Page>,
    currentNav: Option<NavigationId>,
    loads: seq<string>,
    data: map<string, string>)

  datatype Observation = Observation(epoch: nat, event: Event)

  /** One line of the engine's history. */
  datatype Record =
    | Created(surface: SurfaceId)
    | Shut(surface: SurfaceId)
    | Emitted(surface: SurfaceId, observation: Observation)

  datatype DownloadScript = DownloadScript(
    suggestedName: string,
    totalBytes: Option<nat>,
    steps: seq<Downloads.Step>)

  datatype State = State(
    responses: map<string, Response>,
    offers: map<string, DownloadScript>,
    surfaces: map<SurfaceId, Surface>,
    active: Option<SurfaceId>,
    nextSurface: SurfaceId,
    nextId: NavigationId,
    loads: seq<string>,
    persistent: map<SurfaceId, map<string, string>>,
    queue: seq<Observation>,
    downloads: Downloads.State,
    polled: seq<Observation>,
    log: seq<Record>)

  const INITIAL := State(map[], map[], map[], None, 0, 0, [], map[], [], Downloads.INITIAL, [], [])

  // ---- surfaces ----

  const BLANK: Surface := Surface(Persistent, Inactive, FIRST_EPOCH, None, None, [], map[])

  function CreateSurface(s: State, store: Store): State {
    s.(surfaces := s.surfaces[s.nextSurface := BLANK.(store := store)],
       nextSurface := s.nextSurface + 1,
       log := s.log + [Created(s.nextSurface)])
  }

  predicate Open(s: State, k: SurfaceId) {
    k in s.surfaces && !s.surfaces[k].state.Closed?
  }

  function SetState(surfaces: map<SurfaceId, Surface>, k: SurfaceId, state: SurfaceState): map<SurfaceId, Surface>
    requires k in surfaces
  {
    surfaces[k := surfaces[k].(state := state)]
  }

  function Activate(s: State, k: SurfaceId): State {
    if !Open(s, k) then s
    else
      var demoted :=
        if s.active.Some? && s.active.value != k && s.active.value in s.surfaces
           && s.surfaces[s.active.value].state.Active?
        then SetState(s.surfaces, s.active.value, Inactive)
        else s.surfaces;
      s.(surfaces := SetState(demoted, k, Active), active := Some(k))
  }

  function Suspend(s: State, k: SurfaceId): State {
    if !Open(s, k) then s
    else
      s.(surfaces := SetState(s.surfaces, k, Suspended),
         active := if s.active == Some(k) then None else s.active)
  }

  function Resume(s: State, k: SurfaceId): State {
    if k in s.surfaces && s.surfaces[k].state.Suspended? then Activate(s, k) else s
  }

  function Retained(s: State, k: SurfaceId): map<string, string> {
    if k in s.persistent then s.persistent[k] else map[]
  }

  /** Closing empties a surface: a private one's data is gone, a normal one's moves to the engine's store. */
  function Close(s: State, k: SurfaceId): State {
    var active := if s.active == Some(k) then None else s.active;
    if k !in s.surfaces then s.(active := active)
    else
      var surface := s.surfaces[k];
      s.(active := active,
         surfaces := s.surfaces[k := surface.(state := Closed, current := None, data := map[])],
         persistent := if surface.store.NonPersistent? then s.persistent - {k}
                       else s.persistent[k := Retained(s, k) + surface.data],
         log := s.log + [Shut(k)])
  }

  /** A surface `EnsureActive` may choose: the active one, else any open one, else a new one. */
  predicate MayPick(s: State, k: SurfaceId) {
    if s.active.Some? && Open(s, s.active.value) then k == s.active.value
    else if exists open | open in s.surfaces :: Open(s, open) then Open(s, k)
    else k == s.nextSurface
  }

  function EnsureActive(s: State, k: SurfaceId): State {
    if s.active == Some(k) && Open(s, k) then s
    else if Open(s, k) then Activate(s, k)
    else Activate(CreateSurface(s, Persistent), k)
  }

  // ---- navigations ----

  function EpochOf(s: State, k: SurfaceId): nat {
    if k in s.surfaces then s.surfaces[k].epoch else FIRST_EPOCH
  }

  function Emit(s: State, k: SurfaceId, epoch: nat, e: Event): State {
    s.(queue := s.queue + [Observation(epoch, e)], log := s.log + [Emitted(k, Observation(epoch, e))])
  }

  /** What one script step does to the surface it plays on. */
  function Play(surface: Surface, id: NavigationId, step: ScriptStep): Surface {
    match step
    case Commit(address) =>
      surface.(epoch := NextEpoch(surface.epoch), current := Some(Page(address, "")), currentNav := Some(id))
    case Title(title) =>
      if surface.currentNav == Some(id) && surface.current.Some?
      then surface.(current := Some(surface.current.value.(title := title)))
      else surface
    case _ => surface
  }

  function PlayStep(s: State, k: SurfaceId, id: NavigationId, step: ScriptStep): State {
    var s' := if k in s.surfaces then s.(surfaces := s.surfaces[k := Play(s.surfaces[k], id, step)]) else s;
    Emit(s', k, EpochOf(s', k), EventOf(id, step))
  }

  function PlaySteps(s: State, k: SurfaceId, id: NavigationId, steps: seq<ScriptStep>): State
    decreases |steps|
  {
    if steps == [] then s else PlaySteps(PlayStep(s, k, id, steps[0]), k, id, steps[1..])
  }

  const BLOCKED_CONTENT := "https://blocked-content.test/"

  function Answer(s: State, address: string): Option<Response> {
    if address in s.responses then Some(s.responses[address])
    else if address == BLOCKED_CONTENT then Some(PageResponse("Blocked Content Test Page"))
    else None
  }

  function StepsFor(address: string, answer: Option<Response>): seq<ScriptStep> {
    match answer
    case Some(PageResponse(title)) => [Commit(address), Title(title), Succeed]
    case Some(FailResponse(error)) => [Fail(error)]
    case Some(SequenceResponse(steps)) => steps
    case None => [Fail(Unresolvable(address))]
  }

  /** What loading an address leaves behind on its surface and in the persistent store. */
  function Visit(s: State, k: SurfaceId, address: string): State
    requires k in s.surfaces
  {
    var surface := s.surfaces[k];
    s.(surfaces := s.surfaces[k := surface.(
         loads := surface.loads + [address],
         data := surface.data["visited_url" := address]["session_cookie" := "session_for_" + address])],
       persistent := if surface.store.Persistent?
                     then s.persistent[k := Retained(s, k)["visited_url" := address]]
                     else s.persistent)
  }

  /** Mints an identifier and announces the navigation that carries it. */
  function Start(s: State, k: SurfaceId, address: string): State {
    Emit(s.(nextId := s.nextId + 1), k, EpochOf(s, k), Started(s.nextId, address))
  }

  function Offer(s: State, address: string, token: Downloads.Token): State
    requires address in s.offers
  {
    var offer := s.offers[address];
    s.(downloads := Downloads.Trigger(s.downloads, token, offer.suggestedName, offer.totalBytes, offer.steps))
  }

  /** The script a navigation to `address` plays: a download with no page of its own leaves it hanging. */
  function ScriptFor(s: State, address: string): seq<ScriptStep> {
    if address in s.offers && Answer(s, address).None? then []
    else StepsFor(address, Answer(s, address))
  }

  function Navigate(s: State, k: SurfaceId, address: string, token: Downloads.Token): State {
    var s1 := s.(loads := s.loads + [address]);
    if k in s.surfaces && s.surfaces[k].state.Closed? then s1.(nextId := s.nextId + 1)
    else
      var s2 := Start(if k in s.surfaces then Visit(s1, k, address) else s1, k, address);
      var s3 := if address in s.offers then Offer(s2, address, token) else s2;
      PlaySteps(s3, k, s.nextId, ScriptFor(s, address))
  }

  /** A navigation the page began: announced and played, with no request from the shell. */
  function Initiate(s: State, k: SurfaceId, address: string, steps: seq<ScriptStep>): State {
    PlaySteps(Start(s, k, address), k, s.nextId, steps)
  }

  function SameDocument(s: State, k: SurfaceId, address: string): State {
    var s1 := s.(nextId := s.nextId + 1);
    if k !in s.surfaces then Emit(s1, k, FIRST_EPOCH, SameDocumentNavigated(s.nextId, address))
    else
      var surface := s.surfaces[k];
      var title := if surface.current.Some? then surface.current.value.title else "";
      var s2 := s1.(surfaces := s.surfaces[k := surface.(
        epoch := NextEpoch(surface.epoch),
        current := Some(Page(address, title)),
        loads := surface.loads + [address])]);
      Emit(s2, k, NextEpoch(surface.epoch), SameDocumentNavigated(s.nextId, address))
  }

  /** Shows shell-supplied content under `identity`: a whole navigation at once. */
  function Host(s: State, k: SurfaceId, identity: string): State {
    var id := s.nextId;
    var s1 := s.(nextId := id + 1);
    var s2 :=
      if k !in s.surfaces then s1
      else
        var surface := s.surfaces[k];
        s1.(surfaces := s.surfaces[k := surface.(
          epoch := NextEpoch(surface.epoch),
          current := Some(Page(identity, "")),
          loads := surface.loads + [identity])]);
    var epoch := EpochOf(s2, k);
    Emit(Emit(Emit(s2, k, epoch, Started(id, identity)), k, epoch, Committed(id, identity)),
         k, epoch, Succeeded(id))
  }

  function Poll(s: State): State {
    if s.queue == [] then s
    else s.(queue := s.queue[1..], polled := s.polled + [s.queue[0]])
  }

  // ---- runs ----

  datatype Call =
    | CallAnswer(address: string, response: Response)
    | CallOffer(address: string, script: DownloadScript)
    | CallCreate(store: Store)
    | CallActivate(k: SurfaceId)
    | CallSuspend(k: SurfaceId)
    | CallResume(k: SurfaceId)
    | CallClose(k: SurfaceId)
    | CallEnsureActive(k: SurfaceId)
    | CallNavigate(k: SurfaceId, address: string, token: Downloads.Token)
    | CallInitiate(k: SurfaceId, address: string, steps: seq<ScriptStep>)
    | CallSameDocument(k: SurfaceId, address: string)
    | CallHost(k: SurfaceId, identity: string)
    | CallPoll
    | CallDownload(call: Downloads.Call)

  function Next(s: State, c: Call): State {
    match c
    case CallAnswer(address, response) => s.(responses := s.responses[address := response])
    case CallOffer(address, script) => s.(offers := s.offers[address := script])
    case CallCreate(store) => CreateSurface(s, store)
    case CallActivate(k) => Activate(s, k)
    case CallSuspend(k) => Suspend(s, k)
    case CallResume(k) => Resume(s, k)
    case CallClose(k) => Close(s, k)
    case CallEnsureActive(k) => EnsureActive(s, k)
    case CallNavigate(k, address, token) => Navigate(s, k, address, token)
    case CallInitiate(k, address, steps) => Initiate(s, k, address, steps)
    case CallSameDocument(k, address) => SameDocument(s, k, address)
    case CallHost(k, identity) => Host(s, k, identity)
    case CallPoll => Poll(s)
    case CallDownload(call) => s.(downloads := Downloads.Next(s.downloads, call))
  }

  /** The engine's free choices are ones it may make: the surface it picks, the tokens it issues. A page begins a
      navigation on a surface that is open. */
  predicate Possible(s: State, c: Call) {
    && (c.CallEnsureActive? ==> MayPick(s, c.k))
    && (c.CallInitiate? ==> Open(s, c.k))
    && (c.CallNavigate? ==> s.downloads.nextToken <= c.token)
    && (c.CallDownload? ==> Downloads.Issuable(s.downloads, c.call))
  }

  predicate PossibleRun(s: State, calls: seq<Call>)
    decreases |calls|
  {
    calls != [] ==> Possible(s, calls[0]) && PossibleRun(Next(s, calls[0]), calls[1..])
  }

  function Run(s: State, calls: seq<Call>): State
    decreases |calls|
  {
    if calls == [] then s else Run(Next(s, calls[0]), calls[1..])
  }

  predicate Mints(c: Call) {
    c.CallNavigate? || c.CallInitiate? || c.CallSameDocument? || c.CallHost?
  }
}
