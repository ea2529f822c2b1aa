/** What a navigation comes to, by what the engine was told of its address. */
module EngineOutcomes {
  import opened Common
  import opened NavigationContract
  import opened Engine
  import opened EngineRuns
  import Downloads

  /** A surface a navigation is not refused on: open, or one the engine does not know. */
  predicate Accepts(s: State, k: SurfaceId) {
    k in s.surfaces ==> !s.surfaces[k].state.Closed?
  }

  predicate Unscripted(s: State, address: string) {
    address !in s.responses && address != "https://blocked-content.test/"
  }

  /** The address has a page, scripted or the one the engine knows of itself. */
  predicate HasPage(s: State, address: string, title: string) {
    if address in s.responses then s.responses[address] == PageResponse(title)
    else address == "https://blocked-content.test/" && title == "Blocked Content Test Page"
  }

  function Records(k: SurfaceId, said: seq<Observation>): seq<Record> {
    seq(|said|, i requires 0 <= i < |said| => Emitted(k, said[i]))
  }

  /** Just these observations were made on `k`, in this order. */
  predicate Says(s: State, s': State, k: SurfaceId, said: seq<Observation>) {
    s'.queue == s.queue + said && s'.log == s.log + Records(k, said)
  }

  /** The surface shows what it showed. */
  predicate ShowsTheSame(s: State, s': State, k: SurfaceId) {
    k in s.surfaces ==>
      && k in s'.surfaces && s'.surfaces[k].current == s.surfaces[k].current
      && s'.surfaces[k].epoch == s.surfaces[k].epoch && s'.surfaces[k].currentNav == s.surfaces[k].currentNav
  }

  predicate ShowsPage(s: State, k: SurfaceId, id: NavigationId, page: Page, epoch: nat) {
    k in s.surfaces ==>
      s.surfaces[k].current == Some(page) && s.surfaces[k].epoch == epoch && s.surfaces[k].currentNav == Some(id)
  }

  // ---- playing a script ----

  /** A state with more said on `k`, which now is `v` if the engine knows it. */
  function After(s: State, k: SurfaceId, said: seq<Observation>, v: Surface): State {
    s.(queue := s.queue + said, log := s.log + Records(k, said),
       surfaces := if k in s.surfaces then s.surfaces[k := v] else s.surfaces)
  }

  lemma AfterAfter(s: State, k: SurfaceId, a: seq<Observation>, v: Surface, b: seq<Observation>, w: Surface)
    ensures After(After(s, k, a, v), k, b, w) == After(s, k, a + b, w)
  {
    assert Records(k, a + b) == Records(k, a) + Records(k, b);
    Associate(s.queue, a, b);
    Associate(s.log, Records(k, a), Records(k, b));
  }

  /** The surface, or a blank one where the engine knows none. */
  function SurfaceOf(s: State, k: SurfaceId): Surface {
    if k in s.surfaces then s.surfaces[k] else BLANK
  }

  lemma PlayStepSays(s: State, k: SurfaceId, id: NavigationId, step: ScriptStep)
    ensures var v := Play(SurfaceOf(s, k), id, step);
            var epoch := if k in s.surfaces then v.epoch else FIRST_EPOCH;
            PlayStep(s, k, id, step) == After(s, k, [Observation(epoch, EventOf(id, step))], v)
  {
    hide Play, EventOf;
    var e := EventOf(id, step);
    assert forall epoch :: Records(k, [Observation(epoch, e)]) == [Emitted(k, Observation(epoch, e))];
  }

  lemma PlayNothing(s: State, k: SurfaceId, id: NavigationId)
    ensures PlaySteps(s, k, id, []) == s
  {
  }

  lemma PlayFirst(s: State, k: SurfaceId, id: NavigationId, step: ScriptStep, rest: seq<ScriptStep>)
    ensures PlaySteps(s, k, id, [step] + rest) == PlaySteps(PlayStep(s, k, id, step), k, id, rest)
  {
    assert ([step] + rest)[1..] == rest;
  }

  lemma FailureSays(s: State, k: SurfaceId, id: NavigationId, error: LoadError)
    ensures var s' := PlaySteps(s, k, id, [Fail(error)]);
            Says(s, s', k, [Observation(EpochOf(s, k), Failed(id, error))]) && ShowsTheSame(s, s', k)
  {
    hide PlaySteps, PlayStep;
    assert [Fail(error)] == [Fail(error)] + [];
    PlayFirst(s, k, id, Fail(error), []);
    PlayNothing(PlayStep(s, k, id, Fail(error)), k, id);
    PlayStepSays(s, k, id, Fail(error));
  }

  lemma PageSays(s: State, k: SurfaceId, id: NavigationId, address: string, title: string)
    ensures var s' := PlaySteps(s, k, id, [Commit(address), Title(title), Succeed]);
            var epoch := if k in s.surfaces then NextEpoch(s.surfaces[k].epoch) else FIRST_EPOCH;
            && Says(s, s', k, [Observation(epoch, Committed(id, address)), Observation(epoch, TitleChanged(id, title)),
                               Observation(epoch, Succeeded(id))])
            && ShowsPage(s', k, id, Page(address, title), epoch)
  {
    hide PlaySteps, PlayStep, NextEpoch, Records;
    var epoch := if k in s.surfaces then NextEpoch(s.surfaces[k].epoch) else FIRST_EPOCH;
    var s1 := PlayStep(s, k, id, Commit(address));
    var s2 := PlayStep(s1, k, id, Title(title));
    var s3 := PlayStep(s2, k, id, Succeed);
    ThreeSteps(s, k, id, Commit(address), Title(title), Succeed);
    PlayStepSays(s, k, id, Commit(address));
    PlayStepSays(s1, k, id, Title(title));
    PlayStepSays(s2, k, id, Succeed);
    var a, b, c := Observation(epoch, Committed(id, address)), Observation(epoch, TitleChanged(id, title)),
                   Observation(epoch, Succeeded(id));
    var v1 := Play(SurfaceOf(s, k), id, Commit(address));
    var v2 := Play(SurfaceOf(s1, k), id, Title(title));
    var v3 := Play(SurfaceOf(s2, k), id, Succeed);
    AfterAfter(s, k, [a], v1, [b], v2);
    AfterAfter(s, k, [a] + [b], v2, [c], v3);
    assert [a] + [b] + [c] == [a, b, c];
  }

  lemma ThreeSteps(s: State, k: SurfaceId, id: NavigationId, a: ScriptStep, b: ScriptStep, c: ScriptStep)
    ensures PlaySteps(s, k, id, [a, b, c]) == PlayStep(PlayStep(PlayStep(s, k, id, a), k, id, b), k, id, c)
  {
    hide PlaySteps, PlayStep;
    assert [a, b, c] == [a] + ([b] + ([c] + []));
    PlayFirst(s, k, id, a, [b] + ([c] + []));
    PlayFirst(PlayStep(s, k, id, a), k, id, b, [c] + []);
    PlayFirst(PlayStep(PlayStep(s, k, id, a), k, id, b), k, id, c, []);
    PlayNothing(PlayStep(PlayStep(PlayStep(s, k, id, a), k, id, b), k, id, c), k, id);
  }

  // ---- navigations ----

  lemma BegunSays(s: State, k: SurfaceId, address: string, token: Downloads.Token)
    ensures var b := Begun(s, k, address, token);
            && Says(s, b, k, [Observation(EpochOf(s, k), Started(s.nextId, address))])
            && ShowsTheSame(s, b, k) && EpochOf(b, k) == EpochOf(s, k) && b.surfaces.Keys == s.surfaces.Keys
  {
    var o := Observation(EpochOf(s, k), Started(s.nextId, address));
    assert Records(k, [o]) == [Emitted(k, o)];
  }

  lemma SaysMore(s: State, t: State, u: State, k: SurfaceId, a: seq<Observation>, b: seq<Observation>)
    requires Says(s, t, k, a) && Says(t, u, k, b)
    ensures Says(s, u, k, a + b)
  {
    assert Records(k, a + b) == Records(k, a) + Records(k, b);
  }

  /** An address the engine was told nothing of is announced and fails, and the page stays. */
  lemma UnscriptedFails(s: State, k: SurfaceId, address: string, token: Downloads.Token)
    requires Accepts(s, k) && Unscripted(s, address) && address !in s.offers
    ensures var s' := Navigate(s, k, address, token);
            && Says(s, s', k, [Observation(EpochOf(s, k), Started(s.nextId, address)),
                               Observation(EpochOf(s, k), Failed(s.nextId, Unresolvable(address)))])
            && ShowsTheSame(s, s', k)
  {
    hide Begun, PlaySteps, Says;
    BegunSays(s, k, address, token);
    NavigateFrame(s, k, address, token);
    var b := Begun(s, k, address, token);
    FailureSays(b, k, s.nextId, Unresolvable(address));
    var first, last := Observation(EpochOf(s, k), Started(s.nextId, address)), Observation(EpochOf(s, k), Failed(s.nextId, Unresolvable(address)));
    SaysMore(s, b, Navigate(s, k, address, token), k, [first], [last]);
    assert [first] + [last] == [first, last];
  }

  /** An address scripted to fail is announced and fails with that error, and the page stays. */
  lemma ScriptedFailureFails(s: State, k: SurfaceId, address: string, token: Downloads.Token, error: LoadError)
    requires Accepts(s, k) && address in s.responses && s.responses[address] == FailResponse(error)
    ensures var s' := Navigate(s, k, address, token);
            && Says(s, s', k, [Observation(EpochOf(s, k), Started(s.nextId, address)),
                               Observation(EpochOf(s, k), Failed(s.nextId, error))])
            && ShowsTheSame(s, s', k)
  {
    hide Begun, PlaySteps, Says;
    BegunSays(s, k, address, token);
    NavigateFrame(s, k, address, token);
    var b := Begun(s, k, address, token);
    FailureSays(b, k, s.nextId, error);
    var first, last := Observation(EpochOf(s, k), Started(s.nextId, address)), Observation(EpochOf(s, k), Failed(s.nextId, error));
    SaysMore(s, b, Navigate(s, k, address, token), k, [first], [last]);
    assert [first] + [last] == [first, last];
  }

  /** An address with a page is announced, committed, titled and loaded, at the next epoch, and the page is shown. */
  lemma PageLoads(s: State, k: SurfaceId, address: string, token: Downloads.Token, title: string)
    requires Accepts(s, k) && HasPage(s, address, title)
    ensures var s', id := Navigate(s, k, address, token), s.nextId;
            var epoch := if k in s.surfaces then NextEpoch(s.surfaces[k].epoch) else FIRST_EPOCH;
            && Says(s, s', k, [Observation(EpochOf(s, k), Started(id, address)), Observation(epoch, Committed(id, address)),
                               Observation(epoch, TitleChanged(id, title)), Observation(epoch, Succeeded(id))])
            && ShowsPage(s', k, id, Page(address, title), epoch)
  {
    hide Begun, PlaySteps, Says, NextEpoch;
    BegunSays(s, k, address, token);
    NavigateFrame(s, k, address, token);
    var b, id := Begun(s, k, address, token), s.nextId;
    var epoch := if k in s.surfaces then NextEpoch(s.surfaces[k].epoch) else FIRST_EPOCH;
    PageSays(b, k, id, address, title);
    var first := [Observation(EpochOf(s, k), Started(id, address))];
    var rest := [Observation(epoch, Committed(id, address)), Observation(epoch, TitleChanged(id, title)),
                 Observation(epoch, Succeeded(id))];
    SaysMore(s, b, Navigate(s, k, address, token), k, first, rest);
    assert first + rest == [first[0], rest[0], rest[1], rest[2]];
  }

  /** An address that only offers a download is announced, and nothing more is said of the navigation. */
  lemma OfferIsOnlyAnnounced(s: State, k: SurfaceId, address: string, token: Downloads.Token)
    requires Accepts(s, k) && Unscripted(s, address) && address in s.offers
    ensures var s' := Navigate(s, k, address, token);
            Says(s, s', k, [Observation(EpochOf(s, k), Started(s.nextId, address))]) && ShowsTheSame(s, s', k)
  {
    hide Begun, PlaySteps, Says;
    BegunSays(s, k, address, token);
    NavigateFrame(s, k, address, token);
    PlayNothing(Begun(s, k, address, token), k, s.nextId);
  }

  /** An address with a scripted sequence is announced, and one event follows for each of its steps, in order. */
  lemma SequencePlays(s: State, k: SurfaceId, address: string, token: Downloads.Token, steps: seq<ScriptStep>)
    requires Accepts(s, k) && address in s.responses && s.responses[address] == SequenceResponse(steps)
    requires TraceOf(s.log, s.nextId) == []
    ensures TraceOf(Navigate(s, k, address, token).log, s.nextId) == [Started(s.nextId, address)] + EventsOf(s.nextId, steps)
  {
    hide PlaySteps, TraceOf;
    NavigateFrame(s, k, address, token);
    var s1 := s.(loads := s.loads + [address]);
    var visited := if k in s.surfaces then Visit(s1, k, address) else s1;
    PlayedTrace(visited, Begun(s, k, address, token), k, address, steps);
  }

  /** Beside what it says and shows, a navigation puts the address among the loads, its traces in the surface's data
      and, for a normal surface, in the engine's store, and announces the download the address offers. */
  ghost predicate Leaves(s: State, s': State, k: SurfaceId, address: string, token: Downloads.Token) {
    && s'.loads == s.loads + [address] && s'.nextId == s.nextId + 1
    && s'.responses == s.responses && s'.offers == s.offers && s'.polled == s.polled
    && s'.active == s.active && s'.nextSurface == s.nextSurface && s'.surfaces.Keys == s.surfaces.Keys
    && (forall j | j in s.surfaces && j != k :: s'.surfaces[j] == s.surfaces[j])
    && (k in s.surfaces ==>
          && s'.surfaces[k].store == s.surfaces[k].store && s'.surfaces[k].state == s.surfaces[k].state
          && s'.surfaces[k].loads == s.surfaces[k].loads + [address]
          && s'.surfaces[k].data ==
             s.surfaces[k].data["visited_url" := address]["session_cookie" := "session_for_" + address])
    && s'.persistent == (if k in s.surfaces && s.surfaces[k].store.Persistent?
                         then s.persistent[k := (if k in s.persistent then s.persistent[k] else map[])["visited_url" := address]]
                         else s.persistent)
    && s'.downloads == (if address in s.offers
                        then Downloads.Trigger(s.downloads, token, s.offers[address].suggestedName,
                                               s.offers[address].totalBytes, s.offers[address].steps)
                        else s.downloads)
  }

  lemma NavigationLeaves(s: State, k: SurfaceId, address: string, token: Downloads.Token)
    requires Accepts(s, k)
    ensures Leaves(s, Navigate(s, k, address, token), k, address, token)
  {
    BegunLeaves(s, k, address, token);
    hide Navigate, PlaySteps, Downloads.Trigger, Begun;
    NavigateFrame(s, k, address, token);
  }

  lemma BegunLeaves(s: State, k: SurfaceId, address: string, token: Downloads.Token)
    ensures Leaves(s, Begun(s, k, address, token), k, address, token)
  {
    hide Downloads.Trigger, EpochOf;
  }

  /** A closed surface refuses a navigation: the load is recorded and an id taken, and nothing else. */
  lemma ClosedRefuses(s: State, k: SurfaceId, address: string, token: Downloads.Token)
    requires !Accepts(s, k)
    ensures Navigate(s, k, address, token) == s.(loads := s.loads + [address], nextId := s.nextId + 1)
  {
  }
}
