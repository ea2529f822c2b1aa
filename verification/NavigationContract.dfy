/** What the rendering seam promises about one navigation's events, and the scripts that keep it. */
module NavigationContract {
  import opened Common

  type NavigationId = nat

  datatype LoadError =
    | Unresolvable(address: string)
    | Certificate(address: string, detail: string)
    | Intercepted(address: string)
    | AuthenticationRequired(address: string)

  datatype Event =
    | Started(id: NavigationId, address: string)
    | Redirected(id: NavigationId, address: string)
    | Committed(id: NavigationId, address: string)
    | SameDocumentNavigated(id: NavigationId, address: string)
    | Succeeded(id: NavigationId)
    | Failed(id: NavigationId, error: LoadError)
    | TitleChanged(id: NavigationId, title: string)
    | NavigatedAway(id: NavigationId)

  datatype ScriptStep =
    | Redirect(address: string)
    | Commit(address: string)
    | Title(title: string)
    | Succeed
    | Fail(error: LoadError)
    | NavigateAway

  datatype Response =
    | PageResponse(title: string)
    | FailResponse(error: LoadError)
    | SequenceResponse(steps: seq<ScriptStep>)

  function EventOf(id: NavigationId, step: ScriptStep): Event {
    match step
    case Redirect(address) => Redirected(id, address)
    case Commit(address) => Committed(id, address)
    case Title(title) => TitleChanged(id, title)
    case Succeed => Succeeded(id)
    case Fail(error) => Failed(id, error)
    case NavigateAway => NavigatedAway(id)
  }

  function EventsOf(id: NavigationId, steps: seq<ScriptStep>): (events: seq<Event>)
    ensures |events| == |steps|
    ensures forall i | 0 <= i < |steps| :: events[i] == EventOf(id, steps[i])
  {
    seq(|steps|, i requires 0 <= i < |steps| => EventOf(id, steps[i]))
  }

  /** The trace of a navigation that plays `steps`. */
  function ScriptTrace(id: NavigationId, address: string, steps: seq<ScriptStep>): seq<Event> {
    [Started(id, address)] + EventsOf(id, steps)
  }

  // ---- the contract ----

  predicate Outcome(e: Event) {
    e.Succeeded? || e.Failed? || e.NavigatedAway?
  }

  ghost predicate CommittedBefore(t: seq<Event>, j: nat)
    requires j <= |t|
  {
    exists i :: 0 <= i < j && t[i].Committed?
  }

  /** `Started` opens the trace and appears nowhere else. */
  ghost predicate StartedFirst(t: seq<Event>) {
    forall i | 0 <= i < |t| :: (t[i].Started? <==> i == 0) && !t[i].SameDocumentNavigated?
  }

  /** A redirection comes strictly before the commit, and there is at most one commit. */
  ghost predicate CommitsOnceAfterRedirects(t: seq<Event>) {
    forall i, j | 0 <= i < j < |t| :: t[i].Committed? ==> !t[j].Committed? && !t[j].Redirected?
  }

  /** An outcome ends the navigation: only titles follow, so it is the only outcome. */
  ghost predicate EndsOnce(t: seq<Event>) {
    forall i, j | 0 <= i < j < |t| :: Outcome(t[i]) ==> t[j].TitleChanged?
  }

  /** Success and titles need the commit before them. */
  ghost predicate CommitComesFirst(t: seq<Event>) {
    forall j | 0 <= j < |t| :: t[j].Succeeded? || t[j].TitleChanged? ==> CommittedBefore(t, j)
  }

  /** A navigation that failed never committed. */
  ghost predicate FailureExcludesCommit(t: seq<Event>) {
    forall i, j | 0 <= i < |t| && 0 <= j < |t| :: t[i].Failed? ==> !t[j].Committed?
  }

  /** Nothing at all follows an abandonment. */
  ghost predicate AbandonmentIsFinal(t: seq<Event>) {
    forall i | 0 <= i < |t| - 1 :: !t[i].NavigatedAway?
  }

  ghost predicate ObeysContract(t: seq<Event>) {
    && StartedFirst(t)
    && CommitsOnceAfterRedirects(t)
    && EndsOnce(t)
    && CommitComesFirst(t)
    && FailureExcludesCommit(t)
    && AbandonmentIsFinal(t)
  }

  // ---- the grammar ----

  datatype Phase = Opening | Shown | Loaded | Ended

  function Advance(p: Phase, step: ScriptStep): Option<Phase> {
    match (p, step)
    case (Opening, Redirect(_)) => Some(Opening)
    case (Opening, Commit(_)) => Some(Shown)
    case (Opening, Fail(_)) => Some(Ended)
    case (Opening, NavigateAway) => Some(Ended)
    case (Shown, Title(_)) => Some(Shown)
    case (Shown, Succeed) => Some(Loaded)
    case (Shown, NavigateAway) => Some(Ended)
    case (Loaded, Title(_)) => Some(Loaded)
    case _ => None
  }

  function PhaseAfter(steps: seq<ScriptStep>): Option<Phase> {
    if steps == [] then Some(Opening)
    else
      match PhaseAfter(steps[..|steps| - 1])
      case None => None
      case Some(p) => Advance(p, steps[|steps| - 1])
  }

  predicate Follows(steps: seq<ScriptStep>) {
    PhaseAfter(steps).Some?
  }

  // ---- the two agree ----

  /** What a trace in phase `p` has and has not shown. */
  ghost predicate InPhase(t: seq<Event>, p: Phase) {
    && (p.Opening? ==> forall i | 0 <= i < |t| :: t[i].Started? || t[i].Redirected?)
    && (p.Shown? ==>
          && CommittedBefore(t, |t|)
          && forall i | 0 <= i < |t| :: !Outcome(t[i]))
    && (p.Loaded? ==>
          && CommittedBefore(t, |t|)
          && (forall i | 0 <= i < |t| :: !t[i].Failed? && !t[i].NavigatedAway?)
          && exists i :: 0 <= i < |t| && t[i].Succeeded?)
    && (p.Ended? ==> t != [] && (t[|t| - 1].Failed? || t[|t| - 1].NavigatedAway?))
  }

  lemma PrefixObeys(t: seq<Event>, e: Event)
    requires ObeysContract(t + [e])
    ensures ObeysContract(t)
  {
    var whole := t + [e];
    assert forall i | 0 <= i < |t| :: t[i] == whole[i];
    forall j | 0 <= j < |t| && (t[j].Succeeded? || t[j].TitleChanged?)
      ensures CommittedBefore(t, j)
    {
      assert CommittedBefore(whole, j);
      var i :| 0 <= i < j && whole[i].Committed?;
      assert t[i].Committed?;
    }
  }

  lemma CommittedStays(t: seq<Event>, e: Event, j: nat)
    requires j <= |t| && CommittedBefore(t, j)
    ensures CommittedBefore(t + [e], j)
  {
    var i :| 0 <= i < j && t[i].Committed?;
    assert (t + [e])[i].Committed?;
  }

  /** A step the grammar takes extends a contract trace to a contract trace. */
  lemma AdvanceObeys(t: seq<Event>, p: Phase, id: NavigationId, step: ScriptStep)
    requires t != [] && ObeysContract(t) && InPhase(t, p) && Advance(p, step).Some?
    ensures ObeysContract(t + [EventOf(id, step)])
  {
    var e := EventOf(id, step);
    var whole := t + [e];
    assert forall i | 0 <= i < |t| :: whole[i] == t[i];
    forall j | 0 <= j < |whole| && (whole[j].Succeeded? || whole[j].TitleChanged?)
      ensures CommittedBefore(whole, j)
    {
      CommittedStays(t, e, if j < |t| then j else |t|);
    }
  }

  /** It leaves the trace in the phase the grammar names. */
  lemma AdvanceMoves(t: seq<Event>, p: Phase, id: NavigationId, step: ScriptStep)
    requires t != [] && InPhase(t, p) && Advance(p, step).Some?
    ensures InPhase(t + [EventOf(id, step)], Advance(p, step).value)
  {
    var e := EventOf(id, step);
    var whole := t + [e];
    assert forall i | 0 <= i < |t| :: whole[i] == t[i];
    assert whole[|t|] == e;
    if p.Shown? || p.Loaded? {
      CommittedStays(t, e, |t|);
      assert CommittedBefore(whole, |whole|);
    }
    if p.Loaded? {
      var i :| 0 <= i < |t| && t[i].Succeeded?;
      assert whole[i].Succeeded?;
    }
  }

  /** A step the grammar refuses breaks the contract. */
  lemma RefusalBreaks(t: seq<Event>, p: Phase, id: NavigationId, step: ScriptStep)
    requires t != [] && ObeysContract(t) && InPhase(t, p) && Advance(p, step).None?
    ensures !ObeysContract(t + [EventOf(id, step)])
  {
    var e := EventOf(id, step);
    var whole := t + [e];
    assert whole[|t|] == e;
    assert forall i | 0 <= i < |t| :: whole[i] == t[i];
    match p
    case Opening =>
      assert !CommittedBefore(whole, |t|);
    case Shown =>
      var i :| 0 <= i < |t| && t[i].Committed?;
      assert whole[i].Committed?;
    case Loaded =>
      var i :| 0 <= i < |t| && t[i].Succeeded?;
      assert Outcome(whole[i]);
    case Ended =>
      assert Outcome(whole[|t| - 1]);
  }

  lemma {:induction false} PhaseDescribesTrace(id: NavigationId, address: string, steps: seq<ScriptStep>)
    ensures Follows(steps) <==> ObeysContract(ScriptTrace(id, address, steps))
    ensures Follows(steps) ==> InPhase(ScriptTrace(id, address, steps), PhaseAfter(steps).value)
  {
    if steps != [] {
      var init, last := steps[..|steps| - 1], steps[|steps| - 1];
      PhaseDescribesTrace(id, address, init);
      var t := ScriptTrace(id, address, init);
      assert ScriptTrace(id, address, steps) == t + [EventOf(id, last)];
      if !Follows(init) {
        if ObeysContract(t + [EventOf(id, last)]) {
          PrefixObeys(t, EventOf(id, last));
        }
      } else if Advance(PhaseAfter(init).value, last).Some? {
        AdvanceObeys(t, PhaseAfter(init).value, id, last);
        AdvanceMoves(t, PhaseAfter(init).value, id, last);
      } else {
        RefusalBreaks(t, PhaseAfter(init).value, id, last);
      }
    }
  }

  /** A script yields a trace the contract allows exactly when it follows the grammar. */
  lemma ScriptObeysContractIffItFollows(id: NavigationId, address: string, steps: seq<ScriptStep>)
    ensures Follows(steps) <==> ObeysContract(ScriptTrace(id, address, steps))
  {
    PhaseDescribesTrace(id, address, steps);
  }

  /** The scripts the engine writes for itself follow the grammar. */
  lemma OwnScriptsFollow(address: string, title: string, error: LoadError)
    ensures Follows([])
    ensures Follows([Commit(address), Title(title), Succeed])
    ensures Follows([Fail(error)])
  {
    var whole := [Commit(address), Title(title), Succeed];
    assert whole[..2] == [Commit(address), Title(title)];
    assert whole[..2][..1] == [Commit(address)];
    assert whole[..2][..1][..0] == [];
    assert PhaseAfter(whole[..2][..1]) == Some(Shown);
    assert [Fail(error)][..0] == [];
  }
}
