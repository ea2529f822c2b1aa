/** The download handshake, with a log of every event ever emitted and what became of it. */
module Downloads {
  import opened Common

  type Token = nat
  type DownloadId = nat
  type Path = string

  datatype Step =
    | Progress(received: nat)
    | Finish(payload: Option<seq<bv8>>)
    | Fail(cause: string)

  datatype Event =
    | Requested(token: Token, suggestedName: string, totalBytes: Option<nat>)
    | Progressed(id: DownloadId, received: nat)
    | Finished(id: DownloadId, path: Path)
    | Failed(id: DownloadId, cause: string)
    | Cancelled(id: DownloadId)

  datatype Download = Download(
    totalBytes: Option<nat>,
    steps: seq<Step>,
    acceptedId: Option<DownloadId>,
    destination: Option<Path>,
    rejected: bool,
    cancelled: bool)

  /** Which undrained events a call takes back. */
  datatype Retraction = RequestOf(token: Token) | FinishOf(id: DownloadId)

  /** What became of an emitted event. */
  datatype Fate = Pending | Polled | Retracted

  datatype Entry = Entry(event: Event, fate: Fate)

  /** `nextToken` is at most every token the process-wide counter may still issue. */
  datatype State = State(
    queue: seq<Event>,
    active: map<Token, Download>,
    nextToken: Token,
    polled: seq<Event>,
    log: seq<Entry>)

  const INITIAL := State([], map[], 1, [], [])

  // ---- the calls ----

  function Emit(d: State, e: Event): State {
    d.(queue := d.queue + [e], log := d.log + [Entry(e, Pending)])
  }

  predicate Takes(r: Retraction, e: Event) {
    match r
    case RequestOf(token) => e.Requested? && e.token == token
    case FinishOf(id) => e.Finished? && e.id == id
  }

  /** The events of a queue that `r` leaves in it. */
  function Retain(queue: seq<Event>, r: Retraction): seq<Event> {
    if queue == [] then []
    else
      var kept := Retain(queue[..|queue| - 1], r);
      if Takes(r, queue[|queue| - 1]) then kept else kept + [queue[|queue| - 1]]
  }

  function StrikeEntry(x: Entry, r: Retraction): Entry {
    if x.fate.Pending? && Takes(r, x.event) then x.(fate := Retracted) else x
  }

  function Strike(log: seq<Entry>, r: Retraction): (struck: seq<Entry>)
    ensures |struck| == |log|
  {
    if log == [] then []
    else Strike(log[..|log| - 1], r) + [StrikeEntry(log[|log| - 1], r)]
  }

  function Retract(d: State, r: Retraction): State {
    d.(queue := Retain(d.queue, r), log := Strike(d.log, r))
  }

  function Trigger(d: State, token: Token, name: string, total: Option<nat>, steps: seq<Step>): State {
    Emit(d.(active := d.active[token := Download(total, steps, None, None, false, false)],
            nextToken := token + 1),
         Requested(token, name, total))
  }

  /** The steps an acceptance plays: the script's own, or a default transfer. */
  function Plan(dl: Download): seq<Step> {
    if dl.steps == [] then
      [Progress(match dl.totalBytes case Some(n) => n case None => 1024), Finish(None)]
    else dl.steps
  }

  function EventOf(step: Step, id: DownloadId, destination: Path): Event {
    match step
    case Progress(received) => Progressed(id, received)
    case Finish(_) => Finished(id, destination)
    case Fail(cause) => Failed(id, cause)
  }

  function Play(d: State, cancelled: bool, id: DownloadId, destination: Path, steps: seq<Step>): State
    decreases |steps|
  {
    if steps == [] || cancelled then d
    else Play(Emit(d, EventOf(steps[0], id, destination)), cancelled, id, destination, steps[1..])
  }

  predicate Acceptable(d: State, token: Token) {
    token in d.active && !d.active[token].rejected && d.active[token].acceptedId.None?
  }

  function Accept(d: State, token: Token, id: DownloadId, destination: Path): State {
    if !Acceptable(d, token) then d
    else
      var dl := d.active[token].(acceptedId := Some(id), destination := Some(destination));
      Play(d.(active := d.active[token := dl]), dl.cancelled, id, destination, Plan(dl))
  }

  function Reject(d: State, token: Token): State {
    if token !in d.active then d
    else
      Retract(d.(active := d.active[token := d.active[token].(rejected := true)]), RequestOf(token))
  }

  function MarkCancelled(active: map<Token, Download>, id: DownloadId): map<Token, Download> {
    map t | t in active ::
      if active[t].acceptedId == Some(id) then active[t].(cancelled := true) else active[t]
  }

  function Cancel(d: State, id: DownloadId): State {
    Emit(Retract(d.(active := MarkCancelled(d.active, id)), FinishOf(id)), Cancelled(id))
  }

  /** The log with its oldest pending entry polled. */
  function MarkPolled(log: seq<Entry>): (marked: seq<Entry>)
    ensures |marked| == |log|
    ensures forall i | 0 <= i < |log| :: marked[i].event == log[i].event
  {
    if log == [] then []
    else if log[0].fate.Pending? then [log[0].(fate := Polled)] + log[1..]
    else [log[0]] + MarkPolled(log[1..])
  }

  function Poll(d: State): State {
    if d.queue == [] then d
    else d.(queue := d.queue[1..], polled := d.polled + [d.queue[0]], log := MarkPolled(d.log))
  }

  // ---- runs ----

  datatype Call =
    | CallTrigger(token: Token, name: string, total: Option<nat>, steps: seq<Step>)
    | CallAccept(token: Token, id: DownloadId, destination: Path)
    | CallReject(token: Token)
    | CallCancel(id: DownloadId)
    | CallPoll

  function Next(d: State, c: Call): State {
    match c
    case CallTrigger(token, name, total, steps) => Trigger(d, token, name, total, steps)
    case CallAccept(token, id, destination) => Accept(d, token, id, destination)
    case CallReject(token) => Reject(d, token)
    case CallCancel(id) => Cancel(d, id)
    case CallPoll => Poll(d)
  }

  /** The process-wide counter issues each token once; nothing else is asked of a caller. */
  predicate Issuable(d: State, c: Call) {
    c.CallTrigger? ==> d.nextToken <= c.token
  }

  predicate Admissible(d: State, calls: seq<Call>)
    decreases |calls|
  {
    calls != [] ==> Issuable(d, calls[0]) && Admissible(Next(d, calls[0]), calls[1..])
  }

  function Run(d: State, calls: seq<Call>): State
    decreases |calls|
  {
    if calls == [] then d else Run(Next(d, calls[0]), calls[1..])
  }

  // ---- what the log says about the queue ----

  ghost function With(log: seq<Entry>, fate: Fate): seq<Event> {
    if log == [] then []
    else
      var earlier := With(log[..|log| - 1], fate);
      if log[|log| - 1].fate == fate then earlier + [log[|log| - 1].event] else earlier
  }

  /** Every event emitted and not taken back, in the order of emission. */
  ghost function Survivors(log: seq<Entry>): seq<Event> {
    if log == [] then []
    else
      var earlier := Survivors(log[..|log| - 1]);
      if log[|log| - 1].fate.Retracted? then earlier else earlier + [log[|log| - 1].event]
  }

  /** Nothing is polled ahead of an older event still waiting. */
  ghost predicate FirstInFirstOut(log: seq<Entry>) {
    forall i, j | 0 <= i < j < |log| :: log[i].fate.Pending? ==> !log[j].fate.Polled?
  }

  ghost predicate AcceptedAs(d: State, t: Token, id: DownloadId, path: Path) {
    t in d.active && d.active[t].acceptedId == Some(id) && d.active[t].destination == Some(path)
  }

  /** A `Requested` names a known token, and a `Finished` the destination its download was accepted with. */
  ghost predicate Explained(e: Event, d: State) {
    && (e.Requested? ==> e.token in d.active)
    && (e.Finished? ==> exists t :: AcceptedAs(d, t, e.id, e.path))
  }

  ghost predicate QueueInvariant(d: State) {
    && d.queue == With(d.log, Pending)
    && d.polled == With(d.log, Polled)
    && FirstInFirstOut(d.log)
  }

  ghost predicate TokenInvariant(d: State) {
    && (forall t | t in d.active :: t < d.nextToken)
    && (forall t | t in d.active :: d.active[t].cancelled ==> d.active[t].acceptedId.Some?)
    && (forall i | 0 <= i < |d.log| :: Explained(d.log[i].event, d))
  }

  ghost predicate Invariant(d: State) {
    QueueInvariant(d) && TokenInvariant(d)
  }

  lemma {:induction false} SurvivorsArePolledThenQueued(log: seq<Entry>)
    requires FirstInFirstOut(log)
    ensures Survivors(log) == With(log, Polled) + With(log, Pending)
  {
    if log != [] {
      var init := log[..|log| - 1];
      SurvivorsArePolledThenQueued(init);
      if log[|log| - 1].fate.Polled? {
        NonePending(init);
      }
    }
  }

  lemma {:induction false} NonePending(log: seq<Entry>)
    requires forall x | x in log :: !x.fate.Pending?
    ensures With(log, Pending) == []
  {
    if log != [] {
      NonePending(log[..|log| - 1]);
    }
  }

  lemma RetainSnoc(queue: seq<Event>, e: Event, r: Retraction)
    ensures Retain(queue + [e], r) == if Takes(r, e) then Retain(queue, r) else Retain(queue, r) + [e]
  {
  }

  lemma WithSnoc(log: seq<Entry>, x: Entry, fate: Fate)
    ensures With(log + [x], fate) == if x.fate == fate then With(log, fate) + [x.event] else With(log, fate)
  {
  }

  lemma {:induction false} StrikeMatchesRetain(log: seq<Entry>, r: Retraction)
    ensures With(Strike(log, r), Pending) == Retain(With(log, Pending), r)
    ensures With(Strike(log, r), Polled) == With(log, Polled)
  {
    if log != [] {
      var init, last := log[..|log| - 1], log[|log| - 1];
      StrikeMatchesRetain(init, r);
      WithSnoc(Strike(init, r), StrikeEntry(last, r), Pending);
      WithSnoc(Strike(init, r), StrikeEntry(last, r), Polled);
      RetainSnoc(With(init, Pending), last.event, r);
    }
  }

  lemma {:induction false} StrikeAt(log: seq<Entry>, r: Retraction, i: nat)
    requires i < |log|
    ensures Strike(log, r)[i] == StrikeEntry(log[i], r)
  {
    if i < |log| - 1 {
      StrikeAt(log[..|log| - 1], r, i);
    }
  }

  lemma {:induction false} WithFromFront(log: seq<Entry>, fate: Fate)
    requires log != []
    ensures With(log, fate) ==
            if log[0].fate == fate then [log[0].event] + With(log[1..], fate) else With(log[1..], fate)
  {
    if |log| > 1 {
      var init := log[..|log| - 1];
      WithFromFront(init, fate);
      assert log[1..][..|log| - 2] == init[1..];
    }
  }

  lemma MarkPolledRest(log: seq<Entry>)
    requires log != [] && !log[0].fate.Pending?
    ensures MarkPolled(log) == [log[0]] + MarkPolled(log[1..]) && MarkPolled(log)[1..] == MarkPolled(log[1..])
  {
  }

  lemma {:induction false} PollTakesFirstPending(log: seq<Entry>)
    requires With(log, Pending) != []
    ensures With(MarkPolled(log), Pending) == With(log, Pending)[1..]
  {
    WithFromFront(log, Pending);
    WithFromFront(MarkPolled(log), Pending);
    if !log[0].fate.Pending? {
      MarkPolledRest(log);
      PollTakesFirstPending(log[1..]);
    }
  }

  lemma FifoRest(log: seq<Entry>)
    requires log != [] && FirstInFirstOut(log)
    ensures FirstInFirstOut(log[1..])
    ensures log[0].fate.Pending? ==> With(log[1..], Polled) == []
  {
    forall i, j | 0 <= i < j < |log[1..]| && log[1..][i].fate.Pending? ensures !log[1..][j].fate.Polled? {
      assert log[i + 1].fate.Pending? && log[1..][j] == log[j + 1];
    }
    if log[0].fate.Pending? {
      forall j | 0 <= j < |log[1..]| ensures !log[1..][j].fate.Polled? {
        assert log[1..][j] == log[j + 1];
      }
      NonePolled(log[1..]);
    }
  }

  lemma {:induction false} PollAppendsToPolled(log: seq<Entry>)
    requires With(log, Pending) != [] && FirstInFirstOut(log)
    ensures With(MarkPolled(log), Polled) == With(log, Polled) + [With(log, Pending)[0]]
  {
    var rest := log[1..];
    hide With, FirstInFirstOut;
    FifoRest(log);
    WithFromFront(log, Pending);
    WithFromFront(log, Polled);
    WithFromFront(MarkPolled(log), Polled);
    if !log[0].fate.Pending? {
      MarkPolledRest(log);
      PollAppendsToPolled(rest);
      Associate([log[0].event], With(rest, Polled), [With(rest, Pending)[0]]);
    }
  }

  /** Polling takes the oldest pending entry, so older entries are all settled. */
  lemma {:induction false} PollAt(log: seq<Entry>) returns (k: nat)
    requires With(log, Pending) != []
    ensures k < |log| && log[k].fate.Pending? && log[k].event == With(log, Pending)[0]
    ensures forall i | 0 <= i < k :: !log[i].fate.Pending?
    ensures MarkPolled(log) == log[k := log[k].(fate := Polled)]
  {
    WithFromFront(log, Pending);
    if log[0].fate.Pending? {
      k := 0;
    } else {
      MarkPolledRest(log);
      var rest := log[1..];
      var k' := PollAt(rest);
      k := k' + 1;
      assert rest[k'] == log[k];
      assert log[k := log[k].(fate := Polled)] == [log[0]] + rest[k' := rest[k'].(fate := Polled)];
    }
  }

  lemma {:induction false} NonePolled(log: seq<Entry>)
    requires forall x | x in log :: !x.fate.Polled?
    ensures With(log, Polled) == []
  {
    if log != [] {
      NonePolled(log[..|log| - 1]);
    }
  }

  // ---- every call keeps the invariant ----

  lemma EmitKeepsQueue(d: State, e: Event)
    requires QueueInvariant(d)
    ensures QueueInvariant(Emit(d, e))
  {
  }

  lemma RetractKeepsQueue(d: State, r: Retraction)
    requires QueueInvariant(d)
    ensures QueueInvariant(Retract(d, r))
  {
    StrikeMatchesRetain(d.log, r);
    forall i | 0 <= i < |d.log| ensures Strike(d.log, r)[i] == StrikeEntry(d.log[i], r) {
      StrikeAt(d.log, r, i);
    }
  }

  lemma PollKeepsQueue(d: State)
    requires QueueInvariant(d)
    ensures QueueInvariant(Poll(d))
  {
    if d.queue != [] {
      PollTakesFirstPending(d.log);
      PollAppendsToPolled(d.log);
      var k := PollAt(d.log);
    }
  }

  lemma {:induction false} PlayKeepsQueue(d: State, cancelled: bool, id: DownloadId, destination: Path, steps: seq<Step>)
    requires QueueInvariant(d)
    ensures QueueInvariant(Play(d, cancelled, id, destination, steps))
    decreases |steps|
  {
    if steps != [] && !cancelled {
      EmitKeepsQueue(d, EventOf(steps[0], id, destination));
      PlayKeepsQueue(Emit(d, EventOf(steps[0], id, destination)), cancelled, id, destination, steps[1..]);
    }
  }

  lemma NextKeepsQueue(d: State, c: Call)
    requires QueueInvariant(d)
    ensures QueueInvariant(Next(d, c))
  {
    match c
    case CallTrigger(token, name, total, steps) =>
      var dl := Download(total, steps, None, None, false, false);
      EmitKeepsQueue(d.(active := d.active[token := dl], nextToken := token + 1),
                     Requested(token, name, total));
    case CallAccept(token, id, destination) =>
      if Acceptable(d, token) {
        var dl := d.active[token].(acceptedId := Some(id), destination := Some(destination));
        PlayKeepsQueue(d.(active := d.active[token := dl]), dl.cancelled, id, destination, Plan(dl));
      }
    case CallReject(token) =>
      if token in d.active {
        RetractKeepsQueue(d.(active := d.active[token := d.active[token].(rejected := true)]),
                          RequestOf(token));
      }
    case CallCancel(id) =>
      var marked := d.(active := MarkCancelled(d.active, id));
      RetractKeepsQueue(marked, FinishOf(id));
      EmitKeepsQueue(Retract(marked, FinishOf(id)), Cancelled(id));
    case CallPoll =>
      PollKeepsQueue(d);
  }

  /** What no call undoes: a token stays known, an acceptance stands, and a rejection stands. */
  ghost predicate Grows(a: map<Token, Download>, b: map<Token, Download>) {
    forall t | t in a ::
      && t in b
      && (a[t].acceptedId.Some? ==> b[t].acceptedId == a[t].acceptedId && b[t].destination == a[t].destination)
      && (a[t].rejected ==> b[t].rejected)
      && (a[t].rejected && a[t].acceptedId.None? ==> b[t].acceptedId.None?)
  }

  lemma {:induction false} PlayIsMapped(d: State, cancelled: bool, id: DownloadId, destination: Path, steps: seq<Step>)
    ensures var d' := Play(d, cancelled, id, destination, steps);
            && d'.active == d.active && d'.nextToken == d.nextToken && d'.polled == d.polled
            && |d'.log| == |d.log| + (if cancelled then 0 else |steps|)
            && d'.log[..|d.log|] == d.log
            && (forall k | 0 <= k < |d'.log| - |d.log| ::
                  d'.log[|d.log| + k] == Entry(EventOf(steps[k], id, destination), Pending))
            && |d'.queue| == |d.queue| + (if cancelled then 0 else |steps|)
            && d'.queue[..|d.queue|] == d.queue
            && (forall k | 0 <= k < |d'.queue| - |d.queue| ::
                  d'.queue[|d.queue| + k] == EventOf(steps[k], id, destination))
    decreases |steps|
  {
    if steps != [] && !cancelled {
      PlayIsMapped(Emit(d, EventOf(steps[0], id, destination)), cancelled, id, destination, steps[1..]);
    }
  }

  lemma NextGrows(d: State, c: Call)
    requires TokenInvariant(d) && Issuable(d, c)
    ensures Grows(d.active, Next(d, c).active)
  {
    if c.CallAccept? && Acceptable(d, c.token) {
      var dl := d.active[c.token].(acceptedId := Some(c.id), destination := Some(c.destination));
      PlayIsMapped(d.(active := d.active[c.token := dl]), dl.cancelled, c.id, c.destination, Plan(dl));
    }
  }

  /** The log after a call: earlier events stay, and only the call's own events follow. */
  lemma NextExtendsLog(d: State, c: Call)
    ensures |d.log| <= |Next(d, c).log|
    ensures forall i | 0 <= i < |d.log| :: Next(d, c).log[i].event == d.log[i].event
  {
    match c
    case CallTrigger(_, _, _, _) =>
    case CallAccept(token, id, destination) =>
      if Acceptable(d, token) {
        var dl := d.active[token].(acceptedId := Some(id), destination := Some(destination));
        PlayIsMapped(d.(active := d.active[token := dl]), dl.cancelled, id, destination, Plan(dl));
        assert forall i | 0 <= i < |d.log| :: Next(d, c).log[i] == Next(d, c).log[..|d.log|][i];
      }
    case CallReject(token) =>
      if token in d.active {
        forall i | 0 <= i < |d.log| ensures Strike(d.log, RequestOf(token))[i].event == d.log[i].event {
          StrikeAt(d.log, RequestOf(token), i);
        }
      }
    case CallCancel(id) =>
      forall i | 0 <= i < |d.log| ensures Strike(d.log, FinishOf(id))[i].event == d.log[i].event {
        StrikeAt(d.log, FinishOf(id), i);
      }
    case CallPoll =>
  }

  lemma ExplainedGrows(e: Event, d: State, d': State)
    requires Explained(e, d) && Grows(d.active, d'.active)
    ensures Explained(e, d')
  {
    if e.Finished? {
      var t :| AcceptedAs(d, t, e.id, e.path);
      assert AcceptedAs(d', t, e.id, e.path);
    }
  }

  lemma NextExplains(d: State, c: Call, i: nat)
    requires TokenInvariant(d) && Issuable(d, c) && i < |Next(d, c).log|
    ensures Explained(Next(d, c).log[i].event, Next(d, c))
  {
    var d' := Next(d, c);
    NextGrows(d, c);
    NextExtendsLog(d, c);
    if i < |d.log| {
      ExplainedGrows(d.log[i].event, d, d');
    } else if c.CallAccept? && Acceptable(d, c.token) {
      var dl := d.active[c.token].(acceptedId := Some(c.id), destination := Some(c.destination));
      PlayIsMapped(d.(active := d.active[c.token := dl]), dl.cancelled, c.id, c.destination, Plan(dl));
      assert d'.log[|d.log| + (i - |d.log|)] == Entry(EventOf(Plan(dl)[i - |d.log|], c.id, c.destination), Pending);
      assert AcceptedAs(d', c.token, c.id, c.destination);
    }
  }

  lemma NextKeepsTokens(d: State, c: Call)
    requires TokenInvariant(d) && Issuable(d, c)
    ensures TokenInvariant(Next(d, c))
  {
    forall i | 0 <= i < |Next(d, c).log| ensures Explained(Next(d, c).log[i].event, Next(d, c)) {
      NextExplains(d, c, i);
    }
    if c.CallAccept? && Acceptable(d, c.token) {
      var dl := d.active[c.token].(acceptedId := Some(c.id), destination := Some(c.destination));
      PlayIsMapped(d.(active := d.active[c.token := dl]), dl.cancelled, c.id, c.destination, Plan(dl));
    }
  }

  lemma {:induction false} RunKeepsInvariant(d: State, calls: seq<Call>)
    requires Invariant(d) && Admissible(d, calls)
    ensures Invariant(Run(d, calls))
    decreases |calls|
  {
    if calls != [] {
      NextKeepsQueue(d, calls[0]);
      NextKeepsTokens(d, calls[0]);
      RunKeepsInvariant(Next(d, calls[0]), calls[1..]);
    }
  }

  // ---- the theorems ----

  /** What the shell has polled, followed by what still waits, is every event emitted less those taken back. */
  lemma PolledThenQueuedIsTheLogLessRetractions(calls: seq<Call>)
    requires Admissible(INITIAL, calls)
    ensures var d := Run(INITIAL, calls); d.polled + d.queue == Survivors(d.log)
  {
    RunKeepsInvariant(INITIAL, calls);
    SurvivorsArePolledThenQueued(Run(INITIAL, calls).log);
  }

  /** A call takes back an undrained request for the token it rejects, or finish of the identifier it
      cancels, and nothing else. */
  lemma RetractionsAreExact(d: State, c: Call, i: nat)
    requires QueueInvariant(d) && i < |d.log|
    ensures i < |Next(d, c).log| && Next(d, c).log[i].event == d.log[i].event
    ensures Next(d, c).log[i].fate.Retracted? <==>
            || d.log[i].fate.Retracted?
            || (&& d.log[i].fate.Pending?
                && ((c.CallReject? && c.token in d.active && Takes(RequestOf(c.token), d.log[i].event))
                    || (c.CallCancel? && Takes(FinishOf(c.id), d.log[i].event))))
  {
    NextExtendsLog(d, c);
    match c
    case CallTrigger(_, _, _, _) =>
    case CallAccept(token, id, destination) =>
      if Acceptable(d, token) {
        var dl := d.active[token].(acceptedId := Some(id), destination := Some(destination));
        PlayIsMapped(d.(active := d.active[token := dl]), dl.cancelled, id, destination, Plan(dl));
        assert Next(d, c).log[i] == Next(d, c).log[..|d.log|][i];
      }
    case CallReject(token) =>
      StrikeAt(d.log, RequestOf(token), i);
    case CallCancel(id) =>
      StrikeAt(d.log, FinishOf(id), i);
    case CallPoll =>
      if d.queue != [] {
        var k := PollAt(d.log);
      }
  }

  lemma GrowsTransitively(a: map<Token, Download>, b: map<Token, Download>, c: map<Token, Download>)
    requires Grows(a, b) && Grows(b, c)
    ensures Grows(a, c)
  {
  }

  lemma {:induction false} RunGrows(d: State, calls: seq<Call>)
    requires Invariant(d) && Admissible(d, calls)
    ensures Grows(d.active, Run(d, calls).active)
    decreases |calls|
  {
    if calls != [] {
      NextGrows(d, calls[0]);
      NextKeepsQueue(d, calls[0]);
      NextKeepsTokens(d, calls[0]);
      RunGrows(Next(d, calls[0]), calls[1..]);
      GrowsTransitively(d.active, Next(d, calls[0]).active, Run(d, calls).active);
    }
  }

  /** A token is accepted at most once: whatever follows, its first acceptance stands, and another is ignored. */
  lemma AcceptedAtMostOnce(d: State, t: Token, calls: seq<Call>, id: DownloadId, destination: Path)
    requires Invariant(d) && Admissible(d, calls)
    requires t in d.active && d.active[t].acceptedId.Some?
    ensures var d' := Run(d, calls);
            && t in d'.active
            && d'.active[t].acceptedId == d.active[t].acceptedId
            && d'.active[t].destination == d.active[t].destination
            && Accept(d', t, id, destination) == d'
  {
    RunGrows(d, calls);
  }

  /** No waiting event is one that `r` takes back. */
  ghost predicate Quiet(events: seq<Event>, r: Retraction) {
    forall e | e in events :: !Takes(r, e)
  }

  /** Whether a call emits an event of the kind `r` takes back. */
  ghost predicate Emits(d: State, c: Call, r: Retraction) {
    match r
    case RequestOf(token) => c.CallTrigger? && c.token == token
    case FinishOf(id) =>
      && c.CallAccept? && c.id == id && Acceptable(d, c.token) && !d.active[c.token].cancelled
      && exists k :: 0 <= k < |Plan(d.active[c.token])| && Plan(d.active[c.token])[k].Finish?
  }

  ghost predicate NeverEmits(d: State, calls: seq<Call>, r: Retraction)
    decreases |calls|
  {
    calls != [] ==> !Emits(d, calls[0], r) && NeverEmits(Next(d, calls[0]), calls[1..], r)
  }

  lemma {:induction false} RetainIsQuiet(queue: seq<Event>, r: Retraction)
    ensures Quiet(Retain(queue, r), r)
    ensures forall e | e in Retain(queue, r) :: e in queue
  {
    if queue != [] {
      RetainIsQuiet(queue[..|queue| - 1], r);
    }
  }

  lemma AcceptStaysQuiet(d: State, token: Token, id: DownloadId, destination: Path, r: Retraction)
    requires Quiet(d.queue, r) && !Emits(d, CallAccept(token, id, destination), r)
    ensures Quiet(Accept(d, token, id, destination).queue, r)
    ensures Accept(d, token, id, destination).polled == d.polled
  {
    var d' := Accept(d, token, id, destination);
    if Acceptable(d, token) {
      var dl := d.active[token].(acceptedId := Some(id), destination := Some(destination));
      PlayIsMapped(d.(active := d.active[token := dl]), dl.cancelled, id, destination, Plan(dl));
      assert Plan(dl) == Plan(d.active[token]);
      forall i | 0 <= i < |d'.queue| ensures !Takes(r, d'.queue[i]) {
        if i < |d.queue| {
          assert d'.queue[i] == d'.queue[..|d.queue|][i];
        } else {
          assert d'.queue[|d.queue| + (i - |d.queue|)] == EventOf(Plan(dl)[i - |d.queue|], id, destination);
        }
      }
    }
  }

  /** From a queue quiet of `r`, a call that emits nothing `r` takes back leaves it quiet. */
  lemma NextStaysQuiet(d: State, c: Call, r: Retraction)
    requires Quiet(d.queue, r) && !Emits(d, c, r)
    ensures Quiet(Next(d, c).queue, r)
    ensures |d.polled| <= |Next(d, c).polled| && Next(d, c).polled[..|d.polled|] == d.polled
    ensures Quiet(Next(d, c).polled[|d.polled|..], r)
  {
    match c
    case CallTrigger(_, _, _, _) =>
    case CallAccept(token, id, destination) =>
      AcceptStaysQuiet(d, token, id, destination, r);
    case CallReject(token) =>
      RetainIsQuiet(d.queue, RequestOf(token));
    case CallCancel(id) =>
      RetainIsQuiet(d.queue, FinishOf(id));
    case CallPoll =>
  }

  lemma {:induction false} RunStaysQuiet(d: State, calls: seq<Call>, r: Retraction)
    requires Quiet(d.queue, r) && NeverEmits(d, calls, r)
    ensures var d' := Run(d, calls);
            && |d.polled| <= |d'.polled| && d'.polled[..|d.polled|] == d.polled
            && Quiet(d'.queue, r) && Quiet(d'.polled[|d.polled|..], r)
    decreases |calls|
  {
    if calls != [] {
      var d1 := Next(d, calls[0]);
      NextStaysQuiet(d, calls[0], r);
      RunStaysQuiet(d1, calls[1..], r);
      var d' := Run(d, calls);
      assert d'.polled[|d.polled|..] == d1.polled[|d.polled|..] + d'.polled[|d1.polled|..];
    }
  }

  lemma {:induction false} KnownTokensAreNotReissued(d: State, calls: seq<Call>, t: Token)
    requires TokenInvariant(d) && Admissible(d, calls) && t in d.active
    ensures NeverEmits(d, calls, RequestOf(t))
    decreases |calls|
  {
    if calls != [] {
      NextKeepsTokens(d, calls[0]);
      NextGrows(d, calls[0]);
      KnownTokensAreNotReissued(Next(d, calls[0]), calls[1..], t);
    }
  }

  /** A token rejected before acceptance yields nothing more: it is never accepted, so no transfer ever
      plays for it, and its request is never polled. */
  lemma RejectedTokenIsSilent(d: State, t: Token, calls: seq<Call>)
    requires Invariant(d) && t in d.active && d.active[t].acceptedId.None?
    requires Admissible(Reject(d, t), calls)
    ensures var rejected, d' := Reject(d, t), Run(Reject(d, t), calls);
            && t in d'.active && d'.active[t].acceptedId.None? && !Acceptable(d', t)
            && |d.polled| <= |d'.polled|
            && Quiet(d'.polled[|d.polled|..] + d'.queue, RequestOf(t))
  {
    var c := CallReject(t);
    NextKeepsQueue(d, c);
    NextKeepsTokens(d, c);
    RetainIsQuiet(d.queue, RequestOf(t));
    KnownTokensAreNotReissued(Reject(d, t), calls, t);
    RunStaysQuiet(Reject(d, t), calls, RequestOf(t));
    RunGrows(Reject(d, t), calls);
  }

  /** Such an event never waits in the queue, from `d` on. */
  ghost predicate NeverQueued(d: State, calls: seq<Call>, r: Retraction)
    decreases |calls|
  {
    Quiet(d.queue, r) && (calls != [] ==> NeverQueued(Next(d, calls[0]), calls[1..], r))
  }

  lemma EmittingIsHeard(d: State, c: Call, r: Retraction)
    requires Emits(d, c, r)
    ensures !Quiet(Next(d, c).queue, r)
  {
    var e :=
      match r
      case RequestOf(token) => Requested(token, c.name, c.total)
      case FinishOf(id) => Finished(id, c.destination);
    if r.FinishOf? {
      var dl := d.active[c.token].(acceptedId := Some(c.id), destination := Some(c.destination));
      PlayIsMapped(d.(active := d.active[c.token := dl]), dl.cancelled, c.id, c.destination, Plan(dl));
      assert Plan(dl) == Plan(d.active[c.token]);
      var k :| 0 <= k < |Plan(dl)| && Plan(dl)[k].Finish?;
      assert Next(d, c).queue[|d.queue| + k] == e;
    }
    assert e in Next(d, c).queue && Takes(r, e);
  }

  lemma {:induction false} QueuedOnlyIfEmitted(d: State, calls: seq<Call>, r: Retraction)
    requires Quiet(d.queue, r)
    ensures NeverQueued(d, calls, r) <==> NeverEmits(d, calls, r)
    decreases |calls|
  {
    if calls != [] {
      if Emits(d, calls[0], r) {
        EmittingIsHeard(d, calls[0], r);
      } else {
        NextStaysQuiet(d, calls[0], r);
        QueuedOnlyIfEmitted(Next(d, calls[0]), calls[1..], r);
      }
    }
  }

  /** After a cancellation a `Finished` for its identifier is queued again exactly when a later acceptance
      that finishes is given that identifier; without one, no poll yields it. */
  lemma CancelledNeverFinishes(d: State, id: DownloadId, calls: seq<Call>)
    ensures NeverQueued(Cancel(d, id), calls, FinishOf(id)) <==> NeverEmits(Cancel(d, id), calls, FinishOf(id))
    ensures NeverEmits(Cancel(d, id), calls, FinishOf(id)) ==>
              var d' := Run(Cancel(d, id), calls);
              && |d.polled| <= |d'.polled|
              && Quiet(d'.polled[|d.polled|..] + d'.queue, FinishOf(id))
  {
    RetainIsQuiet(d.queue, FinishOf(id));
    QueuedOnlyIfEmitted(Cancel(d, id), calls, FinishOf(id));
    if NeverEmits(Cancel(d, id), calls, FinishOf(id)) {
      RunStaysQuiet(Cancel(d, id), calls, FinishOf(id));
    }
  }

  /** An identifier cancelled before it is given to an acceptance does finish. */
  lemma CancelledBeforeAcceptanceStillFinishes()
    ensures var announced := Trigger(INITIAL, 1, "a", None, [Finish(None)]);
            Finished(7, "p") in Accept(Cancel(announced, 7), 1, 7, "p").queue
  {
    var d := Cancel(Trigger(INITIAL, 1, "a", None, [Finish(None)]), 7);
    var dl := d.active[1].(acceptedId := Some(7), destination := Some("p"));
    PlayIsMapped(d.(active := d.active[1 := dl]), false, 7, "p", [Finish(None)]);
    assert Accept(d, 1, 7, "p").queue[|d.queue| + 0] == Finished(7, "p");
  }

  /** The shell gives no identifier to two acceptances. */
  ghost predicate FreshIds(d: State, calls: seq<Call>)
    decreases |calls|
  {
    calls != [] ==>
      && (calls[0].CallAccept? && Acceptable(d, calls[0].token) ==>
            forall t | t in d.active :: d.active[t].acceptedId != Some(calls[0].id))
      && FreshIds(Next(d, calls[0]), calls[1..])
  }

  ghost predicate OneTokenPerId(d: State) {
    forall t, t' | t in d.active && t' in d.active ::
      d.active[t].acceptedId.Some? && d.active[t].acceptedId == d.active[t'].acceptedId ==> t == t'
  }

  lemma {:induction false} FreshIdsStayUnshared(d: State, calls: seq<Call>)
    requires OneTokenPerId(d) && FreshIds(d, calls) && Admissible(d, calls) && TokenInvariant(d)
    ensures OneTokenPerId(Run(d, calls))
    decreases |calls|
  {
    if calls != [] {
      var c := calls[0];
      if c.CallAccept? && Acceptable(d, c.token) {
        var dl := d.active[c.token].(acceptedId := Some(c.id), destination := Some(c.destination));
        PlayIsMapped(d.(active := d.active[c.token := dl]), dl.cancelled, c.id, c.destination, Plan(dl));
      }
      NextKeepsTokens(d, c);
      FreshIdsStayUnshared(Next(d, c), calls[1..]);
    }
  }

  lemma {:induction false} GivenIdIsNotGivenAgain(d: State, t: Token, id: DownloadId, calls: seq<Call>)
    requires Invariant(d) && Admissible(d, calls) && FreshIds(d, calls)
    requires t in d.active && d.active[t].acceptedId == Some(id)
    ensures NeverEmits(d, calls, FinishOf(id))
    decreases |calls|
  {
    if calls != [] {
      NextKeepsQueue(d, calls[0]);
      NextKeepsTokens(d, calls[0]);
      NextGrows(d, calls[0]);
      GivenIdIsNotGivenAgain(Next(d, calls[0]), t, id, calls[1..]);
    }
  }

  /** Where the shell gives every acceptance an identifier of its own, no poll after the cancellation of an
      accepted download yields a `Finished` for it. */
  lemma CancelledDownloadNeverFinishes(d: State, t: Token, id: DownloadId, calls: seq<Call>)
    requires Invariant(d) && t in d.active && d.active[t].acceptedId == Some(id)
    requires Admissible(d, [CallCancel(id)] + calls) && FreshIds(Cancel(d, id), calls)
    ensures var d' := Run(Cancel(d, id), calls);
            && NeverQueued(Cancel(d, id), calls, FinishOf(id))
            && |d.polled| <= |d'.polled|
            && Quiet(d'.polled[|d.polled|..] + d'.queue, FinishOf(id))
  {
    var all := [CallCancel(id)] + calls;
    assert all[0] == CallCancel(id) && all[1..] == calls;
    NextGrows(d, CallCancel(id));
    NextKeepsQueue(d, CallCancel(id));
    NextKeepsTokens(d, CallCancel(id));
    GivenIdIsNotGivenAgain(Cancel(d, id), t, id, calls);
    CancelledNeverFinishes(d, id, calls);
  }

  lemma {:induction false} WithIsFromLog(log: seq<Entry>, fate: Fate, e: Event)
    requires e in With(log, fate)
    ensures exists i :: 0 <= i < |log| && log[i].event == e
  {
    if e in With(log[..|log| - 1], fate) {
      WithIsFromLog(log[..|log| - 1], fate, e);
      var i :| 0 <= i < |log| - 1 && log[..|log| - 1][i].event == e;
      assert log[i].event == e;
    } else {
      assert log[|log| - 1].event == e;
    }
  }

  /** Every `Finished`, polled or waiting, names the destination its download was accepted with; where
      identifiers are not shared, that is the only destination the identifier was ever given. */
  lemma FinishedNamesItsDestination(calls: seq<Call>, e: Event)
    requires Admissible(INITIAL, calls)
    requires e in Run(INITIAL, calls).polled + Run(INITIAL, calls).queue && e.Finished?
    ensures exists t :: AcceptedAs(Run(INITIAL, calls), t, e.id, e.path)
    ensures FreshIds(INITIAL, calls) ==>
              forall t | t in Run(INITIAL, calls).active && Run(INITIAL, calls).active[t].acceptedId == Some(e.id) ::
                Run(INITIAL, calls).active[t].destination == Some(e.path)
  {
    var d := Run(INITIAL, calls);
    RunKeepsInvariant(INITIAL, calls);
    WithIsFromLog(d.log, if e in d.polled then Polled else Pending, e);
    var i :| 0 <= i < |d.log| && d.log[i].event == e;
    assert Explained(d.log[i].event, d);
    if FreshIds(INITIAL, calls) {
      FreshIdsStayUnshared(INITIAL, calls);
    }
  }
}