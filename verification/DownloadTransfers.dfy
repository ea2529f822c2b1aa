/** What accepting a download transfers. */
module DownloadTransfers {
  import opened Common
  import opened Downloads

  /** A download known, neither rejected nor accepted yet. */
  predicate IsWaiting(d: State, token: Token) {
    token in d.active && !d.active[token].rejected && d.active[token].acceptedId.None?
  }

  /** What one step of a script comes to. */
  predicate Tells(e: Event, step: Step, id: DownloadId, destination: Path) {
    && (step.Progress? ==> e == Progressed(id, step.received))
    && (step.Finish? ==> e == Finished(id, destination))
    && (step.Fail? ==> e == Failed(id, step.cause))
  }

  /** The events of a transfer: one for each step scripted, in order; with none scripted, all the bytes announced, or 1024
      where none were, and then the finish. */
  predicate IsTransfer(dl: Download, id: DownloadId, destination: Path, events: seq<Event>) {
    if dl.steps == [] then
      events == [Progressed(id, if dl.totalBytes.Some? then dl.totalBytes.value else 1024), Finished(id, destination)]
    else |events| == |dl.steps| && forall i | 0 <= i < |events| :: Tells(events[i], dl.steps[i], id, destination)
  }

  function Waiting(events: seq<Event>): seq<Entry> {
    seq(|events|, i requires 0 <= i < |events| => Entry(events[i], Pending))
  }

  lemma WaitingJoin(a: seq<Event>, b: seq<Event>)
    ensures Waiting(a + b) == Waiting(a) + Waiting(b)
  {
  }

  lemma {:induction false} Played(d: State, id: DownloadId, destination: Path, steps: seq<Step>) returns (events: seq<Event>)
    ensures |events| == |steps| && forall i | 0 <= i < |steps| :: Tells(events[i], steps[i], id, destination)
    ensures Play(d, false, id, destination, steps) == d.(queue := d.queue + events, log := d.log + Waiting(events))
    decreases |steps|
  {
    if steps == [] {
      events := [];
      assert d.queue + [] == d.queue && d.log + Waiting([]) == d.log;
    } else {
      var e := EventOf(steps[0], id, destination);
      var rest := Played(Emit(d, e), id, destination, steps[1..]);
      events := [e] + rest;
      WaitingJoin([e], rest);
      assert Waiting([e]) == [Entry(e, Pending)];
      Associate(d.queue, [e], rest);
      Associate(d.log, Waiting([e]), Waiting(rest));
    }
  }

  /** Accepting a waiting download records its id and destination and queues its whole transfer after what waits, and
      changes nothing else. */
  lemma AcceptingTransfers(d: State, token: Token, id: DownloadId, destination: Path) returns (events: seq<Event>)
    requires IsWaiting(d, token) && !d.active[token].cancelled
    ensures IsTransfer(d.active[token], id, destination, events)
    ensures var accepted := d.active[token].(acceptedId := Some(id), destination := Some(destination));
            Accept(d, token, id, destination) ==
            d.(active := d.active[token := accepted], queue := d.queue + events, log := d.log + Waiting(events))
  {
    var dl := d.active[token].(acceptedId := Some(id), destination := Some(destination));
    events := Played(d.(active := d.active[token := dl]), id, destination, Plan(dl));
    if dl.steps == [] {
      assert events == [events[0], events[1]];
    }
  }

  /** Accepting any other changes nothing; nor does one whose id was cancelled transfer anything. */
  lemma OthersTransferNothing(d: State, token: Token, id: DownloadId, destination: Path)
    ensures !IsWaiting(d, token) ==> Accept(d, token, id, destination) == d
    ensures IsWaiting(d, token) && d.active[token].cancelled ==>
              Accept(d, token, id, destination).queue == d.queue && Accept(d, token, id, destination).log == d.log
  {
  }

  /** Announcing a download makes it one that waits, with what the page said of it, and asks for it last. */
  lemma TriggeringAnnounces(d: State, token: Token, name: string, total: Option<nat>, steps: seq<Step>)
    ensures var d' := Trigger(d, token, name, total, steps);
            && IsWaiting(d', token) && !d'.active[token].cancelled && d'.active[token].destination.None?
            && d'.active[token].totalBytes == total && d'.active[token].steps == steps
            && d'.queue == d.queue + [Requested(token, name, total)] && d'.polled == d.polled
            && forall t | t != token :: (t in d'.active <==> t in d.active) && (t in d.active ==> d'.active[t] == d.active[t])
  {
  }

  /** Rejecting a download marks it and no other; cancelling an id marks the downloads accepted under it and no other. */
  lemma RejectingAndCancellingMark(d: State, token: Token, id: DownloadId)
    ensures token in d.active ==> Reject(d, token).active == d.active[token := d.active[token].(rejected := true)]
    ensures token !in d.active ==> Reject(d, token) == d
    ensures Cancel(d, id).active.Keys == d.active.Keys
    ensures forall t | t in d.active ::
              Cancel(d, id).active[t] == if d.active[t].acceptedId == Some(id) then d.active[t].(cancelled := true) else d.active[t]
  {
  }
}
