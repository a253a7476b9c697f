/** Confidence-delayed chain events (chain/events/events_called.go): the listener
    registry, the event queue and the processing of head changes. */
module HcEvents {
  import opened Wrappers
  import opened Chain
  import opened EventQueue
  import opened EventRuns

  // ----- offering the events due at one height ---------------------------

  /** One queued event at its due height: it is offered to its handler unless it
      was delivered before. */
  method ApplyEvent(q: Queue, tr: Triggers, to: Timeouts, ghost rq: Reverts, ghost ctr: nat, ghost book: Book,
                    at: int, origH: int, i: int, answer: Answer)
    returns (q': Queue, tr': Triggers, to': Timeouts, ghost book': Book)
    requires Good(View(q, tr, to, book), rq) && TriggersOk(tr, to, ctr) && at <= book.chain[0].height
    requires 0 <= i < |EventsAt(q, at, origH)|
    ensures EventsAt(q, at, origH)[i].trigger in tr
    ensures View(q', tr', to', book') == Attempt(View(q, tr, to, book), at, origH, i, answer)
    ensures Good(View(q', tr', to', book'), rq) && TriggersOk(tr', to', ctr)
  {
    q', tr', to', book' := q, tr, to, book;
    KnownTrigger(q, tr, rq, book, at, origH, i);
    AttemptKeepsGood(View(q, tr, to, book), rq, at, origH, i, answer);
    var event := EventsAt(q, at, origH)[i];
    if event.called {
      return;
    }
    var trigger := tr[event.trigger];
    if trigger.disabled {
      book' := Record(book, event.id, Disabled(at));
      return;
    }
    if event.prevH != NO_HEIGHT {
      if !answer.found {
        book' := Record(book, event.id, Missing(at));
        return;
      }
    }
    if answer.failed {
      book' := Record(book, event.id, Failed(at, book.chain));
      return;
    }
    q' := MarkCalled(q, at, origH, i);
    book' := Record(book, event.id, Delivered(at, book.chain));
    to' := CountedAt(to, trigger.timeout, event.trigger);
    tr' := Told(tr, event.trigger, answer.more);
    CountKeeps(tr, to, ctr, event.trigger, trigger.timeout, trigger.(disabled := !answer.more));
  }

  method ApplyAt(q: Queue, tr: Triggers, to: Timeouts, ghost rq: Reverts, ghost ctr: nat, ghost book: Book, at: int, origH: int,
                 answers: nat -> Answer, ghost first: View, ghost done: set<int>)
    returns (q': Queue, tr': Triggers, to': Timeouts, ghost book': Book)
    requires Good(View(q, tr, to, book), rq) && TriggersOk(tr, to, ctr) && at <= book.chain[0].height
    requires origH !in done && Pass(first, View(q, tr, to, book), at, answers, done, 0, 0)
    ensures Good(View(q', tr', to', book'), rq) && TriggersOk(tr', to', ctr) && book'.chain == book.chain
    ensures Pass(first, View(q', tr', to', book'), at, answers, done + {origH}, 0, 0)
  {
    q', tr', to', book' := q, tr, to, book;
    var n := |EventsAt(q, at, origH)|;
    assert OnwardAt(first.q, q, at, at, origH);
    PassAny(first, View(q, tr, to, book), at, answers, done, 0, origH);
    for i := 0 to n
      invariant Good(View(q', tr', to', book'), rq) && TriggersOk(tr', to', ctr) && book'.chain == book.chain
      invariant |EventsAt(q', at, origH)| == n
      invariant Pass(first, View(q', tr', to', book'), at, answers, done, origH, i)
    {
      KnownTrigger(q', tr', rq, book', at, origH, i);
      ghost var v := View(q', tr', to', book');
      q', tr', to', book' := ApplyEvent(q', tr', to', rq, ctr, book', at, origH, i, answers(EventsAt(q', at, origH)[i].id));
      PassStep(first, v, rq, at, answers, done, origH, i, View(q', tr', to', book'));
      AttemptOnward(v, rq, at, origH, i, answers(EventsAt(v.q, at, origH)[i].id));
      assert OnwardAt(v.q, q', at, at, origH);
    }
    PassNext(first, View(q', tr', to', book'), at, answers, done, origH, n, 0);
  }

  lemma OneDone(all: set<int>, todo: set<int>, x: int)
    ensures x in todo && x in all ==> all - (todo - {x}) == all - todo + {x}
    ensures all - all == {} && all - {} == all
  {
  }

  /** Offers every event due at this height to its handler, once. */
  method ApplyDue(q: Queue, tr: Triggers, to: Timeouts, ghost rq: Reverts, ghost ctr: nat, ghost book: Book, at: int,
                  answers: nat -> Answer)
    returns (q': Queue, tr': Triggers, to': Timeouts, ghost book': Book)
    requires Good(View(q, tr, to, book), rq) && TriggersOk(tr, to, ctr) && at <= book.chain[0].height
    ensures Good(View(q', tr', to', book'), rq) && TriggersOk(tr', to', ctr)
    ensures Passed(View(q, tr, to, book), View(q', tr', to', book'), at, answers)
  {
    ghost var v := View(q, tr, to, book);
    q', tr', to', book' := q, tr, to, book;
    PassStart(v, rq, at, answers, 0);
    if at !in q {
      PassEnds(v, v, at, answers, {}, 0);
      return;
    }
    var heights := q[at].Keys;
    var todo := heights;
    OneDone(heights, todo, 0);
    while todo != {}
      invariant todo <= heights && book'.chain == book.chain
      invariant Good(View(q', tr', to', book'), rq) && TriggersOk(tr', to', ctr)
      invariant Pass(v, View(q', tr', to', book'), at, answers, heights - todo, 0, 0)
      decreases todo
    {
      var origH := Pick(todo);
      q', tr', to', book' := ApplyAt(q', tr', to', rq, ctr, book', at, origH, answers, v, heights - todo);
      OneDone(heights, todo, origH);
      todo := todo - {origH};
    }
    PassEnds(v, View(q', tr', to', book'), at, answers, heights, 0);
  }

  /** What the matchers report for a tipset; `newCalls` fails when its parent cannot be loaded. */
  datatype Checks = Checks(stateChanges: map<TriggerId, Data>, newCalls: Option<map<TriggerId, Data>>)

  // ----- the state of the component --------------------------------------

  datatype State = State(confQueue: Queue, revertQueue: Reverts, triggers: Triggers, timeouts: Timeouts, ctr: nat, nextId: nat)

  ghost function Of(s: State, book: Book): View {
    View(s.confQueue, s.triggers, s.timeouts, book)
  }

  ghost predicate Ok(s: State, book: Book) {
    Good(Of(s, book), s.revertQueue) && book.next == s.nextId && TriggersOk(s.triggers, s.timeouts, s.ctr)
  }

  ghost function DeliveredOf(events: seq<Event>): seq<Event> {
    if events == [] then [] else
    DeliveredOf(events[..|events| - 1]) + if events[|events| - 1].called then [events[|events| - 1]] else []
  }

  /** The revert handler of every delivered event of the list runs, in order; errors are
      only logged. */
  method RevertEvents(toRevert: seq<Event>, ts: TipSet, ghost book: Book) returns (undone: seq<Event>, ghost book': Book)
    ensures undone == DeliveredOf(toRevert) && book' == RevertAll(book, toRevert, ts)
  {
    undone, book' := [], book;
    for j := 0 to |toRevert|
      invariant undone == DeliveredOf(toRevert[..j]) && book' == RevertAll(book, toRevert[..j], ts)
    {
      assert toRevert[..j + 1][..j] == toRevert[..j];
      var event := toRevert[j];
      if !event.called {
        continue;   // the event was not delivered yet
      }
      undone := undone + [event];
      book' := Record(book', event.id, Reverted(ts));
    }
    assert toRevert[..|toRevert|] == toRevert;
  }

  lemma SweepIsOk(s: State, ts: TipSet, book: Book)
    requires Ok(s, book) && ts in book.chain
    ensures var (q, book') := Sweep(s.confQueue, book, ts, if ts.height in s.revertQueue then s.revertQueue[ts.height] else []);
      && Ok(s.(confQueue := q, revertQueue := s.revertQueue - {ts.height}), book') && SameElsewhere(book', book, ts.height)
      && AllDropped(s.confQueue, q, book', ts)
  {
    SweepKeeps(s.confQueue, s.triggers, s.revertQueue, book, ts);
    var reverts := if ts.height in s.revertQueue then s.revertQueue[ts.height] else [];
    StaysPunctual(book, Sweep(s.confQueue, book, ts, reverts).1, s.triggers);
  }

  lemma SweepNext(q: Queue, book: Book, ts: TipSet, reverts: seq<int>, k: nat)
    requires k < |reverts|
    ensures var (q', book') := Sweep(q, book, ts, reverts[..k]);
      Sweep(q, book, ts, reverts[..k + 1]) ==
        (WithoutEvents(q', reverts[k], ts.height), RevertAll(book', EventsAt(q', reverts[k], ts.height), ts))
  {
    assert reverts[..k + 1][..k] == reverts[..k];
  }

  /** Undoes and forgets the events of one tipset, one trigger height after another. Repeated
      trigger heights find nothing left the second time. */
  method Forget(q: Queue, reverts: seq<int>, ts: TipSet, ghost book: Book) returns (q': Queue, ghost book': Book)
    ensures (q', book') == Sweep(q, book, ts, reverts)
  {
    q', book' := q, book;
    assert reverts[..0] == [] && reverts[..|reverts|] == reverts;
    for k := 0 to |reverts|
      invariant (q', book') == Sweep(q, book, ts, reverts[..k])
    {
      SweepNext(q, book, ts, reverts, k);
      var triggerH := reverts[k];
      var undone;
      undone, book' := RevertEvents(EventsAt(q', triggerH, ts.height), ts, book');
      q' := WithoutEvents(q', triggerH, ts.height);
    }
  }

  /** Dropping a tipset undoes its delivered events and forgets all of its events. */
  method HandleReverts(s: State, ts: TipSet, ghost book: Book) returns (s': State, ghost book': Book)
    requires Ok(s, book) && ts in book.chain
    ensures Ok(s', book') && SameElsewhere(book', book, ts.height)
    ensures AllDropped(s.confQueue, s'.confQueue, book', ts)
    ensures s' == s.(confQueue := s'.confQueue, revertQueue := s.revertQueue - {ts.height})
  {
    if ts.height !in s.revertQueue {
      assert s.revertQueue - {ts.height} == s.revertQueue;
      SweepIsOk(s, ts, book);
      return s, book;
    }
    var confQueue, b := Forget(s.confQueue, s.revertQueue[ts.height], ts, book);
    SweepIsOk(s, ts, book);
    s' := s.(confQueue := confQueue, revertQueue := s.revertQueue - {ts.height});
    book' := b;
  }

  // ----- queueing --------------------------------------------------------

  function PrevHeight(prevTs: Option<TipSet>): int {
    if prevTs.Some? then prevTs.value.height else NO_HEIGHT
  }

  /** A new event of the head waits for its due height and is remembered for its own height. */
  method QueueForConfidence(s: State, trigId: TriggerId, data: Data, prevTs: Option<TipSet>, ts: TipSet, ghost book: Book)
    returns (s': State, ghost t: int, ghost e: Event, ghost book': Book)
    requires Ok(s, book) && trigId in s.triggers && ts == book.chain[0]
    ensures t == ts.height + s.triggers[trigId].confidence
    ensures e == Event(s.nextId, trigId, PrevHeight(prevTs), ts.height, data, false)
    ensures Of(s', book') == Entered(Of(s, book), t, e, ts) && s'.revertQueue == Remember(s.revertQueue, ts.height, t)
    ensures Ok(s', book') && book'.chain == book.chain && s'.ctr == s.ctr && s'.nextId == s.nextId + 1
  {
    var prevH := if prevTs.Some? then prevTs.value.height else NO_HEIGHT;
    var appliedH := ts.height;
    var triggerH := appliedH + s.triggers[trigId].confidence;
    var byOrigH := EventsAt(s.confQueue, triggerH, appliedH);
    var event := Event(s.nextId, trigId, prevH, appliedH, data, false);
    EnteredIsGood(Of(s, book), s.revertQueue, triggerH, event, ts);
    s' := s.(confQueue := WithEvents(s.confQueue, triggerH, appliedH, byOrigH + [event]),
             revertQueue := Remember(s.revertQueue, appliedH, triggerH), nextId := s.nextId + 1);
    t, e, book' := triggerH, event, Enter(book, ts, Place(triggerH, appliedH, |byOrigH|, trigId));
  }

  /** No change is due below the bound, unless its listener is disabled. */
  ghost predicate DueFrom(changes: map<TriggerId, Data>, tr: Triggers, h: int, bound: int) {
    forall id :: id in changes && id in tr ==> tr[id].disabled || h + tr[id].confidence >= bound
  }

  /** Exactly the changes wait in addition. */
  ghost predicate WaitsFor(v: View, w: View, changes: map<TriggerId, Data>, h: int) {
    forall bound :: WaitsForAt(v, w, changes, h, bound)
  }

  ghost predicate WaitsForAt(v: View, w: View, changes: map<TriggerId, Data>, h: int, bound: int) {
    NonePassed(w, bound) <==> NonePassed(v, bound) && DueFrom(changes, v.tr, h, bound)
  }

  ghost predicate KeepsBands(v: View, w: View, lo: int, h: int) {
    forall hi :: hi <= h ==> KeepsBand(v, w, lo, hi)
  }

  ghost predicate KeepsBand(v: View, w: View, lo: int, hi: int) {
    Band(v, lo, hi) ==> Band(w, lo, hi)
  }

  lemma KeepsBandsTransitive(u: View, v: View, w: View, lo: int, h: int)
    requires KeepsBands(u, v, lo, h) && KeepsBands(v, w, lo, h)
    ensures KeepsBands(u, w, lo, h)
  {
    forall hi | hi <= h
      ensures KeepsBand(u, w, lo, hi)
    {
      assert KeepsBand(u, v, lo, hi) && KeepsBand(v, w, lo, hi);
    }
  }

  /** What queueing some changes of the head does: each has its event and nothing else happens. */
  ghost predicate Took(v: View, w: View, changes: map<TriggerId, Data>, prevH: int, h: int, lo: int) {
    && w.tr == v.tr && w.to == v.to && w.book.chain == v.book.chain
    && QueuedAll(w, changes, prevH, h) && WaitsFor(v, w, changes, h) && KeepsBands(v, w, lo, h)
  }

  lemma TookNone(v: View, prevH: int, h: int, lo: int)
    ensures Took(v, v, map[], prevH, h, lo)
  {
  }

  lemma TookOne(v: View, u: View, rq: Reverts, w: View, changes: map<TriggerId, Data>, prevH: int, ts: TipSet, lo: int,
                more: map<TriggerId, Data>, t: int, e: Event)
    requires Took(v, u, changes, prevH, ts.height, lo) && Good(u, rq) && lo <= ts.height
    requires e.trigger in u.tr && t == ts.height + u.tr[e.trigger].confidence && more == changes[e.trigger := e.data]
    requires e.trigger !in changes && e == Event(u.book.next, e.trigger, prevH, ts.height, e.data, false)
    requires w == Entered(u, t, e, ts)
    ensures Took(v, w, more, prevH, ts.height, lo)
  {
    EnteredForth(u, rq, t, e, ts, ts.height - 1, lo, lo - 1);
    EnteredQueued(u, w, changes, prevH, ts, lo, more, t, e);
    EnteredWaitsFor(v, u, rq, changes, ts, more, t, e);
    EnteredKeepsBands(v, u, rq, ts, lo, t, e);
  }

  lemma EnteredQueued(u: View, w: View, changes: map<TriggerId, Data>, prevH: int, ts: TipSet, lo: int,
                      more: map<TriggerId, Data>, t: int, e: Event)
    requires QueuedAll(u, changes, prevH, ts.height) && Forth(u, w, ts.height - 1, lo, lo - 1)
    requires e.trigger in u.tr && t == ts.height + u.tr[e.trigger].confidence && more == changes[e.trigger := e.data]
    requires e.prevH == prevH && e.h == ts.height && w == Entered(u, t, e, ts)
    ensures QueuedAll(w, more, prevH, ts.height)
  {
    QueuedStays(u, w, ts.height - 1, lo, lo - 1, changes, prevH, ts.height);
    EnteredAt(u, t, e, ts, t, ts.height);
    assert IsFor(EventsAt(w.q, t, ts.height)[|EventsAt(u.q, t, ts.height)|], e.trigger, e.data, prevH, ts.height);
    assert Queued(w.q, e.trigger, e.data, prevH, ts.height, t);
    assert forall id :: QueuedId(w, changes, prevH, ts.height, id) && id != e.trigger ==> QueuedId(w, more, prevH, ts.height, id);
  }

  lemma EnteredWaitsFor(v: View, u: View, rq: Reverts, changes: map<TriggerId, Data>, ts: TipSet,
                        more: map<TriggerId, Data>, t: int, e: Event)
    requires WaitsFor(v, u, changes, ts.height) && Good(u, rq) && u.tr == v.tr
    requires e.trigger in u.tr && t == ts.height + u.tr[e.trigger].confidence && more == changes[e.trigger := e.data]
    requires e.trigger !in changes && e.id == u.book.next && !e.called
    ensures WaitsFor(v, Entered(u, t, e, ts), more, ts.height)
  {
    forall bound
      ensures WaitsForAt(v, Entered(u, t, e, ts), more, ts.height, bound)
    {
      assert WaitsForAt(v, u, changes, ts.height, bound);
      EnteredPassed(u, rq, t, e, ts, bound);
      DueFromMore(changes, v.tr, ts.height, bound, e.trigger, e.data);
    }
  }

  lemma DueFromMore(changes: map<TriggerId, Data>, tr: Triggers, h: int, bound: int, id: TriggerId, data: Data)
    requires id in tr && id !in changes
    ensures DueFrom(changes[id := data], tr, h, bound) <==>
      DueFrom(changes, tr, h, bound) && (tr[id].disabled || h + tr[id].confidence >= bound)
  {
    var more := changes[id := data];
    if DueFrom(more, tr, h, bound) {
      assert id in more;
      assert forall k :: k in changes ==> k in more;
    }
  }

  lemma EnteredKeepsBands(v: View, u: View, rq: Reverts, ts: TipSet, lo: int, t: int, e: Event)
    requires KeepsBands(v, u, lo, ts.height) && Good(u, rq) && ts.height <= t && e.id == u.book.next && !e.called
    ensures KeepsBands(v, Entered(u, t, e, ts), lo, ts.height)
  {
    forall hi | hi <= ts.height
      ensures KeepsBand(v, Entered(u, t, e, ts), lo, hi)
    {
      assert KeepsBand(v, u, lo, hi);
      if Band(u, lo, hi) {
        EnteredBand(u, rq, t, e, ts, lo, hi);
      }
    }
  }

  lemma EnteredForthAfter(v: View, u: View, rq: Reverts, ts: TipSet, lo: int, t: int, e: Event)
    requires Forth(v, u, ts.height - 1, lo, lo - 1) && Good(u, rq) && BookOk(v.book) && lo <= t && e.h == ts.height
    ensures Forth(v, Entered(u, t, e, ts), ts.height - 1, lo, lo - 1)
  {
    EnteredForth(u, rq, t, e, ts, ts.height - 1, lo, lo - 1);
    ForthTransitive(v, u, Entered(u, t, e, ts), ts.height - 1, lo, lo - 1);
  }

  /** `done` holds exactly the changes that are not to do any more. */
  ghost predicate Halfway(changes: map<TriggerId, Data>, done: map<TriggerId, Data>, todo: set<TriggerId>) {
    && todo <= changes.Keys && done.Keys == changes.Keys - todo
    && (forall id :: id in done ==> done[id] == changes[id])
  }

  lemma HalfwayStep(changes: map<TriggerId, Data>, done: map<TriggerId, Data>, todo: set<TriggerId>, id: TriggerId)
    requires Halfway(changes, done, todo) && id in todo
    ensures id in changes && id !in done && Halfway(changes, done[id := changes[id]], todo - {id})
    ensures |done[id := changes[id]]| == |done| + 1
  {
  }

  lemma HalfwayEnds(changes: map<TriggerId, Data>, done: map<TriggerId, Data>)
    requires Halfway(changes, done, {})
    ensures done == changes
  {
  }

  /** Every change of the head gets its event. */
  method QueueAll(s: State, changes: map<TriggerId, Data>, prevTs: Option<TipSet>, ts: TipSet, ghost lo: int, ghost book: Book)
    returns (s': State, ghost book': Book)
    requires Ok(s, book) && changes.Keys <= s.triggers.Keys && ts == book.chain[0] && lo <= ts.height
    ensures Ok(s', book') && book'.chain == book.chain && s'.nextId == s.nextId + |changes|
    ensures Took(Of(s, book), Of(s', book'), changes, PrevHeight(prevTs), ts.height, lo)
    ensures Forth(Of(s, book), Of(s', book'), ts.height - 1, lo, lo - 1)
  {
    s', book' := s, book;
    ghost var v, done: map<TriggerId, Data> := Of(s, book), map[];
    var todo := changes.Keys;
    TookNone(v, PrevHeight(prevTs), ts.height, lo);
    ForthRefl(v, ts.height - 1, lo, lo - 1);
    while todo != {}
      invariant Halfway(changes, done, todo)
      invariant Ok(s', book') && book'.chain == book.chain && s'.nextId == s.nextId + |done|
      invariant Took(v, Of(s', book'), done, PrevHeight(prevTs), ts.height, lo)
      invariant Forth(v, Of(s', book'), ts.height - 1, lo, lo - 1)
      invariant s'.triggers == s.triggers
      decreases todo
    {
      var tid := Pick(todo);
      HalfwayStep(changes, done, todo, tid);
      ghost var u, rq := Of(s', book'), s'.revertQueue;
      ghost var t, event;
      s', t, event, book' := QueueForConfidence(s', tid, changes[tid], prevTs, ts, book');
      TookOne(v, u, rq, Of(s', book'), done, PrevHeight(prevTs), ts, lo, done[tid := changes[tid]], t, event);
      EnteredForthAfter(v, u, rq, ts, lo, t, event);
      done, todo := done[tid := changes[tid]], todo - {tid};
    }
    HalfwayEnds(changes, done);
  }

  // ----- catching up -----------------------------------------------------

  method ApplyWithConfidence(s: State, height: int, answers: nat -> Answer, ghost book: Book) returns (s': State, ghost book': Book)
    requires Ok(s, book) && height <= book.chain[0].height
    ensures Ok(s', book') && s' == s.(confQueue := s'.confQueue, triggers := s'.triggers, timeouts := s'.timeouts)
    ensures Passed(Of(s, book), Of(s', book'), height, answers)
  {
    var q, tr, to, b := ApplyDue(s.confQueue, s.triggers, s.timeouts, s.revertQueue, s.ctr, book, height, answers);
    s' := s.(confQueue := q, triggers := tr, timeouts := to);
    book' := b;
  }

  /** Timeouts due at the head: a listener whose event never came is called once
      with nothing. Only the enabled flags of listeners can change. */
  method ApplyTimeouts(s: State, ts: TipSet, answers: TriggerId -> Answer, ghost book: Book) returns (s': State)
    requires Ok(s, book)
    ensures Ok(s', book) && s' == s.(triggers := s'.triggers) && Listeners(Of(s, book), Of(s', book))
    ensures forall id :: id in s.triggers ==> id in s'.triggers && s'.triggers[id] == AfterTimeout(s, ts.height, id, answers(id))
  {
    s' := s;
    if ts.height !in s.timeouts {
      return;
    }
    var due := s.timeouts[ts.height];
    var todo := due.Keys;
    while todo != {}
      invariant todo <= due.Keys
      invariant SameTriggers(s.triggers, s'.triggers) && s' == s.(triggers := s'.triggers)
      invariant forall id :: id in s.triggers ==> id in s'.triggers
      invariant forall id :: id in s.triggers && id in todo ==> s'.triggers[id] == s.triggers[id]
      invariant forall id :: id in s.triggers && id !in todo ==> s'.triggers[id] == AfterTimeout(s, ts.height, id, answers(id))
      decreases todo
    {
      var id := Pick(todo);
      var trigger := s'.triggers[id];
      todo := todo - {id};
      if due[id] > 0 || trigger.disabled {
        continue;
      }
      // the handler runs here, without an event
      if answers(id).failed {
        continue;
      }
      var more := answers(id).more;
      DisableSame(s'.triggers, id, !more);
      s' := s'.(triggers := Told(s'.triggers, id, more));
    }
    TriggersKeepGood(Of(s, book), s.revertQueue, s'.triggers);
    assert forall id :: id in due ==> HasTimeout(s.timeouts, id);
  }

  /** A listener after the timeouts of a height: an enabled one whose event never came is
      called, and stays enabled only if it wants more. */
  ghost function AfterTimeout(s: State, height: int, id: TriggerId, answer: Answer): HandlerInfo
    requires id in s.triggers
  {
    var trigger := s.triggers[id];
    if height in s.timeouts && id in s.timeouts[height] && s.timeouts[height][id] <= 0 && !trigger.disabled && !answer.failed
    then trigger.(disabled := !answer.more) else trigger
  }

  function Min(a: int, b: int): int { if a <= b then a else b }

  /** Every height from the last known tipset to the new one, both included. */
  method ApplyHeights(s: State, from: int, ts: TipSet, ghost h0: int, ghost lo: int, ghost book: Book)
    returns (s': State, ghost book': Book)
    requires Ok(s, book) && ts == book.chain[0] && lo <= from
    ensures Ok(s', book') && book'.chain == book.chain && s'.nextId == s.nextId
    ensures Forth(Of(s, book), Of(s', book'), h0, lo, ts.height)
    ensures Band(Of(s, book), lo, Min(from, ts.height)) ==> Band(Of(s', book'), lo, ts.height)
  {
    s', book' := s, book;
    ForthRefl(Of(s, book), h0, lo, ts.height);
    var at := from;
    while at <= ts.height
      invariant from <= at && (from <= ts.height ==> at <= ts.height + 1)
      invariant Ok(s', book') && book'.chain == book.chain && s'.nextId == s.nextId
      invariant Forth(Of(s, book), Of(s', book'), h0, lo, ts.height)
      invariant Band(Of(s, book), lo, Min(from, ts.height)) ==> Band(Of(s', book'), lo, if from <= ts.height then at else ts.height)
      decreases ts.height - at
    {
      var answers: nat -> Answer := *;
      var timedOut: TriggerId -> Answer := *;
      s', book' := ApplyHeight(s', at, ts, answers, timedOut, s, h0, lo, book', book);
      at := at + 1;
    }
    BandNarrower(Of(s', book'), lo, at, ts.height);
  }

  /** One height: the events due there are offered, then the timeouts of the head. */
  method ApplyHeight(s: State, at: int, ts: TipSet, answers: nat -> Answer, timedOut: TriggerId -> Answer,
                     ghost s0: State, ghost h0: int, ghost lo: int, ghost book: Book, ghost book0: Book)
    returns (s': State, ghost book': Book)
    requires Ok(s, book) && ts == book.chain[0] && lo <= at <= ts.height
    requires BookOk(book0) && Forth(Of(s0, book0), Of(s, book), h0, lo, ts.height)
    ensures Ok(s', book') && book'.chain == book.chain && s'.nextId == s.nextId
    ensures Forth(Of(s0, book0), Of(s', book'), h0, lo, ts.height)
    ensures Band(Of(s, book), lo, at) ==> Band(Of(s', book'), lo, at + 1)
  {
    s', book' := ApplyWithConfidence(s, at, answers, book);
    OnwardForth(Of(s, book), Of(s', book'), at, h0, lo, ts.height);
    ForthTransitive(Of(s0, book0), Of(s, book), Of(s', book'), h0, lo, ts.height);
    if Band(Of(s, book), lo, at) {
      PassedBand(Of(s, book), Of(s', book'), s.revertQueue, at, answers, lo);
    }
    ghost var u := s';
    s' := ApplyTimeouts(s', ts, timedOut, book');
    TriggersForth(Of(u, book'), s'.triggers, h0, lo, ts.height);
    TriggersForth(Of(u, book'), s'.triggers, h0, lo, at + 1);
    ForthTransitive(Of(s0, book0), Of(u, book'), Of(s', book'), h0, lo, ts.height);
  }

  lemma BandNarrower(v: View, lo: int, hi: int, lower: int)
    ensures lower <= hi && Band(v, lo, hi) ==> Band(v, lo, lower)
  {
  }

  /** The tipset before the j-th applied one. */
  function Before(lastTs: TipSet, app: seq<TipSet>, j: nat): TipSet
    requires j <= |app|
  {
    if j == 0 then lastTs else app[j - 1]
  }

  /** The changes of one tipset are queued; its messages only when they could be read. */
  ghost predicate QueuedTipSet(v: View, prevH: int, h: int, checks: Checks) {
    && QueuedAll(v, checks.stateChanges, prevH, h)
    && (checks.newCalls.Some? ==> QueuedAll(v, checks.newCalls.value, NO_HEIGHT, h))
  }

  function ChangeCount(checks: Checks): nat {
    |checks.stateChanges| + if checks.newCalls.Some? then |checks.newCalls.value| else 0
  }

  /** When the messages cannot be read, only the state changes are queued and nothing is offered. */
  ghost predicate GaveUp(v: View, w: View, stateChanges: map<TriggerId, Data>, h: int) {
    && w.tr == v.tr
    && WaitsFor(v, w, stateChanges, h)
  }

  lemma GrowHead(s: State, book: Book, app: seq<TipSet>, h0: int, lo: int, hi: int)
    requires Ok(s, book) && Rising(book.chain[0].height, app)
    ensures var longer := book.(chain := Extend(book.chain, app));
      && Ok(s, longer) && Forth(Of(s, book), Of(s, longer), h0, lo, hi)
      && SameWaits(Of(s, book), Of(s, longer))
  {
    ExtendShape(book.chain, app);
    GrowForth(Of(s, book), s.revertQueue, Extend(book.chain, app), h0, lo, hi);
    GrowWaits(Of(s, book), Extend(book.chain, app));
  }

  lemma GrowOne(s: State, book: Book, ts: TipSet, h0: int, lo: int) returns (longer: Book)
    requires Ok(s, book) && book.chain[0].height < ts.height
    ensures longer.chain == [ts] + book.chain
    ensures Ok(s, longer) && Forth(Of(s, book), Of(s, longer), h0, lo, lo - 1) && SameWaits(Of(s, book), Of(s, longer))
  {
    GrowHead(s, book, [ts], h0, lo, lo - 1);
    assert Extend(book.chain, [ts]) == [ts] + book.chain;
    longer := book.(chain := [ts] + book.chain);
  }

  lemma ForthLower(v: View, w: View, h1: int, lo: int, hi: int, h0: int, higher: int)
    requires Forth(v, w, h1, lo, hi) && h0 <= h1 && hi <= higher
    ensures Forth(v, w, h0, lo, higher)
  {
    ForthWider(v, w, h1, lo, hi, higher);
    assert forall t, h :: ForthAt(v.q, w.q, h1, lo, t, h) ==> ForthAt(v.q, w.q, h0, lo, t, h);
  }

  /** The state changes of the head are queued. */
  method QueueStateChanges(s: State, lastTs: TipSet, ts: TipSet, stateChanges: map<TriggerId, Data>,
                           ghost h0: int, ghost lo: int, ghost book: Book, ghost first: View)
    returns (s': State, ghost book': Book)
    requires Ok(s, book) && ts == book.chain[0] && stateChanges.Keys <= s.triggers.Keys && h0 < ts.height && lo <= ts.height
    requires BookOk(first.book) && first.tr == s.triggers
    requires Forth(first, Of(s, book), h0, lo, lo - 1) && SameWaits(first, Of(s, book))
    ensures Ok(s', book') && book'.chain == book.chain && s'.nextId == s.nextId + |stateChanges|
    ensures QueuedAll(Of(s', book'), stateChanges, lastTs.height, ts.height)
    ensures Forth(first, Of(s', book'), h0, lo, lo - 1) && KeepsBands(first, Of(s', book'), lo, ts.height)
    ensures GaveUp(first, Of(s', book'), stateChanges, ts.height)
  {
    s', book' := QueueAll(s, stateChanges, Some(lastTs), ts, lo, book);
    HeadTakes(first, Of(s, book), Of(s', book'), stateChanges, lastTs.height, ts.height, h0, lo);
  }

  lemma HeadTakes(u: View, v: View, w: View, changes: map<TriggerId, Data>, prevH: int, h: int, h0: int, lo: int)
    requires Forth(u, v, h0, lo, lo - 1) && SameWaits(u, v) && u.tr == v.tr && BookOk(u.book) && BookOk(v.book)
    requires Took(v, w, changes, prevH, h, lo) && Forth(v, w, h - 1, lo, lo - 1) && h0 < h
    ensures Forth(u, w, h0, lo, lo - 1) && KeepsBands(u, w, lo, h) && GaveUp(u, w, changes, h)
  {
    ForthLower(v, w, h - 1, lo, lo - 1, h0, lo - 1);
    ForthTransitive(u, v, w, h0, lo, lo - 1);
    WaitsForAfter(u, v, w, changes, lo, h);
  }

  lemma WaitsForAfter(u: View, v: View, w: View, changes: map<TriggerId, Data>, lo: int, h: int)
    requires SameWaits(u, v) && u.tr == v.tr && WaitsFor(v, w, changes, h) && KeepsBands(v, w, lo, h)
    ensures WaitsFor(u, w, changes, h) && KeepsBands(u, w, lo, h)
  {
    forall bound
      ensures WaitsForAt(u, w, changes, h, bound)
    {
      assert WaitsForAt(v, w, changes, h, bound);
      SamePassed(u, v, lo, bound);
    }
    forall hi | hi <= h
      ensures KeepsBand(u, w, lo, hi)
    {
      assert KeepsBand(v, w, lo, hi);
      SamePassed(u, v, lo, hi);
    }
  }

  /** The message calls of the head are queued after its state changes. */
  method QueueCalls(s: State, newCalls: map<TriggerId, Data>, ts: TipSet, ghost h0: int, ghost lo: int, ghost book: Book,
                    ghost first: View, ghost stateChanges: map<TriggerId, Data>, ghost prevH: int)
    returns (s': State, ghost book': Book)
    requires Ok(s, book) && newCalls.Keys <= s.triggers.Keys && ts == book.chain[0] && lo <= ts.height && h0 < ts.height
    requires BookOk(first.book) && Forth(first, Of(s, book), h0, lo, lo - 1) && KeepsBands(first, Of(s, book), lo, ts.height)
    requires QueuedAll(Of(s, book), stateChanges, prevH, ts.height)
    ensures Ok(s', book') && book'.chain == book.chain && s'.nextId == s.nextId + |newCalls|
    ensures QueuedAll(Of(s', book'), stateChanges, prevH, ts.height) && QueuedAll(Of(s', book'), newCalls, NO_HEIGHT, ts.height)
    ensures Forth(first, Of(s', book'), h0, lo, lo - 1) && KeepsBands(first, Of(s', book'), lo, ts.height)
  {
    s', book' := QueueAll(s, newCalls, None, ts, lo, book);
    QueuedStays(Of(s, book), Of(s', book'), ts.height - 1, lo, lo - 1, stateChanges, prevH, ts.height);
    ForthLower(Of(s, book), Of(s', book'), ts.height - 1, lo, lo - 1, h0, lo - 1);
    ForthTransitive(first, Of(s, book), Of(s', book'), h0, lo, lo - 1);
    KeepsBandsTransitive(first, Of(s, book), Of(s', book'), lo, ts.height);
  }

  /** A new head: its events are queued, then everything that became due is offered.
      When its messages cannot be read, the rest is given up. */
  method ApplyTipSet(s: State, lastTs: TipSet, ts: TipSet, checks: Checks, ghost h0: int, ghost lo: int, ghost book: Book)
    returns (s': State, ok: bool, ghost book': Book)
    requires Ok(s, book) && book.chain[0].height < ts.height && Known(checks, s.triggers)
    requires h0 < ts.height && lo <= lastTs.height && lo <= ts.height
    ensures Ok(s', book') && book'.chain == [ts] + book.chain
    ensures ok <==> checks.newCalls.Some?
    ensures s'.nextId == s.nextId + ChangeCount(checks)
    ensures QueuedTipSet(Of(s', book'), lastTs.height, ts.height, checks)
    ensures Forth(Of(s, book), Of(s', book'), h0, lo, if ok then ts.height else lo - 1)
    ensures ok && Band(Of(s, book), lo, Min(lastTs.height, ts.height)) ==> Band(Of(s', book'), lo, ts.height)
    ensures !ok ==> KeepsBands(Of(s, book), Of(s', book'), lo, ts.height)
    ensures !ok ==> GaveUp(Of(s, book), Of(s', book'), checks.stateChanges, ts.height)
  {
    ghost var longer := GrowOne(s, book, ts, h0, lo);
    s', book' := QueueStateChanges(s, lastTs, ts, checks.stateChanges, h0, lo, longer, Of(s, book));
    if checks.newCalls.None? {
      return s', false, book';
    }
    ok := true;
    s', book' := QueueCalls(s', checks.newCalls.value, ts, h0, lo, book', Of(s, book), checks.stateChanges, lastTs.height);
    s', book' := CatchUp(s', lastTs, ts, checks, h0, lo, book', Of(s, book));
  }

  /** Once the changes of the head are queued, everything that became due is offered. */
  method CatchUp(s: State, lastTs: TipSet, ts: TipSet, ghost checks: Checks, ghost h0: int, ghost lo: int, ghost book: Book, ghost first: View)
    returns (s': State, ghost book': Book)
    requires Ok(s, book) && ts == book.chain[0] && lo <= lastTs.height && BookOk(first.book)
    requires QueuedTipSet(Of(s, book), lastTs.height, ts.height, checks)
    requires Forth(first, Of(s, book), h0, lo, lo - 1) && KeepsBands(first, Of(s, book), lo, ts.height) && lo <= ts.height
    ensures Ok(s', book') && book'.chain == book.chain && s'.nextId == s.nextId
    ensures QueuedTipSet(Of(s', book'), lastTs.height, ts.height, checks)
    ensures Forth(first, Of(s', book'), h0, lo, ts.height)
    ensures Band(first, lo, Min(lastTs.height, ts.height)) ==> Band(Of(s', book'), lo, ts.height)
  {
    assert KeepsBand(first, Of(s, book), lo, Min(lastTs.height, ts.height));
    s', book' := ApplyHeights(s, lastTs.height, ts, h0, lo, book);
    QueuedTipSetStays(Of(s, book), Of(s', book'), h0, lo, ts.height, lastTs.height, ts.height, checks);
    ForthWider(first, Of(s, book), h0, lo, lo - 1, ts.height);
    ForthTransitive(first, Of(s, book), Of(s', book'), h0, lo, ts.height);
  }

  lemma QueuedTipSetStays(v: View, w: View, h0: int, lo: int, hi: int, prevH: int, h: int, checks: Checks)
    requires Forth(v, w, h0, lo, hi) && QueuedTipSet(v, prevH, h, checks)
    ensures QueuedTipSet(w, prevH, h, checks)
  {
    QueuedStays(v, w, h0, lo, hi, checks.stateChanges, prevH, h);
    if checks.newCalls.Some? {
      QueuedStays(v, w, h0, lo, hi, checks.newCalls.value, NO_HEIGHT, h);
    }
  }

  ghost predicate Known(c: Checks, triggers: Triggers) {
    c.stateChanges.Keys <= triggers.Keys && (c.newCalls.Some? ==> c.newCalls.value.Keys <= triggers.Keys)
  }

  // ----- head changes ----------------------------------------------------

  lemma ShrunkIsOk(s: State, book: Book, shorter: Book)
    requires Ok(s, book) && |book.chain| > 1 && (forall t :: EventsAt(s.confQueue, t, book.chain[0].height) == [])
    requires shorter == book.(chain := book.chain[1..])
    ensures Ok(s, shorter)
  {
    ShrinkKeepsLive(s.confQueue, s.triggers, s.revertQueue, book);
    StaysPunctual(book, shorter, s.triggers);
  }

  lemma ShrinkHead(s: State, book: Book, s': State, b: Book, ts: TipSet) returns (shorter: Book)
    requires Ok(s, book) && |book.chain| > 1 && ts == book.chain[0]
    requires Ok(s', b) && SameElsewhere(b, book, ts.height) && AllDropped(s.confQueue, s'.confQueue, b, ts)
    requires s'.triggers == s.triggers && s'.timeouts == s.timeouts
    ensures Ok(s', shorter) && shorter.chain == book.chain[1..] && Back(Of(s, book), Of(s', shorter), book.chain[1].height)
  {
    shorter := b.(chain := b.chain[1..]);
    ShrunkIsOk(s', b, shorter);
    DroppedIsBack(Of(s, book), s.revertQueue, Of(s', b), ts);
  }

  /** Dropping the head. */
  method RevertTipSet(s: State, ts: TipSet, ghost book: Book) returns (s': State, ghost book': Book)
    requires Ok(s, book) && |book.chain| > 1 && ts == book.chain[0]
    ensures Ok(s', book') && book'.chain == book.chain[1..] && s'.nextId == s.nextId
    ensures Back(Of(s, book), Of(s', book'), book.chain[1].height)
  {
    ghost var b;
    s', b := HandleReverts(s, ts, book);
    book' := ShrinkHead(s, book, s', b, ts);
  }

  /** Where `lastTs` is left after reverts: at the lowest reverted tipset. */
  function LastAfter(lastTs: TipSet, rev: seq<TipSet>): TipSet {
    if rev == [] then lastTs else rev[|rev| - 1]
  }

  method RevertTipSets(s: State, lastTs: TipSet, rev: seq<TipSet>, ghost book: Book)
    returns (s': State, last: TipSet, ghost book': Book)
    requires Ok(s, book) && |rev| < |book.chain| && rev == book.chain[..|rev|]
    ensures Ok(s', book') && book'.chain == book.chain[|rev|..] && s'.nextId == s.nextId
    ensures last == LastAfter(lastTs, rev)
    ensures Back(Of(s, book), Of(s', book'), book.chain[|rev|].height)
  {
    s', last, book' := s, lastTs, book;
    BackRefl(Of(s, book), s.revertQueue);
    for k := 0 to |rev|
      invariant Ok(s', book') && book'.chain == book.chain[k..] && s'.nextId == s.nextId
      invariant last == LastAfter(lastTs, rev[..k])
      invariant Back(Of(s, book), Of(s', book'), book.chain[k].height)
    {
      assert rev[k] == book'.chain[0] && book'.chain[1] == book.chain[k + 1];
      ghost var v := Of(s', book');
      s', book' := RevertTipSet(s', rev[k], book');
      BackTransitive(Of(s, book), v, Of(s', book'), s.revertQueue, book.chain[k].height, book.chain[k + 1].height);
      last := rev[k];
    }
    assert rev[..|rev|] == rev;
  }

  /** How many tipsets are read before one that cannot be. */
  function Read(checks: seq<Checks>): nat {
    if checks == [] || checks[0].newCalls.None? then 0 else 1 + Read(checks[1..])
  }

  /** How many tipsets have changes queued: those that are read and the one that cannot be. */
  function Reached(checks: seq<Checks>): nat {
    if Read(checks) < |checks| then Read(checks) + 1 else |checks|
  }

  function Changes(checks: seq<Checks>): nat {
    if checks == [] then 0
    else ChangeCount(checks[0]) + if checks[0].newCalls.None? then 0 else Changes(checks[1..])
  }

  lemma {:induction false} ReadMeaning(checks: seq<Checks>)
    ensures Read(checks) <= |checks|
    ensures forall j :: 0 <= j < Read(checks) ==> checks[j].newCalls.Some?
    ensures Read(checks) < |checks| ==> checks[Read(checks)].newCalls.None?
  {
    if checks != [] && checks[0].newCalls.Some? {
      ReadMeaning(checks[1..]);
      assert forall j :: 1 <= j < |checks| ==> checks[j] == checks[1..][j - 1];
    }
  }

  ghost predicate AllRead(checks: seq<Checks>) {
    forall i :: 0 <= i < |checks| ==> checks[i].newCalls.Some?
  }

  lemma ReadStep(checks: seq<Checks>, k: nat)
    requires k < |checks|
    ensures Read(checks[k..]) == if checks[k].newCalls.None? then 0 else 1 + Read(checks[k + 1..])
    ensures Changes(checks[k..]) == ChangeCount(checks[k]) + if checks[k].newCalls.None? then 0 else Changes(checks[k + 1..])
  {
    assert checks[k..][0] == checks[k] && checks[k..][1..] == checks[k + 1..];
  }

  /** The changes of the first `n` tipsets are queued. */
  ghost predicate QueuedUpTo(v: View, lastTs: TipSet, app: seq<TipSet>, checks: seq<Checks>, n: nat) {
    n <= |app| && n <= |checks| && forall j :: 0 <= j < n ==> QueuedTipSet(v, Before(lastTs, app, j).height, app[j].height, checks[j])
  }

  lemma QueuedUpToStays(v: View, w: View, h0: int, lo: int, hi: int, lastTs: TipSet, app: seq<TipSet>, checks: seq<Checks>, n: nat)
    requires Forth(v, w, h0, lo, hi) && QueuedUpTo(v, lastTs, app, checks, n)
    ensures QueuedUpTo(w, lastTs, app, checks, n)
  {
    forall j | 0 <= j < n
      ensures QueuedTipSet(w, Before(lastTs, app, j).height, app[j].height, checks[j])
    {
      QueuedTipSetStays(v, w, h0, lo, hi, Before(lastTs, app, j).height, app[j].height, checks[j]);
    }
  }

  /** The height up to which handlers ran after `k` tipsets were read. */
  function Top(lo: int, app: seq<TipSet>, k: nat): int
    requires k <= |app|
  {
    if k == 0 then lo - 1 else app[k - 1].height
  }

  /** After `k` tipsets were read and the changes of `n` queued. */
  ghost predicate Progress(v: View, w: View, lastTs: TipSet, app: seq<TipSet>, checks: seq<Checks>, h0: int, lo: int, k: nat, n: nat) {
    && k <= |app| == |checks| && QueuedUpTo(w, lastTs, app, checks, n)
    && Forth(v, w, h0, lo, Top(lo, app, k))
    && (k > 0 ==> Band(w, lo, app[k - 1].height))
  }

  lemma ProgressStarts(v: View, lastTs: TipSet, app: seq<TipSet>, checks: seq<Checks>, h0: int, lo: int)
    requires |app| == |checks|
    ensures Progress(v, v, lastTs, app, checks, h0, lo, 0, 0)
  {
    ForthRefl(v, h0, lo, lo - 1);
  }

  lemma ProgressStep(v: View, u: View, w: View, lastTs: TipSet, app: seq<TipSet>, checks: seq<Checks>, h0: int, lo: int, k: nat)
    requires Progress(v, u, lastTs, app, checks, h0, lo, k, k) && k < |app| && BookOk(v.book) && BookOk(u.book)
    requires Forth(u, w, h0, lo, app[k].height) && QueuedTipSet(w, Before(lastTs, app, k).height, app[k].height, checks[k])
    requires Band(w, lo, app[k].height) && Top(lo, app, k) <= app[k].height
    ensures Progress(v, w, lastTs, app, checks, h0, lo, k + 1, k + 1)
  {
    QueuedUpToStays(u, w, h0, lo, app[k].height, lastTs, app, checks, k);
    ForthWider(v, u, h0, lo, Top(lo, app, k), app[k].height);
    ForthTransitive(v, u, w, h0, lo, app[k].height);
  }

  lemma ProgressStops(v: View, u: View, w: View, lastTs: TipSet, app: seq<TipSet>, checks: seq<Checks>, h0: int, lo: int, k: nat)
    requires Progress(v, u, lastTs, app, checks, h0, lo, k, k) && k < |app| && BookOk(v.book) && BookOk(u.book)
    requires Forth(u, w, h0, lo, lo - 1) && QueuedTipSet(w, Before(lastTs, app, k).height, app[k].height, checks[k])
    requires KeepsBands(u, w, lo, app[k].height) && lo - 1 <= Top(lo, app, k) <= app[k].height
    ensures Progress(v, w, lastTs, app, checks, h0, lo, k, k + 1)
  {
    QueuedUpToStays(u, w, h0, lo, lo - 1, lastTs, app, checks, k);
    ForthWider(u, w, h0, lo, lo - 1, Top(lo, app, k));
    ForthTransitive(v, u, w, h0, lo, Top(lo, app, k));
    assert k > 0 ==> KeepsBand(u, w, lo, app[k - 1].height);
  }

  /** The rest of the chain is known although its tipsets were not processed. */
  lemma GrowRest(s: State, book: Book, v: View, lastTs: TipSet, app: seq<TipSet>, checks: seq<Checks>, h0: int, lo: int, k: nat, n: nat)
    returns (longer: Book)
    requires Ok(s, book) && BookOk(v.book) && n <= |app| && Rising(book.chain[0].height, app[n..])
    requires Progress(v, Of(s, book), lastTs, app, checks, h0, lo, k, n)
    ensures Ok(s, longer) && longer.chain == Extend(book.chain, app[n..])
    ensures Progress(v, Of(s, longer), lastTs, app, checks, h0, lo, k, n) && SameWaits(Of(s, book), Of(s, longer))
  {
    longer := book.(chain := Extend(book.chain, app[n..]));
    GrowHead(s, book, app[n..], h0, lo, Top(lo, app, k));
    ForthTransitive(v, Of(s, book), Of(s, longer), h0, lo, Top(lo, app, k));
    QueuedUpToStays(Of(s, book), Of(s, longer), h0, lo, Top(lo, app, k), lastTs, app, checks, n);
    if k > 0 {
      SamePassed(Of(s, book), Of(s, longer), lo, app[k - 1].height);
    }
  }

  ghost predicate AllKnown(checks: seq<Checks>, triggers: Triggers) {
    forall j :: 0 <= j < |checks| ==> Known(checks[j], triggers)
  }

  lemma RisingFrom(h: int, app: seq<TipSet>, k: nat)
    requires k < |app| && Rising(h, app[k..])
    ensures h < app[k].height && Rising(app[k].height, app[k + 1..])
  {
    assert app[k..][0] == app[k] && app[k..][1..] == app[k + 1..];
  }

  lemma ExtendFrom(chain: seq<TipSet>, app: seq<TipSet>, k: nat)
    requires k < |app|
    ensures Extend(chain, app[k..]) == Extend([app[k]] + chain, app[k + 1..])
  {
    assert app[k..][0] == app[k] && app[k..][1..] == app[k + 1..];
  }

  /** The height from which events are offered. */
  function Start(lastTs: TipSet, app: seq<TipSet>): int {
    if app == [] then lastTs.height else Min(lastTs.height, app[0].height)
  }

  /** Part way through the applied tipsets. */
  ghost predicate Applying(s0: State, book0: Book, s: State, book: Book, lastTs: TipSet, app: seq<TipSet>, checks: seq<Checks>,
                           h0: int, lo: int, k: nat) {
    && Ok(s, book) && k <= |app| == |checks| && lo == Start(lastTs, app)
    && Progress(Of(s0, book0), Of(s, book), lastTs, app, checks, h0, lo, k, k)
    && h0 <= book.chain[0].height && lo <= Before(lastTs, app, k).height && (k > 0 ==> book.chain[0] == app[k - 1])
    && Rising(book.chain[0].height, app[k..])
    && Extend(book.chain, app[k..]) == Extend(book0.chain, app)
    && s.nextId + Changes(checks[k..]) == s0.nextId + Changes(checks)
    && k + Read(checks[k..]) == Read(checks)
  }

  /** What applying tipsets does: the changes of every tipset reached are queued, and everything
      that became due is offered, or, when not even the first could be read, nothing is. */
  ghost predicate Applied(s0: State, book0: Book, s: State, book: Book, lastTs: TipSet, app: seq<TipSet>, checks: seq<Checks>,
                          h0: int, lo: int) {
    && Read(checks) <= |app| == |checks|
    && Progress(Of(s0, book0), Of(s, book), lastTs, app, checks, h0, lo, Read(checks), Reached(checks))
    && s.nextId == s0.nextId + Changes(checks)
    && book.chain == Extend(book0.chain, app)
    && (app == [] ==> SameWaits(Of(s0, book0), Of(s, book)))
    && (app != [] && Read(checks) == 0 ==> GaveUp(Of(s0, book0), Of(s, book), checks[0].stateChanges, app[0].height))
  }

  lemma ApplyingStarts(s: State, book: Book, lastTs: TipSet, app: seq<TipSet>, checks: seq<Checks>, lo: int)
    requires Ok(s, book) && Rising(book.chain[0].height, app) && |app| == |checks| && lo == Start(lastTs, app)
    ensures Applying(s, book, s, book, lastTs, app, checks, book.chain[0].height, lo, 0)
  {
    ProgressStarts(Of(s, book), lastTs, app, checks, book.chain[0].height, lo);
    assert app[0..] == app && checks[0..] == checks;
  }

  /** The tipset in turn was read. */
  lemma ApplyingStep(s0: State, book0: Book, s: State, book: Book, s': State, book': Book, lastTs: TipSet, app: seq<TipSet>,
                     checks: seq<Checks>, h0: int, lo: int, k: nat)
    requires Applying(s0, book0, s, book, lastTs, app, checks, h0, lo, k) && BookOk(book0) && k < |app| && checks[k].newCalls.Some?
    requires Ok(s', book') && book'.chain == [app[k]] + book.chain && s'.nextId == s.nextId + ChangeCount(checks[k])
    requires QueuedTipSet(Of(s', book'), Before(lastTs, app, k).height, app[k].height, checks[k])
    requires Forth(Of(s, book), Of(s', book'), h0, lo, app[k].height)
    requires Band(Of(s, book), lo, Min(Before(lastTs, app, k).height, app[k].height)) ==> Band(Of(s', book'), lo, app[k].height)
    ensures Applying(s0, book0, s', book', lastTs, app, checks, h0, lo, k + 1)
  {
    RisingFrom(book.chain[0].height, app, k);
    ExtendFrom(book.chain, app, k);
    ReadStep(checks, k);
    assert Band(Of(s, book), lo, lo);
    ProgressStep(Of(s0, book0), Of(s, book), Of(s', book'), lastTs, app, checks, h0, lo, k);
  }

  /** The tipset in turn could not be read. */
  lemma ApplyingStops(s0: State, book0: Book, s: State, book: Book, s': State, b: Book, lastTs: TipSet, app: seq<TipSet>,
                      checks: seq<Checks>, h0: int, lo: int, k: nat)
    returns (book': Book)
    requires Applying(s0, book0, s, book, lastTs, app, checks, h0, lo, k) && BookOk(book0) && k < |app| && checks[k].newCalls.None?
    requires k == 0 ==> s == s0 && book == book0
    requires Ok(s', b) && b.chain == [app[k]] + book.chain && s'.nextId == s.nextId + ChangeCount(checks[k])
    requires QueuedTipSet(Of(s', b), Before(lastTs, app, k).height, app[k].height, checks[k])
    requires Forth(Of(s, book), Of(s', b), h0, lo, lo - 1) && KeepsBands(Of(s, book), Of(s', b), lo, app[k].height)
    requires GaveUp(Of(s, book), Of(s', b), checks[k].stateChanges, app[k].height)
    ensures Ok(s', book') && Applied(s0, book0, s', book', lastTs, app, checks, h0, lo) && Read(checks) == k
  {
    RisingFrom(book.chain[0].height, app, k);
    ExtendFrom(book.chain, app, k);
    ReadStep(checks, k);
    ProgressStops(Of(s0, book0), Of(s, book), Of(s', b), lastTs, app, checks, h0, lo, k);
    book' := GrowRest(s', b, Of(s0, book0), lastTs, app, checks, h0, lo, k, k + 1);
    if k == 0 {
      WaitsForSame(Of(s, book), Of(s', b), Of(s', book'), checks[k].stateChanges, app[k].height);
    }
  }

  lemma WaitsForSame(u: View, v: View, w: View, changes: map<TriggerId, Data>, h: int)
    requires WaitsFor(u, v, changes, h) && SameWaits(v, w)
    ensures WaitsFor(u, w, changes, h)
  {
    forall bound
      ensures WaitsForAt(u, w, changes, h, bound)
    {
      assert WaitsForAt(u, v, changes, h, bound);
      SamePassed(v, w, 0, bound);
    }
  }

  lemma ApplyingEnds(s0: State, book0: Book, s: State, book: Book, lastTs: TipSet, app: seq<TipSet>, checks: seq<Checks>, h0: int, lo: int)
    requires Applying(s0, book0, s, book, lastTs, app, checks, h0, lo, |app|) && (app == [] ==> s == s0 && book == book0)
    ensures Applied(s0, book0, s, book, lastTs, app, checks, h0, lo) && Read(checks) == |app|
  {
    assert app[|app|..] == [] && checks[|app|..] == [];
  }

  lemma StillKnown(v: View, w: View, h0: int, lo: int, hi: int, checks: seq<Checks>)
    requires Forth(v, w, h0, lo, hi) && AllKnown(checks, v.tr)
    ensures AllKnown(checks, w.tr)
  {
    assert forall c :: Known(c, v.tr) ==> Known(c, w.tr);
  }

  /** The tipset in turn: everything goes on from there, or is given up. */
  method ApplyNext(s: State, last: TipSet, app: seq<TipSet>, checks: seq<Checks>, k: nat,
                   ghost lastTs: TipSet, ghost h0: int, ghost lo: int, ghost book: Book, ghost s0: State, ghost book0: Book)
    returns (s': State, last': TipSet, ok: bool, ghost book': Book)
    requires Going(s0, book0, s, book, last, lastTs, app, checks, h0, lo, k) && BookOk(book0)
    requires k < |app| && AllKnown(checks, s0.triggers)
    ensures if ok then Going(s0, book0, s', book', last', lastTs, app, checks, h0, lo, k + 1)
            else Ended(s0, book0, s', book', last', lastTs, app, checks, h0, lo, false)
  {
    StillKnown(Of(s0, book0), Of(s, book), h0, lo, Top(lo, app, k), checks);
    RisingFrom(book.chain[0].height, app, k);
    s', ok, book' := ApplyTipSet(s, last, app[k], checks[k], h0, lo, book);
    if ok {
      last' := app[k];
      ApplyingStep(s0, book0, s, book, s', book', lastTs, app, checks, h0, lo, k);
    } else {
      last' := last;
      book' := ApplyingStops(s0, book0, s, book, s', book', lastTs, app, checks, h0, lo, k);
    }
  }

  ghost predicate Going(s0: State, book0: Book, s: State, book: Book, last: TipSet, lastTs: TipSet, app: seq<TipSet>,
                        checks: seq<Checks>, h0: int, lo: int, k: nat) {
    && Applying(s0, book0, s, book, lastTs, app, checks, h0, lo, k)
    && (k == 0 ==> s == s0 && book == book0) && last == Before(lastTs, app, k)
  }

  ghost predicate Ended(s0: State, book0: Book, s: State, book: Book, last: TipSet, lastTs: TipSet, app: seq<TipSet>,
                        checks: seq<Checks>, h0: int, lo: int, ok: bool) {
    && Ok(s, book) && Applied(s0, book0, s, book, lastTs, app, checks, h0, lo)
    && last == Before(lastTs, app, Read(checks)) && (ok <==> Read(checks) == |app|)
  }

  method ApplyTipSets(s: State, lastTs: TipSet, app: seq<TipSet>, checks: seq<Checks>, ghost lo: int, ghost book: Book)
    returns (s': State, last: TipSet, ok: bool, ghost book': Book)
    requires Ok(s, book) && Rising(book.chain[0].height, app) && lo == Start(lastTs, app)
    requires |checks| == |app| && AllKnown(checks, s.triggers)
    ensures Ended(s, book, s', book', last, lastTs, app, checks, book.chain[0].height, lo, ok)
  {
    ghost var h0 := book.chain[0].height;
    s', last, ok, book' := s, lastTs, true, book;
    ApplyingStarts(s, book, lastTs, app, checks, lo);
    for k := 0 to |app|
      invariant Going(s, book, s', book', last, lastTs, app, checks, h0, lo, k) && ok
    {
      s', last, ok, book' := ApplyNext(s', last, app, checks, k, lastTs, h0, lo, book', s, book);
      if !ok {
        return;
      }
    }
    ApplyingEnds(s, book, s', book', lastTs, app, checks, h0, lo);
  }

  // ----- a whole head change ---------------------------------------------

  /** Nothing below this height may wait after the head change. */
  function Bound(last: TipSet, app: seq<TipSet>, checks: seq<Checks>): int {
    if Read(checks) == 0 then last.height else Start(last, app)
  }

  /** Whether the component is caught up after a head change: no event of the tipsets that stay
      waits below the bound, nor, if not even the first tipset was read, a change of that tipset.
      `v` is the view before, with the listeners of after. */
  ghost predicate NoneMissed(v: View, h0: int, last: TipSet, app: seq<TipSet>, checks: seq<Checks>)
    requires |app| == |checks|
  {
    && NoneKeptPassed(v, h0, Bound(last, app, checks))
    && (app != [] && Read(checks) == 0 ==> DueFrom(checks[0].stateChanges, v.tr, app[0].height, last.height))
  }

  lemma UnreadMissesNone(v: View, rq: Reverts, u: View, w: View, changes: map<TriggerId, Data>, h: int, h0: int, bound: int)
    requires Good(v, rq) && Back(v, u, h0) && GaveUp(u, w, changes, h)
    ensures NonePassed(w, bound) <==> NoneKeptPassed(v.(tr := w.tr), h0, bound) && DueFrom(changes, w.tr, h, bound)
  {
    BackPassed(v, u, rq, h0, w.tr, bound);
    assert WaitsForAt(u, w, changes, h, bound);
    assert u.(tr := w.tr) == u;
  }

  lemma ReadMissesNone(v: View, rq: Reverts, u: View, rq1: Reverts, w: View, h0: int, lo: int, hi: int, top: int)
    requires Good(v, rq) && Back(v, u, h0) && Good(u, rq1) && Forth(u, w, h0, lo, hi)
    requires lo <= top && (lo < top ==> Band(w, lo, top))
    ensures NonePassed(w, top) <==> NoneKeptPassed(v.(tr := w.tr), h0, lo)
  {
    BackPassed(v, u, rq, h0, w.tr, lo);
    ForthPassed(u, w, rq1, h0, lo, hi);
    if lo < top {
      BandIsPassed(w, lo, top);
    }
  }

  /** Exactly when the component is caught up after a head change. */
  lemma NoneMissedExactly(v: View, rq: Reverts, s0: State, book0: Book, s: State, book: Book, last: TipSet, app: seq<TipSet>,
                          checks: seq<Checks>, h0: int, lo: int)
    requires Good(v, rq) && Back(v, Of(s0, book0), h0) && Good(Of(s0, book0), s0.revertQueue) && lo == Start(last, app)
    requires Applied(s0, book0, s, book, last, app, checks, h0, lo) && Rising(h0, app)
    ensures NonePassed(Of(s, book), Before(last, app, Read(checks)).height) <==>
      NoneMissed(v.(tr := s.triggers), h0, last, app, checks)
  {
    var k := Read(checks);
    if app != [] && k == 0 {
      UnreadMissesNone(v, rq, Of(s0, book0), Of(s, book), checks[0].stateChanges, app[0].height, h0, last.height);
    } else {
      if k > 0 {
        RisingOrder(h0, app, k - 1);
      }
      ReadMissesNone(v, rq, Of(s0, book0), s0.revertQueue, Of(s, book), h0, lo, Top(lo, app, k), Before(last, app, k).height);
    }
  }

  lemma {:induction false} RisingOrder(h: int, app: seq<TipSet>, k: nat)
    requires k < |app| && Rising(h, app)
    ensures app[0].height <= app[k].height
    decreases k
  {
    if k > 0 {
      RisingOrder(app[0].height, app[1..], k - 1);
      assert app[1..][0].height > app[0].height;
    }
  }

  /** When nothing can be missed: the lowest reverted tipset is not above the last tipset
      processed, and the first new tipset is read or is not below the lowest reverted one. */
  ghost predicate Safe(lastTs: TipSet, rev: seq<TipSet>, app: seq<TipSet>, checks: seq<Checks>) {
    && LastAfter(lastTs, rev).height <= lastTs.height
    && (app == [] || Read(checks) > 0 || LastAfter(lastTs, rev).height <= app[0].height)
  }

  lemma SafeMissesNone(v: View, tr: Triggers, h0: int, lastTs: TipSet, rev: seq<TipSet>, app: seq<TipSet>, checks: seq<Checks>)
    requires NonePassed(v, lastTs.height) && SameTriggers(v.tr, tr) && |app| == |checks|
    requires Safe(lastTs, rev, app, checks)
    ensures NoneMissed(v.(tr := tr), h0, LastAfter(lastTs, rev), app, checks)
  {
    DisabledPassed(v, tr, lastTs.height);
  }

  /** The last tipset processed is not below the head. */
  ghost predicate Level(chain: seq<TipSet>, lastTs: TipSet) {
    chain != [] && chain[0].height <= lastTs.height
  }

  /** As long as every tipset can be read, every head change is safe. */
  lemma StaysLevel(chain: seq<TipSet>, lastTs: TipSet, rev: seq<TipSet>, app: seq<TipSet>, checks: seq<Checks>)
    requires Falling(chain) && |rev| < |chain| && rev == chain[..|rev|] && |app| == |checks|
    requires Level(chain, lastTs) && AllRead(checks)
    ensures Safe(lastTs, rev, app, checks) && Read(checks) == |app|
    ensures Level(Extend(chain[|rev|..], app), Before(LastAfter(lastTs, rev), app, Read(checks)))
  {
    AllReadMeans(checks);
    if app != [] {
      ExtendHead(chain[|rev|..], app);
    }
  }

  /** Handlers only ran for events due in the window; what was dropped was only undone. */
  ghost predicate RanOnly(was: Book, now: Book, h0: int, lo: int, hi: int) {
    forall id :: RanOnlyId(was, now, h0, lo, hi, id)
  }

  ghost predicate RanOnlyId(was: Book, now: Book, h0: int, lo: int, hi: int, id: nat) {
    id in now.place && (id !in was.place || now.place[id].h <= h0) && (now.place[id].due < lo || hi < now.place[id].due) ==>
      Hist(now, id) == Hist(was, id)
  }

  lemma RanOnlyThere(v: View, u: View, w: View, h0: int, lo: int, hi: int)
    requires Back(v, u, h0) && Forth(u, w, h0, lo, hi) && BookOk(v.book) && BookOk(u.book) && u.book.next == v.book.next
    ensures RanOnly(v.book, w.book, h0, lo, hi)
  {
    forall id
      ensures RanOnlyId(v.book, w.book, h0, lo, hi, id)
    {
      assert QuietId(u.book, w.book, lo, hi, id) && Recalls(v.book, u.book, id) && Recalls(u.book, w.book, id);
    }
  }

  lemma AllReadMeans(checks: seq<Checks>)
    ensures AllRead(checks) <==> Read(checks) == |checks|
  {
    ReadMeaning(checks);
  }

  /** The registry with a new listener, and its timeout if it has one. */
  function Registered(s: State, info: HandlerInfo, timed: bool): State {
    s.(triggers := s.triggers[s.ctr := info], ctr := s.ctr + 1,
       timeouts := if timed then s.timeouts[info.timeout := Awaiting(s.timeouts, info.timeout, s.ctr)] else s.timeouts)
  }

  function Awaiting(timeouts: Timeouts, at: int, id: TriggerId): map<TriggerId, int> {
    (if at in timeouts then timeouts[at] else map[])[id := 0]
  }

  lemma RegisterKeepsGood(v: View, rq: Reverts, ctr: nat, info: HandlerInfo)
    requires Good(v, rq) && ctr !in v.tr
    ensures Good(v.(tr := v.tr[ctr := info]), rq)
  {
    var tr := v.tr[ctr := info];
    forall t, h, i
      ensures LiveAt(v.q, tr, rq, v.book, t, h, i)
    {
      assert LiveAt(v.q, v.tr, rq, v.book, t, h, i);
    }
  }

  lemma RegisterKeepsWaits(v: View, rq: Reverts, ctr: nat, info: HandlerInfo)
    requires Good(v, rq) && ctr !in v.tr
    ensures SameWaits(v, v.(tr := v.tr[ctr := info]))
  {
    var w := v.(tr := v.tr[ctr := info]);
    forall t, h, i
      ensures Waits(w, t, h, i) <==> Waits(v, t, h, i)
    {
      assert LiveAt(v.q, v.tr, rq, v.book, t, h, i);
    }
  }

  /** A new listener has no events yet. */
  lemma RegisterKeeps(s: State, book: Book, info: HandlerInfo, timed: bool)
    requires Ok(s, book)
    ensures s.ctr !in s.triggers && Ok(Registered(s, info, timed), book)
    ensures SameWaits(Of(s, book), Of(Registered(s, info, timed), book))
  {
    RegisterKeepsGood(Of(s, book), s.revertQueue, s.ctr, info);
    RegisterKeepsWaits(Of(s, book), s.revertQueue, s.ctr, info);
    var v := Of(s, book).(tr := s.triggers[s.ctr := info]);
    assert SameWaits(v, v.(to := Registered(s, info, timed).timeouts));
  }

  /** One more listener, under an unused identifier; its timeout, if it has one, waits uncalled. */
  ghost predicate NewListener(s: State, s': State, id: TriggerId, confidence: nat, timeout: int, more: bool) {
    && id !in s.triggers && s'.triggers == s.triggers[id := HandlerInfo(confidence, timeout + confidence, !more)]
    && s'.timeouts == (if timeout == NO_TIMEOUT then s.timeouts
                       else s.timeouts[timeout + confidence := Awaiting(s.timeouts, timeout + confidence, id)])
    && s' == s.(triggers := s'.triggers, timeouts := s'.timeouts, ctr := s.ctr + 1)
  }

  method Register(s: State, confidence: nat, timeout: int, done: bool, more: bool, ghost book: Book) returns (s': State, id: TriggerId)
    requires Ok(s, book)
    ensures Ok(s', book) && SameWaits(Of(s, book), Of(s', book))
    ensures NewListener(s, s', id, confidence, if done then NO_TIMEOUT else timeout, more)
  {
    var tout := if done then NO_TIMEOUT else timeout;
    id := s.ctr;
    var info := HandlerInfo(confidence, tout + confidence, !more);
    RegisterKeeps(s, book, info, tout != NO_TIMEOUT);
    s' := s.(triggers := s.triggers[id := info], ctr := s.ctr + 1);
    if tout != NO_TIMEOUT {
      s' := s'.(timeouts := s'.timeouts[tout + confidence := Awaiting(s'.timeouts, tout + confidence, id)]);
    }
  }

  /** What a head change does to the component. `h0` is the height of the highest tipset that stays. */
  ghost predicate Processed(v: View, n: nat, lastTs: TipSet, w: View, n': nat, lastTs': TipSet, ok: bool,
                            h0: int, rev: seq<TipSet>, app: seq<TipSet>, checks: seq<Checks>) {
    && |app| == |checks| && Read(checks) <= |app| && (ok <==> AllRead(checks))
    && var last := LastAfter(lastTs, rev);
       && lastTs' == Before(last, app, Read(checks)) && n' == n + Changes(checks)
       && HeadChanged(v, w, h0) && QueuedUpTo(w, last, app, checks, Reached(checks))
       && RanOnly(v.book, w.book, h0, Start(last, app), Top(Start(last, app), app, Read(checks)))
       && (NonePassed(w, lastTs'.height) <==> NoneMissed(v.(tr := w.tr), h0, last, app, checks))
       && (NonePassed(v, lastTs.height) && Safe(lastTs, rev, app, checks) ==> NonePassed(w, lastTs'.height))
  }

  method ProcessHeadChange(s: State, lastTs: TipSet, rev: seq<TipSet>, app: seq<TipSet>, checks: seq<Checks>, ghost book: Book)
    returns (s': State, lastTs': TipSet, ok: bool, ghost book': Book)
    requires Ok(s, book) && |rev| < |book.chain| && rev == book.chain[..|rev|] && Rising(book.chain[|rev|].height, app)
    requires |checks| == |app| && AllKnown(checks, s.triggers)
    ensures Ok(s', book') && book'.chain == Extend(book.chain[|rev|..], app)
    ensures Processed(Of(s, book), s.nextId, lastTs, Of(s', book'), s'.nextId, lastTs', ok, book.chain[|rev|].height, rev, app, checks)
  {
    var s1, last, b1 := RevertTipSets(s, lastTs, rev, book);
    s', lastTs', ok, book' := ApplyTipSets(s1, last, app, checks, Start(last, app), b1);
    ProcessedBoth(s, s1, s', lastTs, last, lastTs', ok, book, b1, book', rev, app, checks);
  }

  lemma ProcessedBoth(s: State, s1: State, s2: State, lastTs: TipSet, last: TipSet, lastTs': TipSet, ok: bool,
                      book: Book, b1: Book, b2: Book, rev: seq<TipSet>, app: seq<TipSet>, checks: seq<Checks>)
    requires Ok(s, book) && Ok(s1, b1) && |rev| < |book.chain| && b1.chain == book.chain[|rev|..] && Rising(book.chain[|rev|].height, app)
    requires Back(Of(s, book), Of(s1, b1), book.chain[|rev|].height) && last == LastAfter(lastTs, rev) && s1.nextId == s.nextId
    requires Ended(s1, b1, s2, b2, lastTs', last, app, checks, book.chain[|rev|].height, Start(last, app), ok)
    ensures Processed(Of(s, book), s.nextId, lastTs, Of(s2, b2), s2.nextId, lastTs', ok, book.chain[|rev|].height, rev, app, checks)
  {
    var (v, h0, lo) := (Of(s, book), book.chain[|rev|].height, Start(last, app));
    AllReadMeans(checks);
    BackThenForth(v, Of(s1, b1), Of(s2, b2), h0, lo, Top(lo, app, Read(checks)));
    RanOnlyThere(v, Of(s1, b1), Of(s2, b2), h0, lo, Top(lo, app, Read(checks)));
    NoneMissedExactly(v, s.revertQueue, s1, b1, s2, b2, last, app, checks, h0, lo);
    if NonePassed(v, lastTs.height) && Safe(lastTs, rev, app, checks) {
      SafeMissesNone(v, s2.triggers, h0, lastTs, rev, app, checks);
    }
  }

  class Events {
    var lastTs: TipSet
    var confQueue: Queue
    var revertQueue: Reverts
    var triggers: Triggers
    var timeouts: Timeouts
    var ctr: nat
    var nextId: nat
    ghost var book: Book

    function S(): State
      reads this
    {
      State(confQueue, revertQueue, triggers, timeouts, ctr, nextId)
    }

    ghost function V(): View
      reads this
    {
      Of(S(), book)
    }

    /** Every event has a good history and is due its listener's confidence after its tipset, and
        every queued event sits on the current chain. */
    ghost predicate Valid()
      reads this
    {
      Ok(S(), book)
    }

    /** No waiting event is due below the last tipset, where the next pass starts. */
    ghost predicate CaughtUp()
      reads this
    {
      NonePassed(V(), lastTs.height)
    }

    /** So it is until a tipset cannot be read. */
    ghost predicate InStep()
      reads this
    {
      CaughtUp() && Level(book.chain, lastTs)
    }

    constructor (head: TipSet, ghost below: seq<TipSet>)
      requires Falling([head] + below)
      ensures Valid() && InStep() && lastTs == head && book.chain == [head] + below
      ensures S() == State(map[], map[], map[], map[], 0, 0)
    {
      lastTs := head;
      ctr := 0;
      triggers := map[];
      confQueue := map[];
      revertQueue := map[];
      timeouts := map[];
      nextId := 0;
      book := Book([head] + below, map[], map[], map[], 0);
    }

    method Store(s: State)
      modifies this`confQueue, this`revertQueue, this`triggers, this`timeouts, this`ctr, this`nextId
      ensures S() == s
    {
      confQueue, revertQueue, triggers, timeouts, ctr, nextId := s.confQueue, s.revertQueue, s.triggers, s.timeouts, s.ctr, s.nextId;
    }

    /** Registers a listener. `done` and `more` are its own check of the current head. */
    method OnHeadChanged(confidence: nat, timeout: int, done: bool, more: bool) returns (id: TriggerId)
      requires Valid()
      modifies this`confQueue, this`revertQueue, this`triggers, this`timeouts, this`ctr, this`nextId
      ensures Valid() && (CaughtUp() <==> old(CaughtUp())) && (InStep() <==> old(InStep()))
      ensures NewListener(old(S()), S(), id, confidence, if done then NO_TIMEOUT else timeout, more)
    {
      var s;
      s, id := Register(S(), confidence, timeout, done, more, book);
      SamePassed(V(), Of(s, book), 0, lastTs.height);
      Store(s);
    }

    /** Reverts are newest first and start at the head; applied tipsets are oldest
        first and continue the chain. */
    method ProcessHeadChangeEvent(rev: seq<TipSet>, app: seq<TipSet>, checks: seq<Checks>) returns (ok: bool)
      requires Valid()
      requires |rev| < |book.chain| && rev == book.chain[..|rev|]
      requires Rising(book.chain[|rev|].height, app)
      requires |checks| == |app| && AllKnown(checks, triggers)
      modifies this
      ensures Valid() && book.chain == Extend(old(book).chain[|rev|..], app)
      ensures Processed(old(V()), old(nextId), old(lastTs), V(), nextId, lastTs, ok, old(book).chain[|rev|].height, rev, app, checks)
      ensures old(CaughtUp()) && Safe(old(lastTs), rev, app, checks) ==> CaughtUp()
      ensures old(InStep()) && ok ==> InStep()
    {
      var s, last;
      ghost var b;
      s, last, ok, b := ProcessHeadChange(S(), lastTs, rev, app, checks, book);
      Store(s);
      if Level(book.chain, lastTs) && AllRead(checks) {
        StaysLevel(book.chain, lastTs, rev, app, checks);
      }
      lastTs, book := last, b;
      assert V() == Of(s, b);
    }
  }
}
