/** The queue of confidence-delayed events (chain/events/events_called.go) and the
    proof's record of a run.

    An event seen in a tipset is queued under the height at which it has enough
    confidence. Its handler may run once the chain reaches that height, and is
    undone when a reorg drops the tipset. `Book` records the chain the component
    has been told about and the history of every event that was ever queued. */
module EventQueue {
  import opened Wrappers
  import opened Chain

  const NO_HEIGHT: int := -1
  const NO_TIMEOUT: int := 0x7fff_ffff_ffff_ffff

  type TriggerId = nat
  type Data = int

  datatype HandlerInfo = HandlerInfo(confidence: nat, timeout: int, disabled: bool)

  /** The queue holds pointers to events; `id` is the identity of the object. */
  datatype Event = Event(id: nat, trigger: TriggerId, prevH: int, h: int, data: Data, called: bool)

  /** [trigger height][event height] */
  type Queue = map<int, map<int, seq<Event>>>

  type Triggers = map<TriggerId, HandlerInfo>

  /** [event height] lists trigger heights */
  type Reverts = map<int, seq<int>>

  /** [timeout height][listener] counts deliveries */
  type Timeouts = map<int, map<TriggerId, int>>

  function EventsAt(q: Queue, t: int, h: int): seq<Event> {
    if t in q && h in q[t] then q[t][h] else []
  }

  function WithEvents(q: Queue, t: int, h: int, s: seq<Event>): Queue {
    q[t := (if t in q then q[t] else map[])[h := s]]
  }

  function WithoutEvents(q: Queue, t: int, h: int): Queue {
    if t in q then q[t := q[t] - {h}] else q
  }

  function MarkCalled(q: Queue, t: int, h: int, i: int): Queue
    requires 0 <= i < |EventsAt(q, t, h)|
  {
    var s := EventsAt(q, t, h);
    WithEvents(q, t, h, s[i := s[i].(called := true)])
  }

  /** What the world says when an event is due: whether the previous tipset is found,
      and whether its handler fails or wants more events. */
  datatype Answer = Answer(found: bool, failed: bool, more: bool)

  // ----- the record of a run ---------------------------------------------

  datatype Outcome =
    | Disabled(at: int)                        // the listener does not want more
    | Missing(at: int)                         // the previous tipset was not found
    | Failed(at: int, chain: seq<TipSet>)      // the handler ran and returned an error
    | Delivered(at: int, chain: seq<TipSet>)   // the handler ran and succeeded
    | Reverted(cause: TipSet)                  // the revert handler ran

  /** Where an event was queued, and for which listener. */
  datatype Place = Place(due: int, h: int, i: int, listener: TriggerId)

  datatype Book = Book(chain: seq<TipSet>, seen: map<nat, TipSet>, place: map<nat, Place>,
                       history: map<nat, seq<Outcome>>, next: nat)

  /** A handler only ever runs at the event's due height, on a chain that has
      reached it and still holds the event's tipset. */
  ghost predicate Proper(o: Outcome, due: int, ts: TipSet) {
    match o
    case Disabled(at) => at == due
    case Missing(at) => at == due
    case Failed(at, chain) => at == due && chain != [] && chain[0].height >= due && ts in chain
    case Delivered(at, chain) => at == due && chain != [] && chain[0].height >= due && ts in chain
    case Reverted(cause) => cause == ts
  }

  /** Some unsuccessful attempts, then perhaps one success, then perhaps one revert. */
  ghost predicate GoodHistory(hist: seq<Outcome>, due: int, ts: TipSet) {
    && (forall k :: 0 <= k < |hist| ==> Proper(hist[k], due, ts))
    && (forall k :: 0 <= k < |hist| && hist[k].Delivered? ==>
          k == |hist| - 1 || (k == |hist| - 2 && hist[|hist| - 1].Reverted?))
    && (forall k :: 0 <= k < |hist| && hist[k].Reverted? ==> k == |hist| - 1 && k > 0 && hist[|hist| - 2].Delivered?)
  }

  /** What a good history promises: the handler succeeds at most once, the revert
      handler runs at most once and only after that success, and nothing follows. */
  lemma HistoryMeaning(hist: seq<Outcome>, due: int, ts: TipSet, i: nat, j: nat)
    requires GoodHistory(hist, due, ts) && i < |hist| && j < |hist|
    ensures hist[i].Delivered? && hist[j].Delivered? ==> i == j
    ensures hist[i].Reverted? && hist[j].Reverted? ==> i == j
    ensures hist[i].Delivered? && hist[j].Reverted? ==> j == i + 1 == |hist| - 1
    ensures hist[j].Reverted? ==> j > 0 && hist[j - 1].Delivered? && hist[j].cause == ts
    ensures hist[i].Delivered? || hist[i].Failed? ==>
      hist[i].at == due <= hist[i].chain[0].height && ts in hist[i].chain
  {
    assert hist[i].Delivered? ==> i == |hist| - 1 || (i == |hist| - 2 && hist[|hist| - 1].Reverted?);
  }

  ghost predicate LastDelivered(hist: seq<Outcome>) {
    hist != [] && hist[|hist| - 1].Delivered?
  }

  ghost predicate NeverDelivered(hist: seq<Outcome>) {
    forall k :: 0 <= k < |hist| ==> hist[k].Disabled? || hist[k].Missing? || hist[k].Failed?
  }

  /** Everything a queued event is tied to. */
  ghost predicate Live(e: Event, t: int, h: int, i: int, triggers: Triggers,
                       revertQueue: Reverts, book: Book) {
    && e.id in book.place && book.place[e.id] == Place(t, h, i, e.trigger)
    && e.id in book.seen && book.seen[e.id] in book.chain && book.seen[e.id].height == h == e.h
    && e.trigger in triggers && t == h + triggers[e.trigger].confidence
    && h in revertQueue && t in revertQueue[h]
    && e.id in book.history
    && (if e.called then LastDelivered(book.history[e.id]) else NeverDelivered(book.history[e.id]))
  }

  ghost predicate BookOk(book: Book) {
    && book.chain != [] && Falling(book.chain)
    && (forall id: nat :: id in book.history <==> id < book.next)
    && (forall id: nat :: id in book.seen <==> id < book.next)
    && (forall id: nat :: id in book.place <==> id < book.next)
    && (forall id :: id in book.history ==> GoodHistory(book.history[id], book.place[id].due, book.seen[id]))
  }

  ghost predicate AllLive(q: Queue, triggers: Triggers, revertQueue: Reverts, book: Book) {
    forall t, h, i :: LiveAt(q, triggers, revertQueue, book, t, h, i)
  }

  ghost predicate LiveAt(q: Queue, triggers: Triggers, revertQueue: Reverts, book: Book, t: int, h: int, i: int) {
    0 <= i < |EventsAt(q, t, h)| ==> Live(EventsAt(q, t, h)[i], t, h, i, triggers, revertQueue, book)
  }

  /** Every event ever queued is due its listener's confidence after the tipset it was seen in. */
  ghost predicate Punctual(book: Book, triggers: Triggers) {
    && (forall id :: id in book.place ==> id in book.seen && book.place[id].listener in triggers)
    && (forall id :: id in book.place ==>
          book.place[id].h == book.seen[id].height && book.place[id].due == book.place[id].h + triggers[book.place[id].listener].confidence)
  }

  lemma StaysPunctual(book: Book, book': Book, triggers: Triggers)
    requires Punctual(book, triggers) && book'.seen == book.seen && book'.place == book.place
    ensures Punctual(book', triggers)
  {
  }

  /** The chain after applying tipsets, oldest first. */
  ghost function Extend(chain: seq<TipSet>, app: seq<TipSet>): seq<TipSet>
    decreases |app|
  {
    if app == [] then chain else Extend([app[0]] + chain, app[1..])
  }

  ghost predicate Rising(h: int, app: seq<TipSet>)
    decreases |app|
  {
    app != [] ==> h < app[0].height && Rising(app[0].height, app[1..])
  }

  lemma {:induction false} ExtendShape(chain: seq<TipSet>, app: seq<TipSet>)
    requires chain != [] && Falling(chain) && Rising(chain[0].height, app)
    ensures var e := Extend(chain, app);
      e != [] && Falling(e) && (forall ts :: ts in chain ==> ts in e) && e[0].height >= chain[0].height
    decreases |app|
  {
    if app != [] {
      var longer := [app[0]] + chain;
      assert forall ts :: ts in chain ==> ts in longer;
      ExtendShape(longer, app[1..]);
    }
  }

  lemma {:induction false} ExtendHead(chain: seq<TipSet>, app: seq<TipSet>)
    requires app != []
    ensures Extend(chain, app) != [] && Extend(chain, app)[0] == app[|app| - 1]
    decreases |app|
  {
    if |app| > 1 {
      ExtendHead([app[0]] + chain, app[1..]);
    }
  }

  // ----- one step at a time ----------------------------------------------

  ghost function Record(book: Book, id: nat, o: Outcome): Book {
    if id in book.history then book.(history := book.history[id := book.history[id] + [o]]) else book
  }

  lemma RecordKeepsBook(book: Book, id: nat, o: Outcome)
    requires BookOk(book) && id in book.history
    requires Proper(o, book.place[id].due, book.seen[id])
    requires o.Reverted? ==> LastDelivered(book.history[id])
    requires !o.Reverted? ==> NeverDelivered(book.history[id])
    ensures BookOk(Record(book, id, o))
  {
    var hist := book.history[id];
    if o.Reverted? {
      forall k | 0 <= k < |hist| && hist[k].Delivered?
        ensures k == |hist| - 1
      {
        HistoryMeaning(hist, book.place[id].due, book.seen[id], k, |hist| - 1);
      }
      forall k | 0 <= k < |hist|
        ensures !hist[k].Reverted?
      {
        HistoryMeaning(hist, book.place[id].due, book.seen[id], |hist| - 1, k);
      }
    }
    assert GoodHistory(hist + [o], book.place[id].due, book.seen[id]);
  }

  /** An attempt touches one event: its outcome is recorded and, on success, it is marked called. */
  lemma AttemptKeepsLive(q: Queue, triggers: Triggers, revertQueue: Reverts, book: Book,
                         t: int, h: int, i: int, o: Outcome)
    requires AllLive(q, triggers, revertQueue, book)
    requires 0 <= i < |EventsAt(q, t, h)| && !EventsAt(q, t, h)[i].called
    requires !o.Reverted?
    ensures var s := EventsAt(q, t, h);
      var q' := if o.Delivered? then MarkCalled(q, t, h, i) else q;
      s[i].id in book.history && AllLive(q', triggers, revertQueue, Record(book, s[i].id, o))
  {
    var s := EventsAt(q, t, h);
    var q' := if o.Delivered? then MarkCalled(q, t, h, i) else q;
    assert LiveAt(q, triggers, revertQueue, book, t, h, i);
    var book' := Record(book, s[i].id, o);
    forall t2, h2, i2 | 0 <= i2 < |EventsAt(q', t2, h2)|
      ensures LiveAt(q', triggers, revertQueue, book', t2, h2, i2)
    {
      assert |EventsAt(q, t2, h2)| == |EventsAt(q', t2, h2)|;
      assert LiveAt(q, triggers, revertQueue, book, t2, h2, i2);
    }
  }

  ghost predicate LiveExcept(q: Queue, triggers: Triggers, revertQueue: Reverts, book: Book,
                             t0: int, h0: int, n: int) {
    forall t, h, i :: !(t == t0 && h == h0 && i < n) ==>
      LiveAt(q, triggers, revertQueue, book, t, h, i)
  }

  ghost predicate SameButHistory(book: Book, was: Book) {
    && book.chain == was.chain && book.seen == was.seen && book.place == was.place && book.next == was.next
    && book.history.Keys == was.history.Keys
    && (forall id :: id in was.history ==> was.history[id] <= book.history[id])
  }

  /** Only events of tipsets at this height have a longer history. */
  ghost predicate SameElsewhere(book: Book, was: Book, h: int) {
    && SameButHistory(book, was)
    && (forall id :: id in was.history && id in was.place && was.place[id].h != h ==> book.history[id] == was.history[id])
  }

  ghost predicate WasReverted(book: Book, id: nat, ts: TipSet) {
    id in book.history && Reverted(ts) in book.history[id]
  }

  lemma RecordGrows(book: Book, id: nat, o: Outcome)
    requires id in book.history
    ensures SameButHistory(Record(book, id, o), book) && o in Record(book, id, o).history[id]
  {
    var hist := Record(book, id, o).history[id];
    assert hist[|hist| - 1] == o;
  }

  lemma StaysReverted(was: Book, book: Book, id: nat, ts: TipSet)
    requires SameButHistory(book, was) && WasReverted(was, id, ts)
    ensures WasReverted(book, id, ts)
  {
    var k :| 0 <= k < |was.history[id]| && was.history[id][k] == Reverted(ts);
    assert book.history[id][k] == Reverted(ts);
  }

  lemma SameButHistoryTransitive(a: Book, b: Book, c: Book)
    requires SameButHistory(b, a) && SameButHistory(c, b)
    ensures SameButHistory(c, a)
  {
    assert forall id :: id in a.history ==> id in b.history && a.history[id] <= b.history[id] <= c.history[id];
  }

  lemma SameElsewhereTransitive(a: Book, b: Book, c: Book, h: int)
    requires SameElsewhere(b, a, h) && SameElsewhere(c, b, h)
    ensures SameElsewhere(c, a, h)
  {
    SameButHistoryTransitive(a, b, c);
  }

  lemma ForgetKeepsLive(q: Queue, triggers: Triggers, revertQueue: Reverts, book: Book, t: int, h: int)
    requires LiveExcept(q, triggers, revertQueue, book, t, h, |EventsAt(q, t, h)|)
    ensures AllLive(WithoutEvents(q, t, h), triggers, revertQueue, book)
    ensures EventsAt(WithoutEvents(q, t, h), t, h) == []
    ensures forall t2, h2 :: t2 != t || h2 != h ==> EventsAt(WithoutEvents(q, t, h), t2, h2) == EventsAt(q, t2, h2)
  {
    var q' := WithoutEvents(q, t, h);
    forall t2, h2, i | 0 <= i < |EventsAt(q', t2, h2)|
      ensures LiveAt(q', triggers, revertQueue, book, t2, h2, i)
    {
      assert EventsAt(q', t2, h2) == EventsAt(q, t2, h2);
      assert LiveAt(q, triggers, revertQueue, book, t2, h2, i);
    }
  }

  lemma RevertKeepsLive(q: Queue, triggers: Triggers, revertQueue: Reverts, book: Book,
                        t: int, j: int, ts: TipSet)
    requires BookOk(book) && ts in book.chain
    requires LiveExcept(q, triggers, revertQueue, book, t, ts.height, j)
    requires 0 <= j < |EventsAt(q, t, ts.height)| && EventsAt(q, t, ts.height)[j].called
    ensures var id := EventsAt(q, t, ts.height)[j].id;
      && id in book.history && BookOk(Record(book, id, Reverted(ts)))
      && LiveExcept(q, triggers, revertQueue, Record(book, id, Reverted(ts)), t, ts.height, j + 1)
      && SameElsewhere(Record(book, id, Reverted(ts)), book, ts.height)
  {
    var e := EventsAt(q, t, ts.height)[j];
    assert LiveAt(q, triggers, revertQueue, book, t, ts.height, j);
    OneTipSetPerHeight(book.chain, ts, book.seen[e.id]);
    RecordKeepsBook(book, e.id, Reverted(ts));
    RecordGrows(book, e.id, Reverted(ts));
    var book' := Record(book, e.id, Reverted(ts));
    forall t2, h2, i2 | 0 <= i2 < |EventsAt(q, t2, h2)| && !(t2 == t && h2 == ts.height && i2 < j + 1)
      ensures LiveAt(q, triggers, revertQueue, book', t2, h2, i2)
    {
      assert LiveAt(q, triggers, revertQueue, book, t2, h2, i2);
    }
  }

  lemma OneTipSetPerHeight(chain: seq<TipSet>, a: TipSet, b: TipSet)
    requires Falling(chain) && a in chain && b in chain && a.height == b.height
    ensures a == b
  {
    var i :| 0 <= i < |chain| && chain[i] == a;
    var j :| 0 <= j < |chain| && chain[j] == b;
    assert !(i < j) && !(j < i);
  }

  ghost function Enter(book: Book, ts: TipSet, place: Place): Book {
    book.(seen := book.seen[book.next := ts], place := book.place[book.next := place],
          history := book.history[book.next := []], next := book.next + 1)
  }

  lemma EnterKeepsBook(book: Book, ts: TipSet, place: Place)
    requires BookOk(book)
    ensures BookOk(Enter(book, ts, place))
  {
    var book' := Enter(book, ts, place);
    forall id | id in book'.history
      ensures GoodHistory(book'.history[id], book'.place[id].due, book'.seen[id])
    {
      assert id != book.next ==> GoodHistory(book.history[id], book.place[id].due, book.seen[id]);
    }
  }

  lemma EnterKeepsEvent(e: Event, t: int, h: int, i: int, triggers: Triggers,
                        revertQueue: Reverts, book: Book, ts: TipSet, place: Place)
    requires BookOk(book) && Live(e, t, h, i, triggers, revertQueue, book)
    ensures Live(e, t, h, i, triggers, Remember(revertQueue, place.h, place.due), Enter(book, ts, place))
  {
    assert e.id != book.next;
    var r := Remember(revertQueue, place.h, place.due);
    assert h in r && t in r[h] by {
      if h == place.h {
        var k :| 0 <= k < |revertQueue[h]| && revertQueue[h][k] == t;
        assert r[h][k] == t;
      }
    }
  }

  function Remember(revertQueue: Reverts, h: int, t: int): Reverts {
    revertQueue[h := (if h in revertQueue then revertQueue[h] else []) + [t]]
  }

  lemma WithEventsAt(q: Queue, t: int, h: int, s: seq<Event>, t2: int, h2: int)
    ensures EventsAt(WithEvents(q, t, h, s), t2, h2) == if t2 == t && h2 == h then s else EventsAt(q, t2, h2)
  {
  }

  lemma NewEventLive(e: Event, t: int, h: int, i: int, triggers: Triggers,
                     revertQueue: Reverts, book: Book, ts: TipSet)
    requires BookOk(book) && ts in book.chain && h == ts.height == e.h && !e.called && e.id == book.next
    requires e.trigger in triggers && t == h + triggers[e.trigger].confidence
    ensures Live(e, t, h, i, triggers, Remember(revertQueue, h, t), Enter(book, ts, Place(t, h, i, e.trigger)))
  {
    var r := Remember(revertQueue, h, t);
    assert r[h][|r[h]| - 1] == t;
  }

  /** Queueing an event of the head: every other event stays where and what it was. */
  lemma QueueKeepsLive(q: Queue, triggers: Triggers, revertQueue: Reverts, book: Book,
                       t: int, e: Event, ts: TipSet)
    requires BookOk(book) && AllLive(q, triggers, revertQueue, book)
    requires ts in book.chain && e.h == ts.height && !e.called && e.id == book.next
    requires e.trigger in triggers && t == e.h + triggers[e.trigger].confidence
    ensures var s := EventsAt(q, t, e.h);
      AllLive(WithEvents(q, t, e.h, s + [e]), triggers, Remember(revertQueue, e.h, t), Enter(book, ts, Place(t, e.h, |s|, e.trigger)))
  {
    var s := EventsAt(q, t, e.h);
    var q', r', book' := WithEvents(q, t, e.h, s + [e]), Remember(revertQueue, e.h, t), Enter(book, ts, Place(t, e.h, |s|, e.trigger));
    forall t2, h2, i | 0 <= i < |EventsAt(q', t2, h2)|
      ensures LiveAt(q', triggers, r', book', t2, h2, i)
    {
      WithEventsAt(q, t, e.h, s + [e], t2, h2);
      if i < |EventsAt(q, t2, h2)| {
        assert LiveAt(q, triggers, revertQueue, book, t2, h2, i);
        EnterKeepsEvent(EventsAt(q, t2, h2)[i], t2, h2, i, triggers, revertQueue, book, ts, Place(t, e.h, |s|, e.trigger));
      } else {
        NewEventLive(e, t, e.h, |s|, triggers, revertQueue, book, ts);
      }
    }
  }

  /** The book after running the revert handler of every delivered event of the list. */
  ghost function RevertAll(book: Book, events: seq<Event>, ts: TipSet): (r: Book)
    ensures r.history.Keys == book.history.Keys
    decreases |events|
  {
    if events == [] then book else
    var r := RevertAll(book, events[..|events| - 1], ts);
    var e := events[|events| - 1];
    if e.called then Record(r, e.id, Reverted(ts)) else r
  }

  lemma RevertAllStep(book: Book, s: seq<Event>, ts: TipSet, n: nat)
    requires n < |s|
    ensures var r := RevertAll(book, s[..n], ts);
      RevertAll(book, s[..n + 1], ts) == if s[n].called then Record(r, s[n].id, Reverted(ts)) else r
  {
    assert s[..n + 1][..n] == s[..n];
  }

  lemma {:induction false} RevertAllKeeps(q: Queue, triggers: Triggers, revertQueue: Reverts, book: Book, t: int, ts: TipSet, n: nat)
    requires BookOk(book) && AllLive(q, triggers, revertQueue, book) && ts in book.chain
    requires n <= |EventsAt(q, t, ts.height)|
    ensures RevertedTo(q, triggers, revertQueue, book, RevertAll(book, EventsAt(q, t, ts.height)[..n], ts), t, ts, n)
  {
    var s := EventsAt(q, t, ts.height);
    if n == 0 {
      RevertNone(q, triggers, revertQueue, book, t, ts);
    } else {
      RevertAllKeeps(q, triggers, revertQueue, book, t, ts, n - 1);
      RevertAllStep(book, s, ts, n - 1);
      RevertOne(q, triggers, revertQueue, book, RevertAll(book, s[..n - 1], ts), t, ts, n - 1, RevertAll(book, s[..n], ts));
    }
  }

  ghost predicate RevertedTo(q: Queue, triggers: Triggers, revertQueue: Reverts, was: Book, book: Book, t: int, ts: TipSet, n: int) {
    && BookOk(book) && SameElsewhere(book, was, ts.height)
    && LiveExcept(q, triggers, revertQueue, book, t, ts.height, n)
  }

  lemma RevertNone(q: Queue, triggers: Triggers, revertQueue: Reverts, book: Book, t: int, ts: TipSet)
    requires BookOk(book) && AllLive(q, triggers, revertQueue, book)
    ensures RevertedTo(q, triggers, revertQueue, book, book, t, ts, 0)
  {
  }

  lemma RevertOne(q: Queue, triggers: Triggers, revertQueue: Reverts, was: Book, book: Book, t: int, ts: TipSet, j: int, after: Book)
    requires RevertedTo(q, triggers, revertQueue, was, book, t, ts, j) && ts in book.chain
    requires 0 <= j < |EventsAt(q, t, ts.height)|
    requires var e := EventsAt(q, t, ts.height)[j]; after == if e.called then Record(book, e.id, Reverted(ts)) else book
    ensures RevertedTo(q, triggers, revertQueue, was, after, t, ts, j + 1)
  {
    if EventsAt(q, t, ts.height)[j].called {
      RevertKeepsLive(q, triggers, revertQueue, book, t, j, ts);
      SameElsewhereTransitive(was, book, after, ts.height);
    }
  }

  lemma IdsKnown(q: Queue, triggers: Triggers, revertQueue: Reverts, book: Book, t: int, h: int)
    requires AllLive(q, triggers, revertQueue, book)
    ensures forall e :: e in EventsAt(q, t, h) ==> e.id in book.history
  {
    forall e | e in EventsAt(q, t, h)
      ensures e.id in book.history
    {
      var k :| 0 <= k < |EventsAt(q, t, h)| && EventsAt(q, t, h)[k] == e;
      assert LiveAt(q, triggers, revertQueue, book, t, h, k);
    }
  }

  /** Every delivered event of the list has its revert handler run. */
  lemma {:induction false} RevertAllReaches(book: Book, events: seq<Event>, ts: TipSet, k: nat)
    requires forall e :: e in events ==> e.id in book.history
    requires k < |events| && events[k].called
    ensures WasReverted(RevertAll(book, events, ts), events[k].id, ts)
    decreases |events|
  {
    var n := |events| - 1;
    var r := RevertAll(book, events[..n], ts);
    if events[n].called {
      RecordGrows(r, events[n].id, Reverted(ts));
    }
    if k < n {
      RevertAllReaches(book, events[..n], ts, k);
      if events[n].called {
        StaysReverted(r, Record(r, events[n].id, Reverted(ts)), events[k].id, ts);
      }
    }
  }

  /** After the listed trigger heights were handled: their events at this height are
      gone and the delivered ones undone; all other events are as before. */
  ghost predicate Dropped(before: Queue, q: Queue, book: Book, ts: TipSet, handled: seq<int>) {
    Gone(before, q, ts.height, handled) && Undone(before, book, ts, handled)
  }

  ghost predicate Gone(before: Queue, q: Queue, h0: int, handled: seq<int>) {
    forall t, h :: EventsAt(q, t, h) == if h == h0 && t in handled then [] else EventsAt(before, t, h)
  }

  ghost predicate Undone(before: Queue, book: Book, ts: TipSet, handled: seq<int>) {
    forall t, i :: t in handled && 0 <= i < |EventsAt(before, t, ts.height)| && EventsAt(before, t, ts.height)[i].called ==>
      WasReverted(book, EventsAt(before, t, ts.height)[i].id, ts)
  }

  lemma GoneStep(before: Queue, q: Queue, h0: int, handled: seq<int>, t: int)
    requires Gone(before, q, h0, handled)
    ensures Gone(before, WithoutEvents(q, t, h0), h0, handled + [t])
  {
    var q' := WithoutEvents(q, t, h0);
    forall t2, h
      ensures EventsAt(q', t2, h) == if h == h0 && t2 in handled + [t] then [] else EventsAt(before, t2, h)
    {
      assert t2 in handled + [t] <==> t2 in handled || t2 == t;
      assert EventsAt(q', t2, h) == if t2 == t && h == h0 then [] else EventsAt(q, t2, h);
    }
  }

  lemma UndoneStep(before: Queue, q: Queue, book: Book, ts: TipSet, handled: seq<int>, t: int)
    requires Gone(before, q, ts.height, handled) && Undone(before, book, ts, handled)
    requires forall e :: e in EventsAt(q, t, ts.height) ==> e.id in book.history
    requires SameButHistory(RevertAll(book, EventsAt(q, t, ts.height), ts), book)
    ensures Undone(before, RevertAll(book, EventsAt(q, t, ts.height), ts), ts, handled + [t])
  {
    var book' := RevertAll(book, EventsAt(q, t, ts.height), ts);
    forall t2, i | t2 in handled + [t] && 0 <= i < |EventsAt(before, t2, ts.height)| && EventsAt(before, t2, ts.height)[i].called
      ensures WasReverted(book', EventsAt(before, t2, ts.height)[i].id, ts)
    {
      if t2 in handled {
        StaysReverted(book, book', EventsAt(before, t2, ts.height)[i].id, ts);
      } else {
        RevertAllReaches(book, EventsAt(q, t, ts.height), ts, i);
      }
    }
  }

  lemma RevertStep(before: Queue, q: Queue, triggers: Triggers, revertQueue: Reverts,
                   first: Book, book: Book, ts: TipSet, handled: seq<int>, t: int)
    requires BookOk(book) && AllLive(q, triggers, revertQueue, book) && ts in book.chain
    requires SameElsewhere(book, first, ts.height) && Dropped(before, q, book, ts, handled)
    ensures var s := EventsAt(q, t, ts.height);
      && (forall e :: e in s ==> e.id in book.history)
      && var (q', book') := (WithoutEvents(q, t, ts.height), RevertAll(book, s, ts));
         && BookOk(book') && AllLive(q', triggers, revertQueue, book') && SameElsewhere(book', first, ts.height)
         && Dropped(before, q', book', ts, handled + [t])
  {
    var s := EventsAt(q, t, ts.height);
    RevertAllKeeps(q, triggers, revertQueue, book, t, ts, |s|);
    IdsKnown(q, triggers, revertQueue, book, t, ts.height);
    assert s[..|s|] == s;
    SameElsewhereTransitive(first, book, RevertAll(book, s, ts), ts.height);
    ForgetKeepsLive(q, triggers, revertQueue, RevertAll(book, s, ts), t, ts.height);
    GoneStep(before, q, ts.height, handled, t);
    UndoneStep(before, q, book, ts, handled, t);
  }

  /** The revert queue of a height lists every trigger height with events of that height. */
  lemma NothingLeft(q: Queue, triggers: Triggers, revertQueue: Reverts, book: Book, h: int, handled: seq<int>)
    requires AllLive(q, triggers, revertQueue, book)
    requires h in revertQueue ==> handled == revertQueue[h]
    ensures forall t :: EventsAt(q, t, h) != [] ==> t in handled
  {
    forall t | EventsAt(q, t, h) != []
      ensures t in handled
    {
      assert |EventsAt(q, t, h)| > 0 ==> LiveAt(q, triggers, revertQueue, book, t, h, 0);
    }
  }

  /** The queue and the book after the events of this height are undone and
      forgotten, one trigger height after another. */
  ghost function Sweep(q: Queue, book: Book, ts: TipSet, reverts: seq<int>): (Queue, Book)
    decreases |reverts|
  {
    if reverts == [] then (q, book) else
    var (q', book') := Sweep(q, book, ts, reverts[..|reverts| - 1]);
    var t := reverts[|reverts| - 1];
    (WithoutEvents(q', t, ts.height), RevertAll(book', EventsAt(q', t, ts.height), ts))
  }

  lemma {:induction false} SweepPrefix(q: Queue, triggers: Triggers, revertQueue: Reverts, book: Book,
                                       ts: TipSet, reverts: seq<int>)
    requires BookOk(book) && AllLive(q, triggers, revertQueue, book) && ts in book.chain
    ensures var (q', book') := Sweep(q, book, ts, reverts);
      && BookOk(book') && AllLive(q', triggers, revertQueue, book') && SameElsewhere(book', book, ts.height)
      && Dropped(q, q', book', ts, reverts)
    decreases |reverts|
  {
    if reverts != [] {
      var n := |reverts| - 1;
      SweepPrefix(q, triggers, revertQueue, book, ts, reverts[..n]);
      var (q', book') := Sweep(q, book, ts, reverts[..n]);
      RevertStep(q, q', triggers, revertQueue, book, book', ts, reverts[..n], reverts[n]);
      assert reverts[..n] + [reverts[n]] == reverts;
    }
  }

  lemma SweepKeeps(q: Queue, triggers: Triggers, revertQueue: Reverts, book: Book, ts: TipSet)
    requires BookOk(book) && AllLive(q, triggers, revertQueue, book) && ts in book.chain
    ensures var (q', book') := Sweep(q, book, ts, if ts.height in revertQueue then revertQueue[ts.height] else []);
      && BookOk(book') && AllLive(q', triggers, revertQueue - {ts.height}, book') && SameElsewhere(book', book, ts.height)
      && AllDropped(q, q', book', ts)
  {
    var reverts := if ts.height in revertQueue then revertQueue[ts.height] else [];
    var (q', book') := Sweep(q, book, ts, reverts);
    SweepPrefix(q, triggers, revertQueue, book, ts, reverts);
    NothingLeft(q, triggers, revertQueue, book, ts.height, reverts);
    NothingLeft(q', triggers, revertQueue, book', ts.height, reverts);
    ForgetHeight(q', triggers, revertQueue, book', ts.height);
  }

  /** All events of this height are gone and the delivered ones undone. */
  ghost predicate AllDropped(before: Queue, q: Queue, book: Book, ts: TipSet) {
    && (forall t :: EventsAt(q, t, ts.height) == [])
    && (forall t, h :: h != ts.height ==> EventsAt(q, t, h) == EventsAt(before, t, h))
    && (forall t, i :: 0 <= i < |EventsAt(before, t, ts.height)| && EventsAt(before, t, ts.height)[i].called ==>
          WasReverted(book, EventsAt(before, t, ts.height)[i].id, ts))
  }

  lemma ForgetHeight(q: Queue, triggers: Triggers, revertQueue: Reverts, book: Book, h: int)
    requires AllLive(q, triggers, revertQueue, book)
    requires forall t :: EventsAt(q, t, h) == []
    ensures AllLive(q, triggers, revertQueue - {h}, book)
  {
    forall t, h2, i | 0 <= i < |EventsAt(q, t, h2)|
      ensures LiveAt(q, triggers, revertQueue - {h}, book, t, h2, i)
    {
      assert LiveAt(q, triggers, revertQueue, book, t, h2, i);
      assert h2 != h;
    }
  }

  /** Listeners come and go only as enabled or disabled. */
  ghost predicate SameTriggers(was: Triggers, now: Triggers) {
    && now.Keys == was.Keys
    && (forall id :: id in was ==> now[id].confidence == was[id].confidence && now[id].timeout == was[id].timeout)
    && (forall id :: id in was && was[id].disabled ==> now[id].disabled)
  }

  lemma DisableKeepsLive(q: Queue, triggers: Triggers, revertQueue: Reverts, book: Book,
                         id: TriggerId, disabled: bool)
    requires AllLive(q, triggers, revertQueue, book) && id in triggers
    ensures AllLive(q, triggers[id := triggers[id].(disabled := disabled)], revertQueue, book)
  {
    var triggers' := triggers[id := triggers[id].(disabled := disabled)];
    forall t, h, i | 0 <= i < |EventsAt(q, t, h)|
      ensures LiveAt(q, triggers', revertQueue, book, t, h, i)
    {
      assert LiveAt(q, triggers, revertQueue, book, t, h, i);
    }
  }

  function Counted(calls: map<TriggerId, int>, id: TriggerId): map<TriggerId, int> {
    calls[id := (if id in calls then calls[id] else 0) + 1]
  }

  function CountedAt(timeouts: Timeouts, timeout: int, id: TriggerId): Timeouts {
    if timeout in timeouts then timeouts[timeout := Counted(timeouts[timeout], id)] else timeouts
  }

  lemma DisableSame(triggers: Triggers, id: TriggerId, disabled: bool)
    requires id in triggers && !triggers[id].disabled
    ensures SameTriggers(triggers, triggers[id := triggers[id].(disabled := disabled)])
  {
  }

  lemma CountKeeps(triggers: Triggers, timeouts: Timeouts, ctr: nat,
                   id: TriggerId, timeout: int, info: HandlerInfo)
    requires TriggersOk(triggers, timeouts, ctr) && id in triggers
    ensures TriggersOk(triggers[id := info], CountedAt(timeouts, timeout, id), ctr)
  {
  }

  ghost predicate TriggersOk(triggers: Triggers, timeouts: Timeouts, ctr: nat) {
    && (forall id :: id in triggers ==> id < ctr)
    && (forall t :: t in timeouts ==> timeouts[t].Keys <= triggers.Keys)
  }

  // ----- the chain under the queue ---------------------------------------

  /** The event at (t, h, i) does not mind the chain growing. */
  lemma GrowKeepsLive(q: Queue, triggers: Triggers, revertQueue: Reverts, book: Book, chain: seq<TipSet>)
    requires BookOk(book) && AllLive(q, triggers, revertQueue, book)
    requires chain != [] && Falling(chain) && forall ts :: ts in book.chain ==> ts in chain
    ensures BookOk(book.(chain := chain)) && AllLive(q, triggers, revertQueue, book.(chain := chain))
  {
    forall t, h, i | 0 <= i < |EventsAt(q, t, h)|
      ensures LiveAt(q, triggers, revertQueue, book.(chain := chain), t, h, i)
    {
      assert LiveAt(q, triggers, revertQueue, book, t, h, i);
    }
  }

  /** Once the events of the head are gone the head may go too. */
  lemma ShrinkKeepsLive(q: Queue, triggers: Triggers, revertQueue: Reverts, book: Book)
    requires BookOk(book) && AllLive(q, triggers, revertQueue, book) && |book.chain| > 1
    requires forall t :: EventsAt(q, t, book.chain[0].height) == []
    ensures BookOk(book.(chain := book.chain[1..])) && AllLive(q, triggers, revertQueue, book.(chain := book.chain[1..]))
  {
    var book' := book.(chain := book.chain[1..]);
    forall t, h, i | 0 <= i < |EventsAt(q, t, h)|
      ensures LiveAt(q, triggers, revertQueue, book', t, h, i)
    {
      var e := EventsAt(q, t, h)[i];
      assert LiveAt(q, triggers, revertQueue, book, t, h, i);
      var k :| 0 <= k < |book.chain| && book.chain[k] == book.seen[e.id];
      assert k > 0 && book.chain[1..][k - 1] == book.seen[e.id];
    }
  }
}
