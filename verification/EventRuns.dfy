/** How the event queue and its record change over a run (chain/events/events_called.go):
    what one offer does, what a pass over a height does, and how head changes relate
    the queue before to the queue after. */
module EventRuns {
  import opened Wrappers
  import opened Chain
  import opened EventQueue

  /** The parts of the component a head change can alter, with the record of the run. */
  datatype View = View(q: Queue, tr: Triggers, to: Timeouts, book: Book)

  ghost predicate Good(v: View, rq: Reverts) {
    BookOk(v.book) && AllLive(v.q, v.tr, rq, v.book) && Punctual(v.book, v.tr)
  }

  // ----- which events still wait -----------------------------------------

  /** The previous tipset was once not found, or the handler once failed. */
  ghost predicate Attempted(book: Book, id: nat) {
    id in book.history && exists k :: 0 <= k < |book.history[id]| && (book.history[id][k].Missing? || book.history[id][k].Failed?)
  }

  /** Not delivered, its listener is enabled, and no attempt was ever made. */
  ghost predicate Waiting(e: Event, tr: Triggers, book: Book) {
    !e.called && !(e.trigger in tr && tr[e.trigger].disabled) && !Attempted(book, e.id)
  }

  ghost predicate Waits(v: View, t: int, h: int, i: int) {
    0 <= i < |EventsAt(v.q, t, h)| && Waiting(EventsAt(v.q, t, h)[i], v.tr, v.book)
  }

  /** No waiting event is due below the bound: an undelivered event due there has a disabled
      listener, or a failed lookup or a failed handler in its history. */
  ghost predicate NonePassed(v: View, bound: int) {
    forall t, h, i :: Waits(v, t, h, i) ==> t >= bound
  }

  /** No waiting event is due in between. */
  ghost predicate Band(v: View, lo: int, hi: int) {
    forall t, h, i :: Waits(v, t, h, i) ==> t < lo || hi <= t
  }

  /** Of the events of tipsets up to this height, none waits below the bound. */
  ghost predicate NoneKeptPassed(v: View, h0: int, bound: int) {
    forall t, h, i :: h <= h0 && Waits(v, t, h, i) ==> t >= bound
  }

  lemma BandIsPassed(v: View, lo: int, hi: int)
    requires Band(v, lo, hi) && lo <= hi
    ensures NonePassed(v, hi) <==> NonePassed(v, lo)
  {
  }

  // ----- what stays over any stretch of a run ----------------------------

  ghost predicate Moved(e: Event, e2: Event) {
    e2 == e || e2 == e.(called := true)
  }

  /** Known events keep where and in which tipset they were seen; histories only grow. */
  ghost predicate Continues(was: Book, now: Book) {
    was.next <= now.next && forall id :: Recalls(was, now, id)
  }

  ghost predicate Recalls(was: Book, now: Book, id: nat) {
    && (id in was.seen ==> id in now.seen && now.seen[id] == was.seen[id])
    && (id in was.place ==> id in now.place && now.place[id] == was.place[id])
    && (id in was.history ==> id in now.history && was.history[id] <= now.history[id])
  }

  lemma ContinuesTransitive(a: Book, b: Book, c: Book)
    requires Continues(a, b) && Continues(b, c)
    ensures Continues(a, c)
  {
    forall id
      ensures Recalls(a, c, id)
    {
      assert Recalls(a, b, id) && Recalls(b, c, id);
    }
  }

  lemma SameButHistoryContinues(was: Book, now: Book)
    requires SameButHistory(now, was)
    ensures Continues(was, now)
  {
  }

  ghost function Hist(book: Book, id: nat): seq<Outcome> {
    if id in book.history then book.history[id] else []
  }

  /** Nothing happened to events due outside these heights. */
  ghost predicate QuietOutside(was: Book, now: Book, lo: int, hi: int) {
    forall id :: QuietId(was, now, lo, hi, id)
  }

  ghost predicate QuietId(was: Book, now: Book, lo: int, hi: int, id: nat) {
    id in now.place && (now.place[id].due < lo || hi < now.place[id].due) ==> Hist(now, id) == Hist(was, id)
  }

  /** A listener has been called for one of its events. */
  ghost predicate Heard(was: Book, now: Book, id: TriggerId) {
    exists e :: e in now.history && e in now.place && now.place[e].listener == id && Succeeded(now, e) && !Succeeded(was, e)
  }

  ghost predicate Succeeded(book: Book, e: nat) {
    e in book.history && exists k :: 0 <= k < |book.history[e]| && book.history[e][k].Delivered?
  }

  ghost predicate HasTimeout(to: Timeouts, id: TriggerId) {
    exists t :: t in to && id in to[t]
  }

  ghost predicate SameTimeouts(to: Timeouts, to': Timeouts) {
    to'.Keys == to.Keys && forall t :: t in to ==> to[t].Keys <= to'[t].Keys
  }

  /** A listener is only ever disabled after it was called, for an event or for its timeout. */
  ghost predicate Silenced(v: View, w: View) {
    forall id :: SilencedId(v, w, id)
  }

  ghost predicate SilencedId(v: View, w: View, id: TriggerId) {
    id in v.tr && id in w.tr && !v.tr[id].disabled && w.tr[id].disabled ==> HasTimeout(w.to, id) || Heard(v.book, w.book, id)
  }

  ghost predicate Listeners(v: View, w: View) {
    SameTriggers(v.tr, w.tr) && SameTimeouts(v.to, w.to) && Silenced(v, w)
  }

  lemma SucceededStays(was: Book, now: Book, e: nat)
    requires e in was.history ==> e in now.history && was.history[e] <= now.history[e]
    ensures Succeeded(was, e) ==> Succeeded(now, e)
  {
    if e in was.history {
      assert forall k :: 0 <= k < |was.history[e]| ==> now.history[e][k] == was.history[e][k];
    }
  }

  lemma HeardEarlier(a: Book, b: Book, c: Book, id: TriggerId)
    requires Continues(a, b) && Continues(b, c) && Heard(a, b, id)
    ensures Heard(a, c, id)
  {
    var e :| e in b.history && e in b.place && b.place[e].listener == id && Succeeded(b, e) && !Succeeded(a, e);
    assert Recalls(b, c, e);
    SucceededStays(b, c, e);
  }

  lemma HeardLater(a: Book, b: Book, c: Book, id: TriggerId)
    requires Continues(a, b) && Heard(b, c, id)
    ensures Heard(a, c, id)
  {
    var e :| e in c.history && e in c.place && c.place[e].listener == id && Succeeded(c, e) && !Succeeded(b, e);
    assert Recalls(a, b, e);
    SucceededStays(a, b, e);
  }

  lemma ListenersTransitive(u: View, v: View, w: View)
    requires Listeners(u, v) && Listeners(v, w)
    requires Continues(u.book, v.book) && Continues(v.book, w.book)
    ensures Listeners(u, w)
  {
    forall id
      ensures SilencedId(u, w, id)
    {
      assert SilencedId(u, v, id) && SilencedId(v, w, id);
      if Heard(u.book, v.book, id) {
        HeardEarlier(u.book, v.book, w.book, id);
      }
      if Heard(v.book, w.book, id) {
        HeardLater(u.book, v.book, w.book, id);
      }
      assert HasTimeout(v.to, id) ==> HasTimeout(w.to, id);
    }
  }

  /** Events stay in their places; `fixed` adds no company, `left` changes nothing. */
  ghost predicate ListForth(s: seq<Event>, s': seq<Event>, fixed: bool, left: bool) {
    && |s| <= |s'| && (fixed ==> |s'| == |s|) && (left ==> s' == s)
    && (forall i :: 0 <= i < |s| ==> Moved(s[i], s'[i]))
  }

  /** Every queued event stays in its place, events of tipsets up to `h0` get no company, and
      what is due below `lo` is left alone. */
  ghost predicate QueueForth(q: Queue, q': Queue, h0: int, lo: int) {
    forall t, h :: ForthAt(q, q', h0, lo, t, h)
  }

  ghost predicate ForthAt(q: Queue, q': Queue, h0: int, lo: int, t: int, h: int) {
    ListForth(EventsAt(q, t, h), EventsAt(q', t, h), h <= h0, t < lo)
  }

  /** From `v` to `w` no tipset was dropped, and handlers only ran for events due from `lo` to `hi`. */
  ghost predicate Forth(v: View, w: View, h0: int, lo: int, hi: int) {
    && Continues(v.book, w.book) && Listeners(v, w)
    && QueueForth(v.q, w.q, h0, lo)
    && QuietOutside(v.book, w.book, lo, hi)
  }

  lemma ForthRefl(v: View, h0: int, lo: int, hi: int)
    ensures Forth(v, v, h0, lo, hi)
  {
  }

  lemma ListForthTransitive(a: seq<Event>, b: seq<Event>, c: seq<Event>, fixed: bool, left: bool)
    requires ListForth(a, b, fixed, left) && ListForth(b, c, fixed, left)
    ensures ListForth(a, c, fixed, left)
  {
  }

  lemma QueueForthTransitive(a: Queue, b: Queue, c: Queue, h0: int, lo: int)
    requires QueueForth(a, b, h0, lo) && QueueForth(b, c, h0, lo)
    ensures QueueForth(a, c, h0, lo)
  {
    forall t, h
      ensures ForthAt(a, c, h0, lo, t, h)
    {
      assert ForthAt(a, b, h0, lo, t, h) && ForthAt(b, c, h0, lo, t, h);
      ListForthTransitive(EventsAt(a, t, h), EventsAt(b, t, h), EventsAt(c, t, h), h <= h0, t < lo);
    }
  }

  lemma QuietTransitive(a: Book, b: Book, c: Book, lo: int, hi: int)
    requires QuietOutside(a, b, lo, hi) && QuietOutside(b, c, lo, hi)
    requires Continues(a, b) && Continues(b, c) && BookOk(a) && BookOk(b)
    ensures QuietOutside(a, c, lo, hi)
  {
    forall id
      ensures QuietId(a, c, lo, hi, id)
    {
      assert QuietId(a, b, lo, hi, id) && QuietId(b, c, lo, hi, id) && Recalls(b, c, id);
    }
  }

  lemma ForthTransitive(u: View, v: View, w: View, h0: int, lo: int, hi: int)
    requires Forth(u, v, h0, lo, hi) && Forth(v, w, h0, lo, hi) && BookOk(u.book) && BookOk(v.book)
    ensures Forth(u, w, h0, lo, hi)
  {
    ContinuesTransitive(u.book, v.book, w.book);
    ListenersTransitive(u, v, w);
    QueueForthTransitive(u.q, v.q, w.q, h0, lo);
    QuietTransitive(u.book, v.book, w.book, lo, hi);
  }

  lemma ForthWider(v: View, w: View, h0: int, lo: int, hi: int, higher: int)
    requires Forth(v, w, h0, lo, hi) && hi <= higher
    ensures Forth(v, w, h0, lo, higher)
  {
    assert forall id :: QuietId(v.book, w.book, lo, hi, id) ==> QuietId(v.book, w.book, lo, higher, id);
  }

  lemma AttemptedStays(book: Book, book2: Book, id: nat)
    requires id in book.history && id in book2.history && book.history[id] <= book2.history[id]
    ensures Attempted(book, id) ==> Attempted(book2, id)
  {
    var (hist, hist2) := (book.history[id], book2.history[id]);
    assert forall k :: 0 <= k < |hist| ==> hist2[k] == hist[k];
  }

  /** Waiting is lost over a run and never regained. */
  lemma WaitsBefore(e: Event, tr: Triggers, book: Book, e2: Event, tr2: Triggers, book2: Book)
    requires Moved(e, e2) && SameTriggers(tr, tr2) && e.id in book.history
    requires e.id in book2.history && book.history[e.id] <= book2.history[e.id]
    requires Waiting(e2, tr2, book2)
    ensures Waiting(e, tr, book)
  {
    AttemptedStays(book, book2, e.id);
  }

  /** What is due below `lo` waits after exactly when it waited before, unless its listener
      was disabled. */
  lemma ForthPassed(v: View, w: View, rq: Reverts, h0: int, lo: int, hi: int)
    requires Forth(v, w, h0, lo, hi) && Good(v, rq)
    ensures NonePassed(w, lo) <==> NonePassed(v.(tr := w.tr), lo)
  {
    forall t, h, i | t < lo
      ensures Waits(w, t, h, i) <==> Waits(v.(tr := w.tr), t, h, i)
    {
      assert ForthAt(v.q, w.q, h0, lo, t, h);
      if 0 <= i < |EventsAt(v.q, t, h)| {
        var e := EventsAt(v.q, t, h)[i];
        assert LiveAt(v.q, v.tr, rq, v.book, t, h, i);
        assert Recalls(v.book, w.book, e.id) && QuietId(v.book, w.book, lo, hi, e.id);
        assert w.book.history[e.id] == v.book.history[e.id];
      }
    }
  }

  /** Disabling listeners makes fewer events wait. */
  lemma DisabledPassed(v: View, tr: Triggers, bound: int)
    requires SameTriggers(v.tr, tr) && NonePassed(v, bound)
    ensures NonePassed(v.(tr := tr), bound)
  {
    assert forall t, h, i :: Waits(v.(tr := tr), t, h, i) ==> Waits(v, t, h, i);
  }

  // ----- one offer -------------------------------------------------------

  /** What happens to an event that is due. */
  ghost function Verdict(e: Event, tr: Triggers, a: Answer, at: int, chain: seq<TipSet>): Outcome {
    if e.trigger in tr && tr[e.trigger].disabled then Disabled(at)
    else if e.prevH != NO_HEIGHT && !a.found then Missing(at)
    else if a.failed then Failed(at, chain)
    else Delivered(at, chain)
  }

  /** One queued event at its due height: nothing if it was delivered before; a delivery
      counts against the listener's timeout and disables the listener unless it wants more. */
  ghost function Attempt(v: View, at: int, h: int, i: int, a: Answer): View
    requires 0 <= i < |EventsAt(v.q, at, h)| && EventsAt(v.q, at, h)[i].trigger in v.tr
  {
    var e := EventsAt(v.q, at, h)[i];
    var o := Verdict(e, v.tr, a, at, v.book.chain);
    if e.called then v
    else if !o.Delivered? then v.(book := Record(v.book, e.id, o))
    else View(MarkCalled(v.q, at, h, i), Told(v.tr, e.trigger, a.more), CountedAt(v.to, v.tr[e.trigger].timeout, e.trigger),
              Record(v.book, e.id, o))
  }

  function Told(tr: Triggers, id: TriggerId, more: bool): Triggers
    requires id in tr
  {
    tr[id := tr[id].(disabled := !more)]
  }

  lemma KnownTrigger(q: Queue, tr: Triggers, rq: Reverts, book: Book, t: int, h: int, i: int)
    requires AllLive(q, tr, rq, book) && 0 <= i < |EventsAt(q, t, h)|
    ensures EventsAt(q, t, h)[i].trigger in tr
  {
    assert LiveAt(q, tr, rq, book, t, h, i);
  }

  lemma RecordStaysPunctual(book: Book, tr: Triggers, id: nat, o: Outcome)
    requires Punctual(book, tr)
    ensures Punctual(Record(book, id, o), tr)
  {
  }

  lemma AttemptKeepsGood(v: View, rq: Reverts, at: int, h: int, i: int, a: Answer)
    requires Good(v, rq) && at <= v.book.chain[0].height
    requires 0 <= i < |EventsAt(v.q, at, h)| && EventsAt(v.q, at, h)[i].trigger in v.tr
    ensures Good(Attempt(v, at, h, i, a), rq)
  {
    var e := EventsAt(v.q, at, h)[i];
    if !e.called {
      var o := Verdict(e, v.tr, a, at, v.book.chain);
      RecordAttempt(v, rq, at, h, i, o);
      if o.Delivered? {
        ToldKeepsGood(View(MarkCalled(v.q, at, h, i), v.tr, v.to, Record(v.book, e.id, o)), rq, e.trigger, a.more,
                      CountedAt(v.to, v.tr[e.trigger].timeout, e.trigger));
      }
    }
  }

  lemma RecordAttempt(v: View, rq: Reverts, at: int, h: int, i: int, o: Outcome)
    requires Good(v, rq) && at <= v.book.chain[0].height
    requires 0 <= i < |EventsAt(v.q, at, h)| && !EventsAt(v.q, at, h)[i].called
    requires o == Disabled(at) || o == Missing(at) || o == Failed(at, v.book.chain) || o == Delivered(at, v.book.chain)
    ensures var book := Record(v.book, EventsAt(v.q, at, h)[i].id, o);
      Good(View(if o.Delivered? then MarkCalled(v.q, at, h, i) else v.q, v.tr, v.to, book), rq)
  {
    var e := EventsAt(v.q, at, h)[i];
    assert LiveAt(v.q, v.tr, rq, v.book, at, h, i);
    RecordKeepsBook(v.book, e.id, o);
    AttemptKeepsLive(v.q, v.tr, rq, v.book, at, h, i, o);
    RecordStaysPunctual(v.book, v.tr, e.id, o);
  }

  lemma ToldKeepsGood(v: View, rq: Reverts, id: TriggerId, more: bool, to: Timeouts)
    requires Good(v, rq) && id in v.tr
    ensures Good(View(v.q, Told(v.tr, id, more), to, v.book), rq)
  {
    DisableKeepsLive(v.q, v.tr, rq, v.book, id, !more);
  }

  /** Events keep their places, and those not due at `at` do not change. */
  ghost predicate QueueOnward(q: Queue, q': Queue, at: int) {
    forall t, h :: OnwardAt(q, q', at, t, h)
  }

  ghost predicate OnwardAt(q: Queue, q': Queue, at: int, t: int, h: int) {
    ListForth(EventsAt(q, t, h), EventsAt(q', t, h), true, t != at)
  }

  /** Only histories change, they only grow, and only for events due at `at`. */
  ghost predicate BookOnward(was: Book, now: Book, at: int) {
    && SameButHistory(now, was)
    && (forall id :: id in was.history && id in was.place && was.place[id].due != at ==> now.history[id] == was.history[id])
  }

  /** A part of a pass over height `at`. */
  ghost predicate Onward(v: View, w: View, at: int) {
    && QueueOnward(v.q, w.q, at) && BookOnward(v.book, w.book, at)
    && Listeners(v, w)
  }

  lemma OnwardRefl(v: View, at: int)
    ensures Onward(v, v, at)
  {
  }

  lemma OnwardTransitive(u: View, v: View, w: View, at: int)
    requires Onward(u, v, at) && Onward(v, w, at)
    ensures Onward(u, w, at)
  {
    SameButHistoryTransitive(u.book, v.book, w.book);
    SameButHistoryContinues(u.book, v.book);
    SameButHistoryContinues(v.book, w.book);
    ListenersTransitive(u, v, w);
    forall t, h
      ensures OnwardAt(u.q, w.q, at, t, h)
    {
      assert OnwardAt(u.q, v.q, at, t, h) && OnwardAt(v.q, w.q, at, t, h);
      ListForthTransitive(EventsAt(u.q, t, h), EventsAt(v.q, t, h), EventsAt(w.q, t, h), true, t != at);
    }
  }

  lemma MarkCalledAt(q: Queue, at: int, h: int, i: int, t: int, h2: int)
    requires 0 <= i < |EventsAt(q, at, h)|
    ensures var s := EventsAt(q, at, h);
      EventsAt(MarkCalled(q, at, h, i), t, h2) == if t == at && h2 == h then s[i := s[i].(called := true)] else EventsAt(q, t, h2)
  {
  }

  lemma MarkCalledOnward(q: Queue, at: int, h: int, i: int)
    requires 0 <= i < |EventsAt(q, at, h)|
    ensures QueueOnward(q, MarkCalled(q, at, h, i), at)
  {
    var q' := MarkCalled(q, at, h, i);
    forall t, h2
      ensures OnwardAt(q, q', at, t, h2)
    {
      MarkCalledAt(q, at, h, i, t, h2);
    }
  }

  lemma RecordOnward(book: Book, id: nat, o: Outcome, at: int)
    requires id in book.history && id in book.place && book.place[id].due == at
    ensures BookOnward(book, Record(book, id, o), at)
  {
    RecordGrows(book, id, o);
  }

  lemma AttemptListeners(v: View, rq: Reverts, at: int, h: int, i: int, a: Answer)
    requires AllLive(v.q, v.tr, rq, v.book)
    requires 0 <= i < |EventsAt(v.q, at, h)| && EventsAt(v.q, at, h)[i].trigger in v.tr
    ensures Listeners(v, Attempt(v, at, h, i, a))
  {
    var e := EventsAt(v.q, at, h)[i];
    var o := Verdict(e, v.tr, a, at, v.book.chain);
    assert LiveAt(v.q, v.tr, rq, v.book, at, h, i);
    if !e.called && o.Delivered? {
      DisableSame(v.tr, e.trigger, !a.more);
      RecordGrows(v.book, e.id, o);
      assert Succeeded(Record(v.book, e.id, o), e.id) && !Succeeded(v.book, e.id);
      assert Heard(v.book, Record(v.book, e.id, o), e.trigger);
    }
  }

  lemma AttemptOnward(v: View, rq: Reverts, at: int, h: int, i: int, a: Answer)
    requires AllLive(v.q, v.tr, rq, v.book)
    requires 0 <= i < |EventsAt(v.q, at, h)| && EventsAt(v.q, at, h)[i].trigger in v.tr
    ensures Onward(v, Attempt(v, at, h, i, a), at)
  {
    var e := EventsAt(v.q, at, h)[i];
    assert LiveAt(v.q, v.tr, rq, v.book, at, h, i);
    OnwardRefl(v, at);
    AttemptListeners(v, rq, at, h, i, a);
    RecordOnward(v.book, e.id, Verdict(e, v.tr, a, at, v.book.chain), at);
    MarkCalledOnward(v.q, at, h, i);
  }

  // ----- a pass over one height ------------------------------------------

  /** The one entry an offer adds to a history is what the world answered. */
  ghost predicate Honest(o: Outcome, e: Event, e2: Event, a: Answer, tr: Triggers) {
    match o
    case Disabled(_) => e2 == e && e.trigger in tr && tr[e.trigger].disabled
    case Missing(_) => e2 == e && e.prevH != NO_HEIGHT && !a.found
    case Failed(_, _) => e2 == e && (e.prevH == NO_HEIGHT || a.found) && a.failed
    case Delivered(_, _) => e2 == e.(called := true) && (e.prevH == NO_HEIGHT || a.found) && !a.failed
    case Reverted(_) => false
  }

  /** Offered once: a delivered event is left alone, any other gets one honest entry. */
  ghost predicate Offered(e: Event, hist: seq<Outcome>, e2: Event, hist2: seq<Outcome>, a: Answer, tr: Triggers) {
    if e.called then e2 == e && hist2 == hist
    else |hist2| == |hist| + 1 && hist2[..|hist|] == hist && Honest(hist2[|hist|], e, e2, a, tr)
  }

  /** The event at this place was offered once between `v` and `w`. */
  ghost predicate OfferedAt(v: View, w: View, at: int, h: int, i: int, answers: nat -> Answer) {
    && 0 <= i < |EventsAt(v.q, at, h)| && i < |EventsAt(w.q, at, h)|
    && var (e, e2) := (EventsAt(v.q, at, h)[i], EventsAt(w.q, at, h)[i]);
       && e.id in v.book.history && e.id in w.book.history
       && Offered(e, v.book.history[e.id], e2, w.book.history[e.id], answers(e.id), w.tr)
  }

  /** The event at this place was not touched between `v` and `w`. */
  ghost predicate SameAt(v: View, w: View, at: int, h: int, i: int) {
    && 0 <= i < |EventsAt(v.q, at, h)| && i < |EventsAt(w.q, at, h)|
    && var (e, e2) := (EventsAt(v.q, at, h)[i], EventsAt(w.q, at, h)[i]);
       e2 == e && e.id in v.book.history && e.id in w.book.history && w.book.history[e.id] == v.book.history[e.id]
  }

  ghost predicate InTurn(done: set<int>, h: int, n: int, h2: int, i: int) {
    h2 in done || (h2 == h && i < n)
  }

  /** Part way through the events due at `at`: those of the finished tipset heights and the
      first `n` of height `h` were offered once, the others not yet. */
  ghost predicate Pass(v: View, w: View, at: int, answers: nat -> Answer, done: set<int>, h: int, n: int) {
    && Onward(v, w, at)
    && (forall h2, i :: 0 <= i < |EventsAt(v.q, at, h2)| && InTurn(done, h, n, h2, i) ==> OfferedAt(v, w, at, h2, i, answers))
    && (forall h2, i :: 0 <= i < |EventsAt(v.q, at, h2)| && !InTurn(done, h, n, h2, i) ==> SameAt(v, w, at, h2, i))
  }

  /** All events due at `at` were offered once. */
  ghost predicate Passed(v: View, w: View, at: int, answers: nat -> Answer) {
    && Onward(v, w, at)
    && (forall h, i :: 0 <= i < |EventsAt(v.q, at, h)| ==> OfferedAt(v, w, at, h, i, answers))
  }

  lemma PassStart(v: View, rq: Reverts, at: int, answers: nat -> Answer, h: int)
    requires AllLive(v.q, v.tr, rq, v.book)
    ensures Pass(v, v, at, answers, {}, h, 0)
  {
    OnwardRefl(v, at);
    forall h2, i | 0 <= i < |EventsAt(v.q, at, h2)|
      ensures SameAt(v, v, at, h2, i)
    {
      assert LiveAt(v.q, v.tr, rq, v.book, at, h2, i);
    }
  }

  lemma PassEnds(v: View, w: View, at: int, answers: nat -> Answer, done: set<int>, h: int)
    requires Pass(v, w, at, answers, done, h, 0)
    requires forall h2 :: EventsAt(v.q, at, h2) != [] ==> h2 in done
    ensures Passed(v, w, at, answers)
  {
    forall h2, i | 0 <= i < |EventsAt(v.q, at, h2)|
      ensures OfferedAt(v, w, at, h2, i, answers)
    {
      assert EventsAt(v.q, at, h2) != [];
      assert InTurn(done, h, 0, h2, i);
    }
  }

  lemma PassNext(v: View, w: View, at: int, answers: nat -> Answer, done: set<int>, h: int, n: int, next: int)
    requires Pass(v, w, at, answers, done, h, n) && n >= |EventsAt(v.q, at, h)|
    ensures Pass(v, w, at, answers, done + {h}, next, 0)
  {
    assert forall h2, i :: 0 <= i < |EventsAt(v.q, at, h2)| ==> (InTurn(done + {h}, next, 0, h2, i) <==> InTurn(done, h, n, h2, i));
  }

  lemma PassAny(v: View, w: View, at: int, answers: nat -> Answer, done: set<int>, h: int, next: int)
    requires Pass(v, w, at, answers, done, h, 0)
    ensures Pass(v, w, at, answers, done, next, 0)
  {
    assert forall h2, i :: 0 <= i < |EventsAt(v.q, at, h2)| ==> (InTurn(done, next, 0, h2, i) <==> InTurn(done, h, 0, h2, i));
  }

  /** The event in turn: its history gets one honest entry. */
  lemma AttemptOffers(v: View, rq: Reverts, at: int, h: int, i: int, answers: nat -> Answer)
    requires AllLive(v.q, v.tr, rq, v.book)
    requires 0 <= i < |EventsAt(v.q, at, h)| && EventsAt(v.q, at, h)[i].trigger in v.tr
    ensures OfferedAt(v, Attempt(v, at, h, i, answers(EventsAt(v.q, at, h)[i].id)), at, h, i, answers)
  {
    var e := EventsAt(v.q, at, h)[i];
    assert LiveAt(v.q, v.tr, rq, v.book, at, h, i);
    MarkCalledAt(v.q, at, h, i, at, h);
  }

  /** Any other event due at the same height. */
  lemma AttemptSpares(v: View, rq: Reverts, at: int, h: int, i: int, a: Answer, h2: int, i2: int)
    requires AllLive(v.q, v.tr, rq, v.book)
    requires 0 <= i < |EventsAt(v.q, at, h)| && EventsAt(v.q, at, h)[i].trigger in v.tr
    requires 0 <= i2 < |EventsAt(v.q, at, h2)| && !(h2 == h && i2 == i)
    ensures SameAt(v, Attempt(v, at, h, i, a), at, h2, i2)
  {
    assert LiveAt(v.q, v.tr, rq, v.book, at, h, i);
    assert LiveAt(v.q, v.tr, rq, v.book, at, h2, i2);
    MarkCalledAt(v.q, at, h, i, at, h2);
  }

  lemma OfferedThenSame(u: View, v: View, w: View, at: int, h: int, i: int, answers: nat -> Answer)
    requires OfferedAt(u, v, at, h, i, answers) && SameAt(v, w, at, h, i)
    requires EventsAt(v.q, at, h)[i].id == EventsAt(u.q, at, h)[i].id && SameTriggers(v.tr, w.tr)
    ensures OfferedAt(u, w, at, h, i, answers)
  {
  }

  lemma SameThenOffered(u: View, v: View, w: View, at: int, h: int, i: int, answers: nat -> Answer)
    requires SameAt(u, v, at, h, i) && OfferedAt(v, w, at, h, i, answers)
    ensures OfferedAt(u, w, at, h, i, answers)
  {
  }

  lemma PassStep(u: View, v: View, rq: Reverts, at: int, answers: nat -> Answer, done: set<int>, h: int, n: int, w: View)
    requires Pass(u, v, at, answers, done, h, n) && h !in done && AllLive(v.q, v.tr, rq, v.book)
    requires 0 <= n < |EventsAt(v.q, at, h)| && EventsAt(v.q, at, h)[n].trigger in v.tr
    requires w == Attempt(v, at, h, n, answers(EventsAt(v.q, at, h)[n].id))
    ensures Pass(u, w, at, answers, done, h, n + 1)
  {
    var a := answers(EventsAt(v.q, at, h)[n].id);
    AttemptOnward(v, rq, at, h, n, a);
    OnwardTransitive(u, v, w, at);
    forall h2, i | 0 <= i < |EventsAt(u.q, at, h2)|
      ensures if InTurn(done, h, n + 1, h2, i) then OfferedAt(u, w, at, h2, i, answers) else SameAt(u, w, at, h2, i)
    {
      PassStepAt(u, v, rq, at, answers, done, h, n, h2, i);
    }
  }

  lemma PassStepAt(u: View, v: View, rq: Reverts, at: int, answers: nat -> Answer, done: set<int>, h: int, n: int, h2: int, i: int)
    requires Pass(u, v, at, answers, done, h, n) && h !in done && AllLive(v.q, v.tr, rq, v.book)
    requires 0 <= n < |EventsAt(v.q, at, h)| && EventsAt(v.q, at, h)[n].trigger in v.tr
    requires 0 <= i < |EventsAt(u.q, at, h2)|
    ensures var w := Attempt(v, at, h, n, answers(EventsAt(v.q, at, h)[n].id));
      if InTurn(done, h, n + 1, h2, i) then OfferedAt(u, w, at, h2, i, answers) else SameAt(u, w, at, h2, i)
  {
    var a := answers(EventsAt(v.q, at, h)[n].id);
    var w := Attempt(v, at, h, n, a);
    assert OnwardAt(u.q, v.q, at, at, h2);
    assert Moved(EventsAt(u.q, at, h2)[i], EventsAt(v.q, at, h2)[i]);
    if h2 == h && i == n {
      AttemptOffers(v, rq, at, h, n, answers);
      SameThenOffered(u, v, w, at, h, n, answers);
    } else {
      AttemptSpares(v, rq, at, h, n, a, h2, i);
      if InTurn(done, h, n, h2, i) {
        AttemptOnward(v, rq, at, h, n, a);
        OfferedThenSame(u, v, w, at, h2, i, answers);
      }
    }
  }

  /** An offered event waits no longer. */
  lemma OfferedWaitsNot(v: View, w: View, at: int, h: int, i: int, answers: nat -> Answer)
    requires OfferedAt(v, w, at, h, i, answers) && EventsAt(w.q, at, h)[i].id == EventsAt(v.q, at, h)[i].id
    ensures !Waiting(EventsAt(w.q, at, h)[i], w.tr, w.book)
  {
    var (e, e2) := (EventsAt(v.q, at, h)[i], EventsAt(w.q, at, h)[i]);
    var (hist, hist2) := (v.book.history[e.id], w.book.history[e.id]);
    if !e.called {
      assert hist2[|hist|].Missing? || hist2[|hist|].Failed? ==> Attempted(w.book, e2.id);
    }
  }

  /** A pass over `at` widens the band in which nothing waits. */
  lemma PassedBand(v: View, w: View, rq: Reverts, at: int, answers: nat -> Answer, lo: int)
    requires Passed(v, w, at, answers) && Band(v, lo, at) && AllLive(v.q, v.tr, rq, v.book)
    ensures Band(w, lo, at + 1)
  {
    forall t, h, i | Waits(w, t, h, i)
      ensures t < lo || at + 1 <= t
    {
      assert OnwardAt(v.q, w.q, at, t, h);
      assert Moved(EventsAt(v.q, t, h)[i], EventsAt(w.q, t, h)[i]);
      assert LiveAt(v.q, v.tr, rq, v.book, t, h, i);
      if t == at {
        OfferedWaitsNot(v, w, at, h, i, answers);
      } else {
        WaitsBefore(EventsAt(v.q, t, h)[i], v.tr, v.book, EventsAt(w.q, t, h)[i], w.tr, w.book);
        assert Waits(v, t, h, i);
      }
    }
  }

  lemma OnwardForth(v: View, w: View, at: int, h0: int, lo: int, hi: int)
    requires Onward(v, w, at) && lo <= at <= hi && BookOk(v.book)
    ensures Forth(v, w, h0, lo, hi)
  {
    SameButHistoryContinues(v.book, w.book);
    forall t, h
      ensures ForthAt(v.q, w.q, h0, lo, t, h)
    {
      assert OnwardAt(v.q, w.q, at, t, h);
    }
  }

  // ----- new events ------------------------------------------------------

  /** The view after queueing an event of tipset `ts` to be due at `t`. */
  ghost function Entered(v: View, t: int, e: Event, ts: TipSet): View {
    var s := EventsAt(v.q, t, e.h);
    v.(q := WithEvents(v.q, t, e.h, s + [e]), book := Enter(v.book, ts, Place(t, e.h, |s|, e.trigger)))
  }

  lemma EnteredIsGood(v: View, rq: Reverts, t: int, e: Event, ts: TipSet)
    requires Good(v, rq) && ts in v.book.chain && e.h == ts.height && !e.called && e.id == v.book.next
    requires e.trigger in v.tr && t == e.h + v.tr[e.trigger].confidence
    ensures Good(Entered(v, t, e, ts), Remember(rq, e.h, t))
  {
    QueueKeepsLive(v.q, v.tr, rq, v.book, t, e, ts);
    EnterKeepsBook(v.book, ts, Place(t, e.h, |EventsAt(v.q, t, e.h)|, e.trigger));
  }

  lemma EnteredAt(v: View, t: int, e: Event, ts: TipSet, t2: int, h2: int)
    ensures EventsAt(Entered(v, t, e, ts).q, t2, h2) == EventsAt(v.q, t2, h2) + if t2 == t && h2 == e.h then [e] else []
  {
    WithEventsAt(v.q, t, e.h, EventsAt(v.q, t, e.h) + [e], t2, h2);
  }

  lemma EnterContinues(book: Book, ts: TipSet, place: Place, lo: int, hi: int)
    requires BookOk(book)
    ensures Continues(book, Enter(book, ts, place)) && QuietOutside(book, Enter(book, ts, place), lo, hi)
  {
  }

  lemma EnteredForth(v: View, rq: Reverts, t: int, e: Event, ts: TipSet, h0: int, lo: int, hi: int)
    requires Good(v, rq) && h0 < e.h && lo <= t
    ensures Forth(v, Entered(v, t, e, ts), h0, lo, hi)
  {
    EnterContinues(v.book, ts, Place(t, e.h, |EventsAt(v.q, t, e.h)|, e.trigger), lo, hi);
    forall t2, h2
      ensures ForthAt(v.q, Entered(v, t, e, ts).q, h0, lo, t2, h2)
    {
      EnteredAt(v, t, e, ts, t2, h2);
    }
  }

  /** Only the new event can be one more that waits. */
  lemma EnteredWaits(v: View, rq: Reverts, t: int, e: Event, ts: TipSet, t2: int, h2: int, i: int)
    requires Good(v, rq) && e.id == v.book.next && !e.called
    ensures Waits(Entered(v, t, e, ts), t2, h2, i) <==>
      Waits(v, t2, h2, i) || (t2 == t && h2 == e.h && i == |EventsAt(v.q, t, e.h)| && !(e.trigger in v.tr && v.tr[e.trigger].disabled))
  {
    EnteredAt(v, t, e, ts, t2, h2);
    var w := Entered(v, t, e, ts);
    if 0 <= i < |EventsAt(v.q, t2, h2)| {
      var e2 := EventsAt(v.q, t2, h2)[i];
      assert LiveAt(v.q, v.tr, rq, v.book, t2, h2, i);
      assert w.book.history[e2.id] == v.book.history[e2.id];
    } else {
      assert w.book.history[e.id] == [];
      assert !Attempted(w.book, e.id);
    }
  }

  lemma EnteredPassed(v: View, rq: Reverts, t: int, e: Event, ts: TipSet, bound: int)
    requires Good(v, rq) && e.id == v.book.next && !e.called && e.trigger in v.tr
    ensures NonePassed(Entered(v, t, e, ts), bound) <==> NonePassed(v, bound) && (v.tr[e.trigger].disabled || t >= bound)
  {
    forall t2, h2, i
      ensures Waits(Entered(v, t, e, ts), t2, h2, i) <==>
        Waits(v, t2, h2, i) || (t2 == t && h2 == e.h && i == |EventsAt(v.q, t, e.h)| && !v.tr[e.trigger].disabled)
    {
      EnteredWaits(v, rq, t, e, ts, t2, h2, i);
    }
    assert !v.tr[e.trigger].disabled ==> Waits(Entered(v, t, e, ts), t, e.h, |EventsAt(v.q, t, e.h)|);
  }

  lemma EnteredBand(v: View, rq: Reverts, t: int, e: Event, ts: TipSet, lo: int, hi: int)
    requires Good(v, rq) && e.id == v.book.next && !e.called && Band(v, lo, hi) && hi <= t
    ensures Band(Entered(v, t, e, ts), lo, hi)
  {
    forall t2, h2, i | Waits(Entered(v, t, e, ts), t2, h2, i)
      ensures t2 < lo || hi <= t2
    {
      EnteredWaits(v, rq, t, e, ts, t2, h2, i);
    }
  }

  /** A change seen in the tipset at height `h` has its event in the queue. */
  ghost predicate Queued(q: Queue, id: TriggerId, data: Data, prevH: int, h: int, due: int) {
    exists i :: 0 <= i < |EventsAt(q, due, h)| && IsFor(EventsAt(q, due, h)[i], id, data, prevH, h)
  }

  ghost predicate IsFor(e: Event, id: TriggerId, data: Data, prevH: int, h: int) {
    e.trigger == id && e.data == data && e.prevH == prevH && e.h == h
  }

  ghost predicate QueuedAll(v: View, changes: map<TriggerId, Data>, prevH: int, h: int) {
    forall id :: QueuedId(v, changes, prevH, h, id)
  }

  ghost predicate QueuedId(v: View, changes: map<TriggerId, Data>, prevH: int, h: int, id: TriggerId) {
    id in changes && id in v.tr ==> Queued(v.q, id, changes[id], prevH, h, h + v.tr[id].confidence)
  }

  lemma QueuedStays(v: View, w: View, h0: int, lo: int, hi: int, changes: map<TriggerId, Data>, prevH: int, h: int)
    requires Forth(v, w, h0, lo, hi) && QueuedAll(v, changes, prevH, h)
    ensures QueuedAll(w, changes, prevH, h)
  {
    forall id | id in changes && id in w.tr
      ensures QueuedId(w, changes, prevH, h, id)
    {
      assert QueuedId(v, changes, prevH, h, id);
      var due := h + v.tr[id].confidence;
      var i :| 0 <= i < |EventsAt(v.q, due, h)| && IsFor(EventsAt(v.q, due, h)[i], id, changes[id], prevH, h);
      assert ForthAt(v.q, w.q, h0, lo, due, h);
      assert Moved(EventsAt(v.q, due, h)[i], EventsAt(w.q, due, h)[i]);
      assert IsFor(EventsAt(w.q, due, h)[i], id, changes[id], prevH, h);
    }
  }

  // ----- dropping tipsets ------------------------------------------------

  ghost predicate RevertedSince(was: Book, now: Book, id: nat) {
    id in was.seen && WasReverted(now, id, was.seen[id])
  }

  /** From `v` to `w` the tipsets above `h0` were dropped: their events are gone, the delivered
      ones undone, and everything else is as it was. */
  ghost predicate Back(v: View, w: View, h0: int) {
    && Continues(v.book, w.book) && w.tr == v.tr && w.to == v.to
    && CutAbove(v.q, w.q, h0) && QuietUpTo(v.book, w.book, h0) && UndoneAbove(v.q, v.book, w.book, h0)
  }

  ghost predicate CutAbove(q: Queue, q': Queue, h0: int) {
    forall t, h :: EventsAt(q', t, h) == if h <= h0 then EventsAt(q, t, h) else []
  }

  ghost predicate QuietUpTo(was: Book, now: Book, h0: int) {
    forall id :: id in was.history && id in was.place && was.place[id].h <= h0 ==> id in now.history && now.history[id] == was.history[id]
  }

  ghost predicate UndoneAbove(q: Queue, was: Book, now: Book, h0: int) {
    forall t, h, i :: h > h0 && 0 <= i < |EventsAt(q, t, h)| && EventsAt(q, t, h)[i].called ==>
      RevertedSince(was, now, EventsAt(q, t, h)[i].id)
  }

  lemma BackRefl(v: View, rq: Reverts)
    requires Good(v, rq)
    ensures Back(v, v, v.book.chain[0].height)
  {
    forall t, h | h > v.book.chain[0].height
      ensures EventsAt(v.q, t, h) == []
    {
      NoneAbove(v, rq, t, h);
    }
  }

  /** Events sit on tipsets of the chain. */
  lemma NoneAbove(v: View, rq: Reverts, t: int, h: int)
    requires Good(v, rq) && h > v.book.chain[0].height
    ensures EventsAt(v.q, t, h) == []
  {
    assert EventsAt(v.q, t, h) != [] ==> LiveAt(v.q, v.tr, rq, v.book, t, h, 0);
  }

  lemma RevertedStays(a: Book, b: Book, c: Book, id: nat)
    requires Continues(b, c) && RevertedSince(a, b, id)
    ensures RevertedSince(a, c, id)
  {
    var ts := a.seen[id];
    var k :| 0 <= k < |b.history[id]| && b.history[id][k] == Reverted(ts);
    assert Recalls(b, c, id);
    assert c.history[id][k] == Reverted(ts);
  }

  lemma BackTransitive(u: View, v: View, w: View, rq: Reverts, h1: int, h0: int)
    requires Back(u, v, h1) && Back(v, w, h0) && h0 <= h1 && Good(u, rq)
    ensures Back(u, w, h0)
  {
    ContinuesTransitive(u.book, v.book, w.book);
    forall id | id in u.book.history && id in u.book.place && u.book.place[id].h <= h0
      ensures id in w.book.history && w.book.history[id] == u.book.history[id]
    {
      assert Recalls(u.book, v.book, id);
    }
    forall t, h, i | h > h0 && 0 <= i < |EventsAt(u.q, t, h)| && EventsAt(u.q, t, h)[i].called
      ensures RevertedSince(u.book, w.book, EventsAt(u.q, t, h)[i].id)
    {
      var id := EventsAt(u.q, t, h)[i].id;
      if h > h1 {
        RevertedStays(u.book, v.book, w.book, id);
      } else {
        assert LiveAt(u.q, u.tr, rq, u.book, t, h, i);
        assert Recalls(u.book, v.book, id);
        assert EventsAt(v.q, t, h) == EventsAt(u.q, t, h);
        assert RevertedSince(v.book, w.book, id);
      }
    }
  }

  /** The events that are left wait exactly as before. */
  lemma BackPassed(v: View, w: View, rq: Reverts, h0: int, tr: Triggers, bound: int)
    requires Back(v, w, h0) && Good(v, rq)
    ensures NonePassed(w.(tr := tr), bound) <==> NoneKeptPassed(v.(tr := tr), h0, bound)
  {
    forall t, h, i
      ensures Waits(w.(tr := tr), t, h, i) <==> h <= h0 && Waits(v.(tr := tr), t, h, i)
    {
      assert EventsAt(w.q, t, h) == if h <= h0 then EventsAt(v.q, t, h) else [];
      if h <= h0 && 0 <= i < |EventsAt(v.q, t, h)| {
        assert LiveAt(v.q, v.tr, rq, v.book, t, h, i);
        assert w.book.history[EventsAt(v.q, t, h)[i].id] == v.book.history[EventsAt(v.q, t, h)[i].id];
      }
    }
  }

  // ----- a whole head change ---------------------------------------------

  /** Every event keeps its record, events of the tipsets up to `h0` keep their places, and
      delivered events of dropped tipsets were undone. */
  ghost predicate HeadChanged(v: View, w: View, h0: int) {
    && Continues(v.book, w.book) && Listeners(v, w)
    && (forall t, h :: h <= h0 ==> StaysAt(v.q, w.q, t, h))
    && UndoneAbove(v.q, v.book, w.book, h0)
  }

  /** The same events in the same places, perhaps delivered since. */
  ghost predicate StaysAt(q: Queue, q': Queue, t: int, h: int) {
    ListForth(EventsAt(q, t, h), EventsAt(q', t, h), true, false)
  }

  lemma BackListeners(v: View, w: View, h0: int)
    requires Back(v, w, h0)
    ensures Listeners(v, w)
  {
  }

  lemma BackThenForth(u: View, v: View, w: View, h0: int, lo: int, hi: int)
    requires Back(u, v, h0) && Forth(v, w, h0, lo, hi)
    ensures HeadChanged(u, w, h0)
  {
    ContinuesTransitive(u.book, v.book, w.book);
    BackListeners(u, v, h0);
    ListenersTransitive(u, v, w);
    forall t, h, i | h > h0 && 0 <= i < |EventsAt(u.q, t, h)| && EventsAt(u.q, t, h)[i].called
      ensures RevertedSince(u.book, w.book, EventsAt(u.q, t, h)[i].id)
    {
      RevertedStays(u.book, v.book, w.book, EventsAt(u.q, t, h)[i].id);
    }
    forall t, h | h <= h0
      ensures StaysAt(u.q, w.q, t, h)
    {
      assert EventsAt(v.q, t, h) == EventsAt(u.q, t, h);
      assert ForthAt(v.q, w.q, h0, lo, t, h);
    }
  }

  // ----- listeners and the chain -----------------------------------------

  lemma TriggersKeepGood(v: View, rq: Reverts, tr: Triggers)
    requires Good(v, rq) && SameTriggers(v.tr, tr)
    ensures Good(v.(tr := tr), rq)
  {
    forall t, h, i | 0 <= i < |EventsAt(v.q, t, h)|
      ensures LiveAt(v.q, tr, rq, v.book, t, h, i)
    {
      assert LiveAt(v.q, v.tr, rq, v.book, t, h, i);
    }
  }

  lemma TriggersForth(v: View, tr: Triggers, h0: int, lo: int, hi: int)
    requires Listeners(v, v.(tr := tr))
    ensures Forth(v, v.(tr := tr), h0, lo, hi)
    ensures Band(v, lo, hi) ==> Band(v.(tr := tr), lo, hi)
  {
    assert forall t, h, i :: Waits(v.(tr := tr), t, h, i) ==> Waits(v, t, h, i);
  }

  /** The chain under the queue grows. */
  lemma GrowForth(v: View, rq: Reverts, chain: seq<TipSet>, h0: int, lo: int, hi: int)
    requires Good(v, rq) && chain != [] && Falling(chain) && forall ts :: ts in v.book.chain ==> ts in chain
    ensures Good(v.(book := v.book.(chain := chain)), rq) && Forth(v, v.(book := v.book.(chain := chain)), h0, lo, hi)
  {
    GrowKeepsLive(v.q, v.tr, rq, v.book, chain);
  }

  ghost predicate SameWaits(v: View, w: View) {
    forall t, h, i :: Waits(w, t, h, i) <==> Waits(v, t, h, i)
  }

  lemma SamePassed(v: View, w: View, lo: int, bound: int)
    requires SameWaits(v, w)
    ensures NonePassed(w, bound) <==> NonePassed(v, bound)
    ensures Band(w, lo, bound) <==> Band(v, lo, bound)
  {
  }

  lemma GrowWaits(v: View, chain: seq<TipSet>)
    ensures SameWaits(v, v.(book := v.book.(chain := chain)))
  {
    var w := v.(book := v.book.(chain := chain));
    assert forall id :: Attempted(w.book, id) <==> Attempted(v.book, id);
  }

  /** Dropping the head. */
  lemma DroppedIsBack(v: View, rq: Reverts, w: View, ts: TipSet)
    requires Good(v, rq) && |v.book.chain| > 1 && ts == v.book.chain[0]
    requires AllDropped(v.q, w.q, w.book, ts) && SameElsewhere(w.book, v.book, ts.height) && w.tr == v.tr && w.to == v.to
    ensures Back(v, w.(book := w.book.(chain := v.book.chain[1..])), v.book.chain[1].height)
  {
    var h0 := v.book.chain[1].height;
    DroppedIsCut(v, rq, w.q, w.book, ts);
    DroppedIsUndone(v, rq, w.q, w.book, ts);
    var book := w.book.(chain := v.book.chain[1..]);
    assert Continues(v.book, book) && QuietUpTo(v.book, book, h0);
    assert forall id :: RevertedSince(v.book, w.book, id) ==> RevertedSince(v.book, book, id);
    assert UndoneAbove(v.q, v.book, book, h0);
  }

  lemma DroppedIsCut(v: View, rq: Reverts, q: Queue, book: Book, ts: TipSet)
    requires Good(v, rq) && |v.book.chain| > 1 && ts == v.book.chain[0] && AllDropped(v.q, q, book, ts)
    ensures CutAbove(v.q, q, v.book.chain[1].height)
  {
    forall t, h
      ensures EventsAt(q, t, h) == if h <= v.book.chain[1].height then EventsAt(v.q, t, h) else []
    {
      if h > v.book.chain[1].height && h != ts.height {
        NoneBetween(v, rq, t, h);
      }
    }
  }

  lemma DroppedIsUndone(v: View, rq: Reverts, q: Queue, book: Book, ts: TipSet)
    requires Good(v, rq) && |v.book.chain| > 1 && ts == v.book.chain[0] && AllDropped(v.q, q, book, ts)
    ensures UndoneAbove(v.q, v.book, book, v.book.chain[1].height)
  {
    forall t, h, i | h > v.book.chain[1].height && 0 <= i < |EventsAt(v.q, t, h)| && EventsAt(v.q, t, h)[i].called
      ensures RevertedSince(v.book, book, EventsAt(v.q, t, h)[i].id)
    {
      var e := EventsAt(v.q, t, h)[i];
      assert LiveAt(v.q, v.tr, rq, v.book, t, h, i);
      if h == ts.height {
        OneTipSetPerHeight(v.book.chain, ts, v.book.seen[e.id]);
      } else {
        NoneBetween(v, rq, t, h);
      }
    }
  }

  lemma NoneBetween(v: View, rq: Reverts, t: int, h: int)
    requires Good(v, rq) && |v.book.chain| > 1 && h > v.book.chain[1].height && h != v.book.chain[0].height
    ensures EventsAt(v.q, t, h) == []
  {
    assert forall ts :: ts in v.book.chain ==> ts.height <= v.book.chain[1].height || ts == v.book.chain[0];
    assert EventsAt(v.q, t, h) != [] ==> LiveAt(v.q, v.tr, rq, v.book, t, h, 0);
  }
}
