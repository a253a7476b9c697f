/** A run of the event component in which an event is passed over
    (chain/events/events_called.go:117-161): a head change that is given up leaves the last
    known tipset behind the chain, and a later revert moves it up past the events in between. */
module GivenUpRun {
  import opened Wrappers
  import opened Chain
  import opened EventQueue
  import opened EventRuns
  import opened HcEvents

  const LISTENER: TriggerId := 0
  const DATA: Data := 7

  function At(height: nat, fork: nat): TipSet {
    TipSet(2 * height + fork + 1, 0, height, 0)
  }

  /** A listener without timeout none of whose events was delivered stays enabled. */
  lemma StaysEnabled(v: View, w: View, id: TriggerId)
    requires Listeners(v, w) && id in v.tr && !v.tr[id].disabled && w.to.Keys == {}
    requires forall e :: e in w.book.place ==> Hist(w.book, e) == []
    ensures id in w.tr && !w.tr[id].disabled
  {
    assert SilencedId(v, w, id);
    assert forall e :: e in w.book.place ==> !Succeeded(w.book, e);
  }

  /** The states of the run: how it starts, and after it was given up. */
  ghost predicate Begun(s: State, book: Book) {
    && Ok(s, book) && book.chain == [At(9, 0)] && book.place == map[] && book.next == 0
    && s.nextId == 0 && s.timeouts == map[] && s.triggers == map[LISTENER := HandlerInfo(0, NO_TIMEOUT, false)]
  }

  ghost predicate Behind(s: State, book: Book, i: int) {
    && Ok(s, book) && s.nextId == 1 && s.timeouts.Keys == {} && book.chain == [At(12, 0), At(11, 0), At(10, 0), At(9, 0)]
    && Waits(Of(s, book), 10, 10, i) && EventsAt(s.confQueue, 10, 10)[i].trigger == LISTENER
    && LISTENER in s.triggers && !s.triggers[LISTENER].disabled
    && (forall e :: e in book.place ==> book.place[e].due == 10 == book.place[e].h && Hist(book, e) == [])
  }

  lemma GivenUpAtOnce(checks: seq<Checks>)
    requires |checks| == 3 && checks[0] == Checks(map[LISTENER := DATA], None)
    ensures Read(checks) == 0 && Reached(checks) == 1 && Changes(checks) == 1
  {
  }

  /** The only event there is. */
  lemma TheEvent(s: State, book: Book) returns (i: int)
    requires Ok(s, book) && s.nextId == 1 && LISTENER in s.triggers && s.triggers[LISTENER].confidence == 0
    requires QueuedAll(Of(s, book), map[LISTENER := DATA], 9, 10) && (forall e :: e in book.place && book.place[e].due == 10 ==> Hist(book, e) == [])
    ensures 0 <= i < |EventsAt(s.confQueue, 10, 10)| && EventsAt(s.confQueue, 10, 10)[i].trigger == LISTENER
    ensures !EventsAt(s.confQueue, 10, 10)[i].called && !Attempted(book, EventsAt(s.confQueue, 10, 10)[i].id)
    ensures forall e :: e in book.place ==> book.place[e].due == 10 == book.place[e].h && Hist(book, e) == []
  {
    assert QueuedId(Of(s, book), map[LISTENER := DATA], 9, 10, LISTENER);
    i :| 0 <= i < |EventsAt(s.confQueue, 10, 10)| && IsFor(EventsAt(s.confQueue, 10, 10)[i], LISTENER, DATA, 9, 10);
    assert LiveAt(s.confQueue, s.triggers, s.revertQueue, book, 10, 10, i);
    assert EventsAt(s.confQueue, 10, 10)[i].id == 0;
  }

  /** The head change from 9 to 12 is given up at 10, after the event due at 10 was queued. */
  lemma AfterGivingUp(s: State, book: Book, s': State, book': Book, lastTs': TipSet, ok: bool, app: seq<TipSet>, checks: seq<Checks>) returns (i: int)
    requires Begun(s, book) && Ok(s', book')
    requires app == [At(10, 0), At(11, 0), At(12, 0)] && |checks| == 3 && checks[0] == Checks(map[LISTENER := DATA], None)
    requires book'.chain == [At(12, 0), At(11, 0), At(10, 0), At(9, 0)]
    requires Processed(Of(s, book), s.nextId, At(9, 0), Of(s', book'), s'.nextId, lastTs', ok, 9, [], app, checks)
    ensures lastTs' == At(9, 0) && Behind(s', book', i) && NonePassed(Of(s', book'), 9)
  {
    GivenUpAtOnce(checks);
    assert QueuedTipSet(Of(s', book'), 9, 10, checks[0]);
    forall e | e in book'.place && book'.place[e].due == 10
      ensures Hist(book', e) == []
    {
      assert RanOnlyId(book, book', 9, 9, 8, e);
    }
    i := TheEvent(s', book');
    StaysEnabled(Of(s, book), Of(s', book'), LISTENER);
    NothingQueued(s, book);
  }

  lemma NothingQueued(s: State, book: Book)
    requires Ok(s, book) && book.place == map[]
    ensures forall bound :: NonePassed(Of(s, book), bound)
  {
    forall t, h, i
      ensures !Waits(Of(s, book), t, h, i)
    {
      assert LiveAt(s.confQueue, s.triggers, s.revertQueue, book, t, h, i);
    }
  }

  /** Then 12 is reverted and another fork applied up to 13: the pass starts at 12. */
  lemma AfterReverting(s: State, book: Book, i: int, s': State, book': Book, lastTs': TipSet, ok: bool, app: seq<TipSet>, checks: seq<Checks>)
    requires Behind(s, book, i) && Ok(s', book')
    requires app == [At(12, 1), At(13, 1)] && checks == [Checks(map[], Some(map[])), Checks(map[], Some(map[]))]
    requires Processed(Of(s, book), s.nextId, At(9, 0), Of(s', book'), s'.nextId, lastTs', ok, 11, [At(12, 0)], app, checks)
    ensures ok && lastTs' == At(13, 1) && !NonePassed(Of(s', book'), lastTs'.height)
  {
    var (v, w) := (Of(s, book), Of(s', book'));
    AllSeen(checks);
    forall e | e in book'.place
      ensures Hist(book', e) == []
    {
      assert e < 1 && e in book.place && Recalls(book, book', e);
      assert RanOnlyId(book, book', 11, 12, 13, e);
    }
    StaysEnabled(v, w, LISTENER);
    assert Waits(v.(tr := w.tr), 10, 10, i);
  }

  lemma AllSeen(checks: seq<Checks>)
    requires checks == [Checks(map[], Some(map[])), Checks(map[], Some(map[]))]
    ensures Read(checks) == 2 && Changes(checks) == 0 && AllRead(checks)
  {
    var rest := checks[1..];
    assert rest == [Checks(map[], Some(map[]))] && rest[1..] == [];
    assert Read(rest) == 1 && Changes(rest) == 0;
  }

  method Begin() returns (s: State, ghost book: Book)
    ensures Begun(s, book)
  {
    s := State(map[], map[], map[LISTENER := HandlerInfo(0, NO_TIMEOUT, false)], map[], 1, 0);
    book := Book([At(9, 0)], map[], map[], map[], 0);
  }

  lemma ThreeUp(app: seq<TipSet>)
    requires app == [At(10, 0), At(11, 0), At(12, 0)]
    ensures Rising(9, app) && Extend([At(9, 0)], app) == [At(12, 0), At(11, 0), At(10, 0), At(9, 0)]
  {
    var (a, b) := (app[1..], app[2..]);
    assert a == [At(11, 0), At(12, 0)] && a[1..] == b == [At(12, 0)] && b[1..] == [];
    assert Rising(11, b) && Rising(10, a);
    var chain := [At(9, 0)];
    assert Extend([At(10, 0)] + chain, a) == Extend([At(11, 0)] + ([At(10, 0)] + chain), b);
    assert Extend([At(11, 0)] + ([At(10, 0)] + chain), b) == [At(12, 0)] + ([At(11, 0)] + ([At(10, 0)] + chain));
  }

  lemma TwoUp(app: seq<TipSet>)
    requires app == [At(12, 1), At(13, 1)]
    ensures Rising(11, app)
  {
    assert app[1..] == [At(13, 1)] && app[1..][1..] == [];
    assert Rising(12, app[1..]);
  }

  method GiveUp(s: State, ghost book: Book) returns (s': State, lastTs: TipSet, ghost i: int, ghost book': Book)
    requires Begun(s, book)
    ensures Behind(s', book', i) && lastTs == At(9, 0) && NonePassed(Of(s', book'), 9)
  {
    var app := [At(10, 0), At(11, 0), At(12, 0)];
    var checks := [Checks(map[LISTENER := DATA], None), Checks(map[], Some(map[])), Checks(map[], Some(map[]))];
    ThreeUp(app);
    assert book.chain[0..] == book.chain;
    var ok;
    s', lastTs, ok, book' := ProcessHeadChange(s, At(9, 0), [], app, checks, book);
    i := AfterGivingUp(s, book, s', book', lastTs, ok, app, checks);
  }

  method Revert(s: State, lastTs: TipSet, ghost book: Book, ghost i: int) returns (s': State, lastTs': TipSet, ghost book': Book)
    requires Behind(s, book, i) && lastTs == At(9, 0)
    ensures Ok(s', book') && lastTs' == At(13, 1) && !NonePassed(Of(s', book'), lastTs'.height)
  {
    var rev, app := [At(12, 0)], [At(12, 1), At(13, 1)];
    var checks := [Checks(map[], Some(map[])), Checks(map[], Some(map[]))];
    TwoUp(app);
    var ok;
    s', lastTs', ok, book' := ProcessHeadChange(s, lastTs, rev, app, checks, book);
    AfterReverting(s, book, i, s', book', lastTs', ok, app, checks);
  }

  /** The event due at 10 waits although the last tipset is at 13, where the next pass starts. */
  method PassedOver() returns (s: State, lastTs: TipSet, ghost book: Book)
    ensures Ok(s, book) && lastTs.height == 13 && !NonePassed(Of(s, book), lastTs.height)
  {
    s, book := Begin();
    ghost var i;
    s, lastTs, i, book := GiveUp(s, book);
    s, lastTs, book := Revert(s, lastTs, book, i);
  }
}
