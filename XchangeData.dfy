/**
 * The per-listing trade poller of the XChange market-data module: a task that
 * recovers a (time, id) cursor from persisted trades, and on every run fetches the
 * venue's trades since the cursor time, publishes those whose numeric id exceeds
 * the cursor id, advances the cursor after each one and re-submits itself to the
 * rate limiter whatever happened.
 */
module XchangeData {
  import opened Wrappers
  import opened JavaLong

  /** A `BigDecimal`: unscaled value and scale, carried along unchanged. */
  datatype Decimal = Decimal(unscaled: int, scale: int)

  /** A tradable pair on one market. */
  datatype Listing = Listing(market: string, base: string, quote: string)

  /** A trade record of the system, as published and persisted; `time` is in epoch milliseconds. */
  datatype Trade = Trade(listing: Listing, time: int, remoteKey: string, price: Decimal, amount: Decimal)

  /** A trade as the venue reports it; the id is the venue's string. */
  datatype VenueTrade = VenueTrade(id: string, timestamp: int, price: Decimal, amount: Decimal)

  /**
   * What one call of the venue's `getTrades(pair, since)` gives: the trades, an
   * IOException (caught by the task), or any other exception (not caught).
   */
  datatype FetchResult =
    | Fetched(trades: seq<VenueTrade>)
    | IoFailure(cause: string)
    | UncheckedFailure(cause: string)

  /** What the task hands to the event bus. */
  datatype Event = TradeEvent(trade: Trade) | MarketDataError(listing: Listing, cause: string)

  /** The resume point: last trade time and last remote id. */
  datatype Cursor = Cursor(time: int, id: int)

  /** An exception escaping `run()` after its `finally` block. */
  datatype Escape = NumberFormat(input: string) | Unchecked(cause: string)

  datatype RunOutcome = Completed | Thrown(escape: Escape)

  predicate Parses(t: VenueTrade) {
    ParseLong(t.id).Some?
  }

  function IdOf(t: VenueTrade): int
    requires Parses(t)
  {
    ParseLong(t.id).value
  }

  predicate AllParse(ts: seq<VenueTrade>) {
    forall k :: 0 <= k < |ts| ==> Parses(ts[k])
  }

  /** Every id parses, exceeds `lo`, and the ids strictly increase along the sequence. */
  predicate IncreasingAbove(lo: int, ts: seq<VenueTrade>) {
    AllParse(ts)
    && (forall k :: 0 <= k < |ts| ==> lo < IdOf(ts[k]))
    && (forall i, j :: 0 <= i < j < |ts| ==> IdOf(ts[i]) < IdOf(ts[j]))
  }

  /** The trade record built from a venue trade for `listing`. */
  function ToTrade(listing: Listing, t: VenueTrade): Trade {
    Trade(listing, t.timestamp, t.id, t.price, t.amount)
  }

  /** The events published for a sequence of new venue trades, one per trade, in order. */
  function TradeEvents(listing: Listing, ts: seq<VenueTrade>): (es: seq<Event>)
    ensures |es| == |ts|
    ensures forall k :: 0 <= k < |ts| ==> es[k] == TradeEvent(ToTrade(listing, ts[k]))
  {
    if ts == [] then [] else TradeEvents(listing, ts[..|ts| - 1]) + [TradeEvent(ToTrade(listing, ts[|ts| - 1]))]
  }

  // ---------------------------------------------------------------------------
  // Cursor recovery (the task's constructor)
  // ---------------------------------------------------------------------------

  /**
   * The cursor the constructor's loop builds from the trades its query returns:
   * the time is raised to any larger trade time and the id to any larger remote id,
   * each starting from 0; a remote key that `Long.valueOf` rejects aborts the
   * construction with that key.
   */
  function Recovered(history: seq<Trade>): (r: Result<Cursor, string>)
    ensures r.Success? ==> 0 <= r.value.time && 0 <= r.value.id <= MaxLong
    decreases |history|
  {
    if history == [] then Success(Cursor(0, 0))
    else
      match Recovered(history[..|history| - 1])
      case Failure(key) => Failure(key)
      case Success(c) =>
        var t := history[|history| - 1];
        var time := if t.time > c.time then t.time else c.time;
        match ParseLong(t.remoteKey)
        case None => Failure(t.remoteKey)
        case Some(id) => Success(Cursor(time, if id > c.id then id else c.id))
  }

  predicate KeysParse(history: seq<Trade>) {
    forall k :: 0 <= k < |history| ==> ParseLong(history[k].remoteKey).Some?
  }

  /** Position `j` holds the first remote key that does not parse. */
  predicate FirstBadKeyAt(history: seq<Trade>, j: int) {
    0 <= j < |history| && KeysParse(history[..j]) && ParseLong(history[j].remoteKey).None?
  }

  /** A failure in a prefix is the failure of the whole history. */
  lemma {:induction false} RecoveredFailureSticks(history: seq<Trade>, i: nat)
    requires i <= |history|
    requires Recovered(history[..i]).Failure?
    ensures Recovered(history) == Recovered(history[..i])
    decreases |history| - i
  {
    if i < |history| {
      var next := history[..i + 1];
      assert next[..i] == history[..i];
      RecoveredFailureSticks(history, i + 1);
    } else {
      assert history[..i] == history;
    }
  }

  /** Recovery succeeds exactly when every remote key parses. */
  lemma {:induction false} RecoveredSucceedsIffKeysParse(history: seq<Trade>)
    ensures Recovered(history).Success? <==> KeysParse(history)
    decreases |history|
  {
    if history != [] {
      var init := history[..|history| - 1];
      assert forall k :: 0 <= k < |init| ==> init[k] == history[k];
      RecoveredSucceedsIffKeysParse(init);
    }
  }

  /** A failed recovery names the first remote key that does not parse. */
  lemma {:induction false} RecoveredFailsAtFirstBadKey(history: seq<Trade>)
    requires Recovered(history).Failure?
    ensures exists j :: FirstBadKeyAt(history, j) && Recovered(history).error == history[j].remoteKey
    decreases |history|
  {
    var n := |history| - 1;
    var init := history[..n];
    if Recovered(init).Failure? {
      RecoveredFailsAtFirstBadKey(init);
      var j :| FirstBadKeyAt(init, j) && Recovered(init).error == init[j].remoteKey;
      assert init[..j] == history[..j];
    } else {
      RecoveredSucceedsIffKeysParse(init);
      assert init == history[..n];
    }
  }

  /** The recovered time is the largest of 0 and all trade times. */
  lemma {:induction false} RecoveredTimeIsMax(history: seq<Trade>)
    requires Recovered(history).Success?
    ensures 0 <= Recovered(history).value.time
    ensures forall k :: 0 <= k < |history| ==> history[k].time <= Recovered(history).value.time
    ensures Recovered(history).value.time == 0
      || exists k :: 0 <= k < |history| && history[k].time == Recovered(history).value.time
    decreases |history|
  {
    if history != [] {
      var n := |history| - 1;
      var init := history[..n];
      assert forall k :: 0 <= k < n ==> init[k] == history[k];
      RecoveredTimeIsMax(init);
      var c := Recovered(history).value;
      if c.time != 0 && c.time != history[n].time {
        var k :| 0 <= k < n && init[k].time == c.time;
        assert history[k].time == c.time;
      }
    }
  }

  /** The recovered id is the largest of 0 and all remote ids. */
  lemma {:induction false} RecoveredIdIsMax(history: seq<Trade>)
    requires Recovered(history).Success?
    ensures KeysParse(history)
    ensures 0 <= Recovered(history).value.id
    ensures forall k :: 0 <= k < |history| ==> ParseLong(history[k].remoteKey).value <= Recovered(history).value.id
    ensures Recovered(history).value.id == 0
      || exists k :: 0 <= k < |history| && ParseLong(history[k].remoteKey) == Some(Recovered(history).value.id)
    decreases |history|
  {
    RecoveredSucceedsIffKeysParse(history);
    if history != [] {
      var n := |history| - 1;
      var init := history[..n];
      assert Recovered(init).Success?;
      RecoveredIdIsMax(init);
      var prev := Recovered(init).value.id;
      var last := ParseLong(history[n].remoteKey);
      var c := Recovered(history).value;
      assert c.id == if last.value > prev then last.value else prev;
      forall k | 0 <= k < |history|
        ensures ParseLong(history[k].remoteKey).value <= c.id
      {
        if k < n {
          assert history[k] == init[k];
        } else {
          assert ParseLong(history[k].remoteKey) == last;
        }
      }
      if c.id != 0 && c.id != last.value {
        var k :| 0 <= k < n && ParseLong(init[k].remoteKey) == Some(c.id);
        assert history[k] == init[k];
      }
    }
  }

  /**
   * Recovery succeeds exactly when every remote key parses; the recovered time is
   * the largest of 0 and all trade times, and the recovered id the largest of 0 and
   * all remote ids, each maximum taken on its own (with no trades both are 0).
   * A failure names the first key that does not parse.
   */
  lemma RecoveredIsMax(history: seq<Trade>)
    ensures Recovered(history).Success? <==> KeysParse(history)
    ensures Recovered(history).Success? ==>
      var c := Recovered(history).value;
      && 0 <= c.time
      && (forall k :: 0 <= k < |history| ==> history[k].time <= c.time)
      && (c.time == 0 || exists k :: 0 <= k < |history| && history[k].time == c.time)
      && 0 <= c.id
      && (forall k :: 0 <= k < |history| ==> ParseLong(history[k].remoteKey).value <= c.id)
      && (c.id == 0 || exists k :: 0 <= k < |history| && ParseLong(history[k].remoteKey) == Some(c.id))
    ensures Recovered(history).Failure? ==>
      exists j :: FirstBadKeyAt(history, j) && Recovered(history).error == history[j].remoteKey
  {
    RecoveredSucceedsIffKeysParse(history);
    if Recovered(history).Success? {
      RecoveredTimeIsMax(history);
      RecoveredIdIsMax(history);
    } else {
      RecoveredFailsAtFirstBadKey(history);
    }
  }

  /**
   * The loop takes the two maxima separately: here they come from different trades.
   * The constructor's query returns only the trades at the listing's latest time, so
   * in the running program the recovered time is that time and the recovered id is
   * the largest id among those trades, not over the whole history.
   */
  lemma RecoveredMaximaAreIndependent(l: Listing, p: Decimal)
    ensures Recovered([Trade(l, 200, "5", p, p), Trade(l, 100, "9", p, p)]) == Success(Cursor(200, 9))
  {
    var h := [Trade(l, 200, "5", p, p), Trade(l, 100, "9", p, p)];
    assert ParseLong("5") == Some(5) by { assert "5"[..0] == []; }
    assert ParseLong("9") == Some(9) by { assert "9"[..0] == []; }
    assert h[..1][..0] == [];
    assert Recovered(h[..1]) == Success(Cursor(200, 5));
    assert h[..|h| - 1] == h[..1];
  }

  /**
   * The constructor's loop over the query result. It changes nothing but its
   * result: the cursor of `Recovered`, or the key that failed to parse.
   */
  method RecoverCursor(history: seq<Trade>) returns (r: Result<Cursor, string>)
    ensures r == Recovered(history)
    ensures r.Success? <==> KeysParse(history)
    ensures r.Success? ==> 0 <= r.value.time && forall k :: 0 <= k < |history| ==> history[k].time <= r.value.time
    ensures r.Success? ==> 0 <= r.value.id && forall k :: 0 <= k < |history| ==> ParseLong(history[k].remoteKey).value <= r.value.id
  {
    var lastTradeTime, lastTradeId := 0, 0;
    var i := 0;
    while i < |history|
      invariant 0 <= i <= |history|
      invariant Recovered(history[..i]) == Success(Cursor(lastTradeTime, lastTradeId))
    {
      var trade := history[i];
      assert history[..i + 1][..i] == history[..i];
      if trade.time > lastTradeTime {
        lastTradeTime := trade.time;
      }
      var remoteId := ParseLong(trade.remoteKey);
      if remoteId.None? {
        RecoveredFailureSticks(history, i + 1);
        RecoveredIsMax(history);
        return Failure(trade.remoteKey);
      }
      if remoteId.value > lastTradeId {
        lastTradeId := remoteId.value;
      }
      i := i + 1;
    }
    assert history[..|history|] == history;
    RecoveredIsMax(history);
    r := Success(Cursor(lastTradeTime, lastTradeId));
  }

  // ---------------------------------------------------------------------------
  // One run: filter, publish, advance
  // ---------------------------------------------------------------------------

  /**
   * The state of the walk over a fetched batch: the trades published so far, the
   * cursor, and the id that failed to parse if the walk was cut short.
   */
  datatype Batch = Batch(published: seq<VenueTrade>, cursor: Cursor, badId: Option<string>)

  /**
   * The walk `run()` does over fetched trades, in order: an unparsable id stops it;
   * a trade whose id exceeds the cursor id is published and moves the cursor to
   * its timestamp and id; any other trade is skipped.
   */
  function ProcessBatch(c: Cursor, trades: seq<VenueTrade>): (b: Batch)
    ensures |b.published| <= |trades|
    ensures b.cursor.id >= c.id
    decreases |trades|
  {
    if trades == [] then Batch([], c, None)
    else
      var prior := ProcessBatch(c, trades[..|trades| - 1]);
      if prior.badId.Some? then prior
      else
        var t := trades[|trades| - 1];
        match ParseLong(t.id)
        case None => prior.(badId := Some(t.id))
        case Some(id) =>
          if id > prior.cursor.id then Batch(prior.published + [t], Cursor(t.timestamp, id), None)
          else prior
  }

  /**
   * Reference definition of the new trades: those whose id exceeds `lo` and every
   * id before them in the batch (the batch's "record highs"), in batch order.
   */
  predicate IsRecord(lo: int, ts: seq<VenueTrade>, i: nat)
    requires AllParse(ts) && i < |ts|
  {
    lo < IdOf(ts[i]) && forall k :: 0 <= k < i ==> IdOf(ts[k]) < IdOf(ts[i])
  }

  function NewTrades(lo: int, ts: seq<VenueTrade>): seq<VenueTrade>
    requires AllParse(ts)
    decreases |ts|
  {
    if ts == [] then []
    else NewTrades(lo, ts[..|ts| - 1]) + (if IsRecord(lo, ts, |ts| - 1) then [ts[|ts| - 1]] else [])
  }

  /**
   * The cursor after a walk: unchanged if nothing was published, otherwise the
   * timestamp and id of the last published trade (so the time may be older than
   * before).
   */
  lemma {:induction false} BatchCursorFollowsPublished(c: Cursor, ts: seq<VenueTrade>)
    ensures AllParse(ProcessBatch(c, ts).published)
    ensures ProcessBatch(c, ts).published == [] ==> ProcessBatch(c, ts).cursor == c
    ensures ProcessBatch(c, ts).published != [] ==>
      var last := ProcessBatch(c, ts).published[|ProcessBatch(c, ts).published| - 1];
      ProcessBatch(c, ts).cursor == Cursor(last.timestamp, IdOf(last))
    decreases |ts|
  {
    if ts != [] {
      var prior := ProcessBatch(c, ts[..|ts| - 1]);
      BatchCursorFollowsPublished(c, ts[..|ts| - 1]);
      var t := ts[|ts| - 1];
      if prior.badId.None? && Parses(t) && IdOf(t) > prior.cursor.id {
        var p := prior.published + [t];
        assert ProcessBatch(c, ts) == Batch(p, Cursor(t.timestamp, IdOf(t)), None);
        assert forall k :: 0 <= k < |prior.published| ==> p[k] == prior.published[k];
      } else {
        assert ProcessBatch(c, ts).published == prior.published;
        assert ProcessBatch(c, ts).cursor == prior.cursor;
      }
    }
  }

  /**
   * What a walk publishes has ids above the starting cursor id, strictly
   * increasing, and none above the final cursor id, which never falls below the
   * starting one.
   */
  lemma {:induction false} BatchPublishesIncreasing(c: Cursor, ts: seq<VenueTrade>)
    ensures IncreasingAbove(c.id, ProcessBatch(c, ts).published)
    ensures forall k :: 0 <= k < |ProcessBatch(c, ts).published| ==>
      IdOf(ProcessBatch(c, ts).published[k]) <= ProcessBatch(c, ts).cursor.id
    ensures ProcessBatch(c, ts).cursor.id >= c.id
    decreases |ts|
  {
    if ts != [] {
      var prior := ProcessBatch(c, ts[..|ts| - 1]);
      BatchPublishesIncreasing(c, ts[..|ts| - 1]);
      var t := ts[|ts| - 1];
      if prior.badId.None? && Parses(t) && IdOf(t) > prior.cursor.id {
        var p := prior.published + [t];
        assert ProcessBatch(c, ts).published == p;
        assert forall k :: 0 <= k < |prior.published| ==> p[k] == prior.published[k];
        assert forall k :: 0 <= k < |p| ==> IdOf(p[k]) <= IdOf(t);
      }
    }
  }

  /**
   * Once all ids parse, the cursor id after the walk is the largest of the starting
   * id and all ids of the batch.
   */
  lemma {:induction false} BatchCursorIsMax(c: Cursor, ts: seq<VenueTrade>)
    requires AllParse(ts)
    ensures ProcessBatch(c, ts).badId.None?
    ensures c.id <= ProcessBatch(c, ts).cursor.id
    ensures forall k :: 0 <= k < |ts| ==> IdOf(ts[k]) <= ProcessBatch(c, ts).cursor.id
    ensures ProcessBatch(c, ts).cursor.id == c.id
      || exists k :: 0 <= k < |ts| && IdOf(ts[k]) == ProcessBatch(c, ts).cursor.id
    decreases |ts|
  {
    if ts != [] {
      var init := ts[..|ts| - 1];
      assert forall k :: 0 <= k < |init| ==> init[k] == ts[k];
      BatchCursorIsMax(c, init);
    }
  }

  /**
   * When every id parses, the walk publishes exactly the batch's record highs above
   * the cursor id, in batch order.
   */
  lemma {:induction false} BatchPublishesRecords(c: Cursor, ts: seq<VenueTrade>)
    requires AllParse(ts)
    ensures ProcessBatch(c, ts).badId.None?
    ensures ProcessBatch(c, ts).published == NewTrades(c.id, ts)
    decreases |ts|
  {
    if ts != [] {
      var n := |ts| - 1;
      var init := ts[..n];
      assert forall k :: 0 <= k < n ==> init[k] == ts[k];
      BatchPublishesRecords(c, init);
      BatchCursorIsMax(c, init);
      var m := ProcessBatch(c, init).cursor.id;
      if IdOf(ts[n]) > m {
        assert IsRecord(c.id, ts, n);
      } else if m == c.id {
        assert !IsRecord(c.id, ts, n);
      } else {
        var k :| 0 <= k < n && IdOf(init[k]) == m;
        assert !IsRecord(c.id, ts, n);
      }
    }
  }

  /** A walk cut short names an id of the batch that does not parse. */
  lemma {:induction false} BadIdIsInBatch(c: Cursor, ts: seq<VenueTrade>)
    requires ProcessBatch(c, ts).badId.Some?
    ensures exists k :: 0 <= k < |ts| && ts[k].id == ProcessBatch(c, ts).badId.value && !Parses(ts[k])
    decreases |ts|
  {
    var n := |ts| - 1;
    var init := ts[..n];
    if ProcessBatch(c, init).badId.Some? {
      BadIdIsInBatch(c, init);
      var k :| 0 <= k < n && init[k].id == ProcessBatch(c, init).badId.value && !Parses(init[k]);
      assert ts[k] == init[k];
    }
  }

  /** A walk over a batch extending one that was already cut short is that walk. */
  lemma {:induction false} BadIdSticks(c: Cursor, ts: seq<VenueTrade>, i: nat)
    requires i <= |ts|
    requires ProcessBatch(c, ts[..i]).badId.Some?
    ensures ProcessBatch(c, ts) == ProcessBatch(c, ts[..i])
    decreases |ts| - i
  {
    if i < |ts| {
      assert ts[..i + 1][..i] == ts[..i];
      BadIdSticks(c, ts, i + 1);
    } else {
      assert ts[..i] == ts;
    }
  }

  /**
   * An id that does not parse at position j cuts the walk there: what was published
   * and the cursor are those of the first j trades, which stay published.
   */
  lemma BatchStopsAtBadId(c: Cursor, ts: seq<VenueTrade>, j: nat)
    requires j < |ts| && AllParse(ts[..j]) && !Parses(ts[j])
    ensures ProcessBatch(c, ts).badId == Some(ts[j].id)
    ensures ProcessBatch(c, ts).published == NewTrades(c.id, ts[..j])
    ensures ProcessBatch(c, ts).cursor == ProcessBatch(c, ts[..j]).cursor
  {
    BatchPublishesRecords(c, ts[..j]);
    assert ts[..j + 1][..j] == ts[..j];
    BadIdSticks(c, ts, j + 1);
  }

  /** Cursor id 7 and ids 5, 7, 9, 12: exactly the trades 9 and 12 are published, and the cursor ends at 12. */
  lemma ForwardsOnlyNewerIds(t: int, p: Decimal)
    ensures var ts := [VenueTrade("5", 1, p, p), VenueTrade("7", 2, p, p), VenueTrade("9", 3, p, p), VenueTrade("12", 4, p, p)];
      ProcessBatch(Cursor(t, 7), ts) == Batch([ts[2], ts[3]], Cursor(4, 12), None)
  {
    var ts := [VenueTrade("5", 1, p, p), VenueTrade("7", 2, p, p), VenueTrade("9", 3, p, p), VenueTrade("12", 4, p, p)];
    assert ParseLong("5") == Some(5) by { assert "5"[..0] == []; }
    assert ParseLong("7") == Some(7) by { assert "7"[..0] == []; }
    assert ParseLong("9") == Some(9) by { assert "9"[..0] == []; }
    assert ParseLong("12") == Some(12) by { assert "12"[..1] == "1"; assert "1"[..0] == []; }
    assert ts[..1][..0] == [];
    assert ProcessBatch(Cursor(t, 7), ts[..1]) == Batch([], Cursor(t, 7), None);
    assert ts[..2][..1] == ts[..1];
    assert ProcessBatch(Cursor(t, 7), ts[..2]) == Batch([], Cursor(t, 7), None);
    assert ts[..3][..2] == ts[..2];
    assert ProcessBatch(Cursor(t, 7), ts[..3]) == Batch([ts[2]], Cursor(3, 9), None);
    assert ts[..|ts| - 1] == ts[..3];
  }

  /** The resume time follows the last published trade even when that trade is older. */
  lemma CursorTimeCanMoveBack(p: Decimal)
    ensures ProcessBatch(Cursor(500, 7), [VenueTrade("9", 100, p, p)]).cursor == Cursor(100, 9)
  {
    var ts := [VenueTrade("9", 100, p, p)];
    assert ParseLong("9") == Some(9) by { assert "9"[..0] == []; }
    assert ts[..0] == [];
  }

  // ---------------------------------------------------------------------------
  // Many runs
  // ---------------------------------------------------------------------------

  function CursorAfter(c: Cursor, f: FetchResult): Cursor {
    if f.Fetched? then ProcessBatch(c, f.trades).cursor else c
  }

  function PublishedBy(c: Cursor, f: FetchResult): seq<VenueTrade> {
    if f.Fetched? then ProcessBatch(c, f.trades).published else []
  }

  /** The trades a task starting at cursor `c` publishes over runs whose fetches gave `fs`. */
  function LifetimePublished(c: Cursor, fs: seq<FetchResult>): seq<VenueTrade>
    decreases |fs|
  {
    if fs == [] then [] else PublishedBy(c, fs[0]) + LifetimePublished(CursorAfter(c, fs[0]), fs[1..])
  }

  /**
   * Over the lifetime of a task, whatever the venue returns and however runs fail,
   * the ids it publishes strictly increase and all exceed the recovered id.
   */
  lemma {:induction false} LifetimeIdsIncrease(c: Cursor, fs: seq<FetchResult>)
    ensures IncreasingAbove(c.id, LifetimePublished(c, fs))
    decreases |fs|
  {
    if fs != [] {
      var c1 := CursorAfter(c, fs[0]);
      var p := PublishedBy(c, fs[0]);
      var rest := LifetimePublished(c1, fs[1..]);
      LifetimeIdsIncrease(c1, fs[1..]);
      if fs[0].Fetched? {
        BatchPublishesIncreasing(c, fs[0].trades);
      }
      IncreasingConcat(c.id, c1.id, p, rest);
    }
  }

  /** Joining two increasing runs, the first bounded by where the second starts. */
  lemma IncreasingConcat(lo: int, mid: int, p: seq<VenueTrade>, q: seq<VenueTrade>)
    requires IncreasingAbove(lo, p) && IncreasingAbove(mid, q) && lo <= mid
    requires forall k :: 0 <= k < |p| ==> IdOf(p[k]) <= mid
    ensures IncreasingAbove(lo, p + q)
  {
    var all := p + q;
    assert forall k :: 0 <= k < |p| ==> all[k] == p[k];
    assert forall k :: |p| <= k < |all| ==> all[k] == q[k - |p|];
  }

  // ---------------------------------------------------------------------------
  // The collaborators: event bus and rate limiter
  // ---------------------------------------------------------------------------

  /** The event bus, seen as the sequence of events published to it. */
  class EventBus {
    var events: seq<Event>

    constructor ()
      ensures events == []
    {
      events := [];
    }

    method Publish(e: Event)
      modifies this
      ensures events == old(events) + [e]
    {
      events := events + [e];
    }
  }

  /** The rate limiter, seen only as the queue of tasks submitted to it. */
  class RateLimiter {
    var submitted: seq<FetchTradesTask>

    constructor ()
      ensures submitted == []
    {
      submitted := [];
    }

    method Execute(task: FetchTradesTask)
      modifies this
      ensures submitted == old(submitted) + [task]
    {
      submitted := submitted + [task];
    }
  }

  // ---------------------------------------------------------------------------
  // The task
  // ---------------------------------------------------------------------------

  class FetchTradesTask {
    const bus: EventBus
    const listing: Listing
    const limiter: RateLimiter
    var lastTradeTime: int
    var lastTradeId: int

    /** The cursor held in the task's two fields. */
    function CurrentCursor(): Cursor
      reads this
    {
      Cursor(lastTradeTime, lastTradeId)
    }

    /** Starts the task at a cursor recovered by `RecoverCursor`. */
    constructor (bus: EventBus, listing: Listing, limiter: RateLimiter, start: Cursor)
      ensures this.bus == bus && this.listing == listing && this.limiter == limiter
      ensures CurrentCursor() == start
    {
      this.bus := bus;
      this.listing := listing;
      this.limiter := limiter;
      lastTradeTime := start.time;
      lastTradeId := start.id;
    }

    /**
     * The loop of `run()` over fetched trades: each trade whose id exceeds the
     * cursor id is published and moves the cursor; an id that does not parse ends
     * the loop with a NumberFormatException, leaving earlier trades published.
     */
    method PublishNewTrades(trades: seq<VenueTrade>) returns (outcome: RunOutcome)
      modifies this, bus
      ensures var b := ProcessBatch(old(CurrentCursor()), trades);
        && CurrentCursor() == b.cursor
        && bus.events == old(bus.events) + TradeEvents(listing, b.published)
        && outcome == (if b.badId.Some? then Thrown(NumberFormat(b.badId.value)) else Completed)
    {
      ghost var start := CurrentCursor();
      outcome := Completed;
      var i := 0;
      while i < |trades|
        invariant 0 <= i <= |trades|
        invariant ProcessBatch(start, trades[..i]).badId.None?
        invariant CurrentCursor() == ProcessBatch(start, trades[..i]).cursor
        invariant bus.events == old(bus.events) + TradeEvents(listing, ProcessBatch(start, trades[..i]).published)
      {
        var trade := trades[i];
        assert trades[..i + 1][..i] == trades[..i];
        var remoteId := ParseLong(trade.id);
        if remoteId.None? {
          // NumberFormatException
          assert ProcessBatch(start, trades[..i + 1]) == ProcessBatch(start, trades[..i]).(badId := Some(trade.id));
          BadIdSticks(start, trades, i + 1);
          outcome := Thrown(NumberFormat(trade.id));
          return;
        }
        if remoteId.value > lastTradeId {
          var published := ProcessBatch(start, trades[..i]).published;
          assert TradeEvents(listing, published + [trade])[..|published|] == TradeEvents(listing, published);
          bus.Publish(TradeEvent(ToTrade(listing, trade)));
          lastTradeTime := trade.timestamp;
          lastTradeId := remoteId.value;
        }
        i := i + 1;
      }
      assert trades[..i] == trades;
    }

    /**
     * One run. The venue is asked for trades since the cursor time as it stood at the
     * start; on success the new trades are published in order and the cursor follows
     * the walk of `ProcessBatch` (an id that does not parse leaves what was already
     * published and escapes as NumberFormatException); an IOException publishes one
     * error event for the listing and leaves the cursor; any other exception escapes
     * with the cursor and the bus untouched. On every path the task is re-submitted
     * exactly once, and the cursor id never decreases.
     */
    method Run(venue: int -> FetchResult) returns (outcome: RunOutcome)
      modifies this, bus, limiter
      ensures limiter.submitted == old(limiter.submitted) + [this]
      ensures lastTradeId >= old(lastTradeId)
      ensures venue(old(lastTradeTime)).Fetched? ==>
        var b := ProcessBatch(old(CurrentCursor()), venue(old(lastTradeTime)).trades);
        && CurrentCursor() == b.cursor
        && bus.events == old(bus.events) + TradeEvents(listing, b.published)
        && outcome == (if b.badId.Some? then Thrown(NumberFormat(b.badId.value)) else Completed)
      ensures venue(old(lastTradeTime)).IoFailure? ==>
        && CurrentCursor() == old(CurrentCursor())
        && bus.events == old(bus.events) + [MarketDataError(listing, venue(old(lastTradeTime)).cause)]
        && outcome == Completed
      ensures venue(old(lastTradeTime)).UncheckedFailure? ==>
        && CurrentCursor() == old(CurrentCursor())
        && bus.events == old(bus.events)
        && outcome == Thrown(Unchecked(venue(old(lastTradeTime)).cause))
    {
      var fetched := venue(lastTradeTime);
      match fetched {
        case Fetched(trades) =>
          BatchPublishesIncreasing(CurrentCursor(), trades);
          outcome := PublishNewTrades(trades);
        case IoFailure(cause) =>
          bus.Publish(MarketDataError(listing, cause));
          outcome := Completed;
        case UncheckedFailure(cause) =>
          outcome := Thrown(Unchecked(cause));
      }
      // finally: requeue
      limiter.Execute(this);
    }
  }

  /** Why a task could not be built: the persistence query threw, or a remote key is not a `long`. */
  datatype ConstructionError = QueryFailed(cause: string) | BadRemoteKey(key: string)

  /**
   * Creating the task for a listing: the query for its latest persisted trades may
   * fail, and recovery fails on a remote key that does not parse; both abort
   * construction. Otherwise the task starts at the recovered cursor.
   */
  method NewFetchTradesTask(bus: EventBus, listing: Listing, limiter: RateLimiter, latest: Result<seq<Trade>, string>)
    returns (r: Result<FetchTradesTask, ConstructionError>)
    ensures latest.Failure? ==> r == Failure(QueryFailed(latest.error))
    ensures latest.Success? && Recovered(latest.value).Failure? ==> r == Failure(BadRemoteKey(Recovered(latest.value).error))
    ensures latest.Success? && Recovered(latest.value).Success? ==>
      && r.Success? && fresh(r.value)
      && r.value.bus == bus && r.value.listing == listing && r.value.limiter == limiter
      && r.value.CurrentCursor() == Recovered(latest.value).value
  {
    if latest.Failure? {
      return Failure(QueryFailed(latest.error));
    }
    var recovered := RecoverCursor(latest.value);
    if recovered.Failure? {
      return Failure(BadRemoteKey(recovered.error));
    }
    var task := new FetchTradesTask(bus, listing, limiter, recovered.value);
    r := Success(task);
  }
}
