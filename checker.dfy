/**
 * The background checker (`checker_loop`). One pass of its `while True` is a
 * cycle: list the distinct watched dates, open the airline's site, probe
 * each date once and, when a probe finds tickets, message every user watching
 * that date; then sleep for the check interval. The browser, the remote API
 * and Telegram are oracles; the cycle returns the log of what it did.
 *
 * Neither query the cycle issues has an ORDER BY, so SQLite may list dates
 * and watchers in any order. The log of a pass is therefore specified for
 * any listing the queries may return (`PassLog`), and the properties of a
 * cycle are proved for every such listing. The answers the store model
 * gives (`DistinctDates`, `UsersOf`) are one instance (`CycleLog`), which
 * `RunCycle` implements.
 */
module Checker {
  import opened Watches
  import opened Probe

  /** Seconds slept at the end of every cycle (`CHECK_INTERVAL`). */
  const CHECK_INTERVAL: nat := 3600
  /** Seconds slept after the first page load, before the first probe. */
  const PAGE_SETTLE: nat := 15
  /** Seconds slept after each probe. */
  const PROBE_PAUSE: nat := 5

  /** The outside world for one cycle. */
  datatype Oracle = Oracle(
    setupFails: bool,                 // `init_driver` or the first `driver.get` raises
    fetch: string -> ScriptResult,    // what the search script yields for a date
    delivers: (int, string) -> bool)  // whether `send_message` to a user about a date succeeds

  datatype Event =
    | Probed(date: string, found: bool)
    | Sent(user: int, date: string, delivered: bool)   // one `send_message` attempt
    | CycleFailed                                      // the outer `except` caught a setup failure
    | Slept(seconds: nat)

  // ---------------------------------------------------------------------------
  // What the two unordered queries may answer
  // ---------------------------------------------------------------------------

  /** `dates` is a possible answer of `SELECT DISTINCT date FROM watches`:
      every watched date once, nothing else, in any order. */
  ghost predicate ListsDates(rows: seq<Watch>, dates: seq<string>)
  {
    NoDuplicates(dates) && forall d :: d in dates <==> d in WatchedDates(rows)
  }

  /** `watchers(d)` is a possible answer of `SELECT user_id FROM watches WHERE
      date = d` for every d: each watcher once (one row per pair, by
      UNIQUE(user_id, date)), nobody else, in any order. */
  ghost predicate ListsWatchers(rows: seq<Watch>, watchers: string -> seq<int>)
  {
    forall d :: NoDuplicates(watchers(d)) && forall u :: u in watchers(d) <==> Watch(u, d) in rows
  }

  /** The store's own answer to the watchers query. */
  function QueriedWatchers(rows: seq<Watch>): string -> seq<int>
  {
    d => UsersOf(rows, d)
  }

  /** The store's answers are possible answers. */
  lemma QueriesAreListings(rows: seq<Watch>)
    requires NoDuplicates(rows)
    ensures ListsDates(rows, DistinctDates(rows))
    ensures ListsWatchers(rows, QueriedWatchers(rows))
  {
  }

  /** No rows, no dates to list; and the other way round. */
  lemma ListsDatesEmpty(rows: seq<Watch>, dates: seq<string>)
    requires ListsDates(rows, dates)
    ensures dates == [] <==> rows == []
  {
    if rows != [] {
      assert rows[0].date in WatchedDates(rows);
    }
    if dates != [] {
      assert dates[0] in WatchedDates(rows);
    }
  }

  // ---------------------------------------------------------------------------
  // What one cycle does, as a function of the query answers and the oracle
  // ---------------------------------------------------------------------------

  /** One send attempt per user, in order; a failed send is logged and the next user is tried. */
  function Fanout(users: seq<int>, date: string, delivers: (int, string) -> bool): seq<Event>
    decreases |users|
  {
    if users == [] then []
    else
      var last := users[|users| - 1];
      Fanout(users[..|users| - 1], date, delivers) + [Sent(last, date, delivers(last, date))]
  }

  /** `check_date(driver, date)`: the search script's outcome for `date`, classified. */
  function CheckDate(o: Oracle, date: string): bool
  {
    Classify(o.fetch(date))
  }

  /** The events of one date: its probe, the fan-out to `users` when tickets
      were found, the pause. */
  function DateLog(date: string, users: seq<int>, o: Oracle): seq<Event>
  {
    var found := CheckDate(o, date);
    [Probed(date, found)]
      + (if found then Fanout(users, date, o.delivers) else [])
      + [Slept(PROBE_PAUSE)]
  }

  /** The dates probed in the given order. */
  function ProbeAll(dates: seq<string>, watchers: string -> seq<int>, o: Oracle): seq<Event>
    decreases |dates|
  {
    if dates == [] then []
    else
      var last := dates[|dates| - 1];
      ProbeAll(dates[..|dates| - 1], watchers, o) + DateLog(last, watchers(last), o)
  }

  /** One pass of the loop, given the answers of the two queries: nothing to
      check, a failed browser setup, or a full pass. */
  function PassLog(dates: seq<string>, watchers: string -> seq<int>, o: Oracle): seq<Event>
  {
    if dates == [] then [Slept(CHECK_INTERVAL)]
    else if o.setupFails then [CycleFailed, Slept(CHECK_INTERVAL)]
    else [Slept(PAGE_SETTLE)] + ProbeAll(dates, watchers, o) + [Slept(CHECK_INTERVAL)]
  }

  /** One pass over the store, with the store's own answers to the queries. */
  function CycleLog(rows: seq<Watch>, o: Oracle): seq<Event>
  {
    PassLog(DistinctDates(rows), QueriedWatchers(rows), o)
  }

  /** Several cycles in a row over an unchanged table, one oracle per cycle. */
  function CyclesLog(rows: seq<Watch>, oracles: seq<Oracle>): seq<Event>
    decreases |oracles|
  {
    if oracles == [] then []
    else CyclesLog(rows, oracles[..|oracles| - 1]) + CycleLog(rows, oracles[|oracles| - 1])
  }

  // ---------------------------------------------------------------------------
  // Reading a log
  // ---------------------------------------------------------------------------

  /** The dates probed, in order. */
  function Probes(log: seq<Event>): seq<string>
    decreases |log|
  {
    if log == [] then []
    else
      var last := log[|log| - 1];
      Probes(log[..|log| - 1]) + (if last.Probed? then [last.date] else [])
  }

  /** The (user, date) pairs a message was sent for, in order. */
  function Sends(log: seq<Event>): seq<Watch>
    decreases |log|
  {
    if log == [] then []
    else
      var last := log[|log| - 1];
      Sends(log[..|log| - 1]) + (if last.Sent? then [Watch(last.user, last.date)] else [])
  }

  lemma {:induction false} ProbesAppend(a: seq<Event>, b: seq<Event>)
    ensures Probes(a + b) == Probes(a) + Probes(b)
    decreases |b|
  {
    if b == [] {
      assert a + b == a;
    } else {
      var c, b' := a + b, b[..|b| - 1];
      assert c[..|c| - 1] == a + b';
      assert c[|c| - 1] == b[|b| - 1];
      ProbesAppend(a, b');
    }
  }

  lemma {:induction false} SendsAppend(a: seq<Event>, b: seq<Event>)
    ensures Sends(a + b) == Sends(a) + Sends(b)
    decreases |b|
  {
    if b == [] {
      assert a + b == a;
    } else {
      var c, b' := a + b, b[..|b| - 1];
      assert c[..|c| - 1] == a + b';
      assert c[|c| - 1] == b[|b| - 1];
      SendsAppend(a, b');
    }
  }

  lemma ProbesSingle(e: Event)
    ensures Probes([e]) == if e.Probed? then [e.date] else []
  {
    assert [e][..0] == [];
  }

  lemma SendsSingle(e: Event)
    ensures Sends([e]) == if e.Sent? then [Watch(e.user, e.date)] else []
  {
    assert [e][..0] == [];
  }

  /** Reading a log framed by two single events. */
  lemma ProbesFramed(first: Event, middle: seq<Event>, last: Event)
    ensures Probes([first] + middle + [last]) == Probes([first]) + Probes(middle) + Probes([last])
  {
    ProbesAppend([first] + middle, [last]);
    ProbesAppend([first], middle);
  }

  lemma SendsFramed(first: Event, middle: seq<Event>, last: Event)
    ensures Sends([first] + middle + [last]) == Sends([first]) + Sends(middle) + Sends([last])
  {
    SendsAppend([first] + middle, [last]);
    SendsAppend([first], middle);
  }

  /** The events of one date, read back: one probe, and the fan-out's sends. */
  lemma DateEvents(date: string, found: bool, fan: seq<Event>)
    ensures Probes([Probed(date, found)] + fan + [Slept(PROBE_PAUSE)]) == [date] + Probes(fan)
    ensures Sends([Probed(date, found)] + fan + [Slept(PROBE_PAUSE)]) == Sends(fan)
  {
    ProbesFramed(Probed(date, found), fan, Slept(PROBE_PAUSE));
    ProbesSingle(Probed(date, found));
    ProbesSingle(Slept(PROBE_PAUSE));
    SendsFramed(Probed(date, found), fan, Slept(PROBE_PAUSE));
    SendsSingle(Probed(date, found));
    SendsSingle(Slept(PROBE_PAUSE));
  }

  lemma NoDuplicatesAppend<T>(a: seq<T>, b: seq<T>)
    requires NoDuplicates(a) && NoDuplicates(b)
    requires forall x :: x in a ==> x !in b
    ensures NoDuplicates(a + b)
  {
    var c := a + b;
    forall i, j | 0 <= i < j < |c| ensures c[i] != c[j] {
      if i < |a| && |a| <= j {
        assert c[i] in a && c[j] in b;
      }
    }
  }

  // ---------------------------------------------------------------------------
  // The cycle, step by step
  // ---------------------------------------------------------------------------

  /** The fan-out after a positive probe: `get_users_for_date`, then one
      `send_message` per user, each failure caught and the loop continued. */
  method NotifyWatchers(store: Store, date: string, delivers: (int, string) -> bool) returns (events: seq<Event>)
    ensures events == Fanout(UsersOf(store.rows, date), date, delivers)
  {
    var users := store.UsersForDate(date);
    events := [];
    var j := 0;
    while j < |users|
      invariant 0 <= j <= |users|
      invariant events == Fanout(users[..j], date, delivers)
    {
      assert users[..j + 1][..j] == users[..j];
      var delivered := delivers(users[j], date);
      events := events + [Sent(users[j], date, delivered)];
      j := j + 1;
    }
    assert users[..j] == users;
  }

  /** One turn of the `for date in dates_to_check` loop: the probe, the
      fan-out when tickets were found, the pause. */
  method ProbeDate(store: Store, date: string, o: Oracle) returns (events: seq<Event>)
    ensures events == DateLog(date, UsersOf(store.rows, date), o)
  {
    var found := CheckDate(o, date);
    var sends: seq<Event> := [];
    if found {
      sends := NotifyWatchers(store, date, o.delivers);
    }
    events := [Probed(date, found)] + sends + [Slept(PROBE_PAUSE)];
  }

  lemma ProbeAllStep(dates: seq<string>, watchers: string -> seq<int>, i: nat, o: Oracle)
    requires i < |dates|
    ensures ProbeAll(dates[..i + 1], watchers, o) == ProbeAll(dates[..i], watchers, o) + DateLog(dates[i], watchers(dates[i]), o)
  {
    assert dates[..i + 1][..i] == dates[..i];
  }

  /** One pass of `checker_loop` over the store. The store is only read. */
  method RunCycle(store: Store, o: Oracle) returns (log: seq<Event>)
    ensures log == CycleLog(store.rows, o)
  {
    ghost var rows := store.rows;
    ghost var watchers := QueriedWatchers(rows);
    var dates := store.AllUniqueDates();
    if dates == [] {
      log := [Slept(CHECK_INTERVAL)];
      return;
    }
    if o.setupFails {
      log := [CycleFailed, Slept(CHECK_INTERVAL)];
      return;
    }
    // The page is opened and left to settle, then each date is probed in turn.
    var probes: seq<Event> := [];
    var i := 0;
    while i < |dates|
      invariant 0 <= i <= |dates|
      invariant probes == ProbeAll(dates[..i], watchers, o)
    {
      var events := ProbeDate(store, dates[i], o);
      assert watchers(dates[i]) == UsersOf(rows, dates[i]);
      probes := probes + events;
      ProbeAllStep(dates, watchers, i, o);
      i := i + 1;
    }
    assert dates[..i] == dates;
    log := [Slept(PAGE_SETTLE)] + probes + [Slept(CHECK_INTERVAL)];
  }

  /** A bounded run of `checker_loop`: one cycle per oracle. */
  method RunCycles(store: Store, oracles: seq<Oracle>) returns (log: seq<Event>)
    ensures log == CyclesLog(store.rows, oracles)
  {
    log := [];
    var k := 0;
    while k < |oracles|
      invariant 0 <= k <= |oracles|
      invariant log == CyclesLog(store.rows, oracles[..k])
    {
      assert oracles[..k + 1][..k] == oracles[..k];
      var cycle := RunCycle(store, oracles[k]);
      log := log + cycle;
      k := k + 1;
    }
    assert oracles[..k] == oracles;
  }

  // ---------------------------------------------------------------------------
  // Properties of a cycle, for every order the queries may answer in
  // ---------------------------------------------------------------------------

  /** A fan-out is one send per watcher of the date, each logged with its own outcome. */
  lemma {:induction false} FanoutEvents(users: seq<int>, date: string, delivers: (int, string) -> bool)
    ensures forall e :: e in Fanout(users, date, delivers) ==>
      e.Sent? && e.date == date && e.user in users && e.delivered == delivers(e.user, date)
    ensures forall u :: u in users ==> Sent(u, date, delivers(u, date)) in Fanout(users, date, delivers)
    decreases |users|
  {
    if users != [] {
      var init := users[..|users| - 1];
      FanoutEvents(init, date, delivers);
      assert users == init + [users[|users| - 1]];
    }
  }

  lemma {:induction false} ProbesOfFanout(users: seq<int>, date: string, delivers: (int, string) -> bool)
    ensures Probes(Fanout(users, date, delivers)) == []
    decreases |users|
  {
    if users != [] {
      var init := users[..|users| - 1];
      var prior := Fanout(init, date, delivers);
      ProbesOfFanout(init, date, delivers);
      assert (prior + [Sent(users[|users| - 1], date, delivers(users[|users| - 1], date))])[..|prior|] == prior;
    }
  }

  lemma DateLogProbes(date: string, users: seq<int>, o: Oracle)
    ensures Probes(DateLog(date, users, o)) == [date]
  {
    var found := CheckDate(o, date);
    var fan := if found then Fanout(users, date, o.delivers) else [];
    assert DateLog(date, users, o) == [Probed(date, found)] + fan + [Slept(PROBE_PAUSE)];
    DateEvents(date, found, fan);
    if found {
      ProbesOfFanout(users, date, o.delivers);
    } else {
      assert Probes(fan) == [];
    }
  }

  lemma {:induction false} ProbesOfProbeAll(dates: seq<string>, watchers: string -> seq<int>, o: Oracle)
    ensures Probes(ProbeAll(dates, watchers, o)) == dates
    decreases |dates|
  {
    if dates != [] {
      var init, last := dates[..|dates| - 1], dates[|dates| - 1];
      var prior, step := ProbeAll(init, watchers, o), DateLog(last, watchers(last), o);
      assert ProbeAll(dates, watchers, o) == prior + step;
      ProbesOfProbeAll(init, watchers, o);
      ProbesAppend(prior, step);
      DateLogProbes(last, watchers(last), o);
      assert dates == init + [last];
    }
  }

  /** With nothing to check, or without a browser, a pass probes nothing. */
  lemma QuietPassProbesNothing(dates: seq<string>, watchers: string -> seq<int>, o: Oracle)
    requires dates == [] || o.setupFails
    ensures Probes(PassLog(dates, watchers, o)) == []
  {
    ProbesSingle(Slept(CHECK_INTERVAL));
    if dates != [] {
      assert PassLog(dates, watchers, o) == [CycleFailed] + [Slept(CHECK_INTERVAL)];
      ProbesAppend([CycleFailed], [Slept(CHECK_INTERVAL)]);
      ProbesSingle(CycleFailed);
    }
  }

  /** Otherwise it probes the listed dates, in the order they were listed. */
  lemma FullPassProbesEveryDate(dates: seq<string>, watchers: string -> seq<int>, o: Oracle)
    requires dates != [] && !o.setupFails
    ensures Probes(PassLog(dates, watchers, o)) == dates
  {
    var middle := ProbeAll(dates, watchers, o);
    assert PassLog(dates, watchers, o) == [Slept(PAGE_SETTLE)] + middle + [Slept(CHECK_INTERVAL)];
    ProbesOfProbeAll(dates, watchers, o);
    ProbesFramed(Slept(PAGE_SETTLE), middle, Slept(CHECK_INTERVAL));
    ProbesSingle(Slept(PAGE_SETTLE));
    ProbesSingle(Slept(CHECK_INTERVAL));
  }

  /** Whatever order the dates come in, each watched date is probed exactly
      once per cycle, unless the table is empty or the browser could not be
      set up: then no date is. */
  lemma CycleProbesEachDateOnce(rows: seq<Watch>, dates: seq<string>, watchers: string -> seq<int>, o: Oracle)
    requires ListsDates(rows, dates)
    ensures rows == [] || o.setupFails ==> Probes(PassLog(dates, watchers, o)) == []
    ensures rows != [] && !o.setupFails ==> Probes(PassLog(dates, watchers, o)) == dates
    ensures NoDuplicates(Probes(PassLog(dates, watchers, o)))
    ensures forall d :: d in Probes(PassLog(dates, watchers, o)) <==> !o.setupFails && d in WatchedDates(rows)
  {
    ListsDatesEmpty(rows, dates);
    if rows == [] || o.setupFails {
      QuietPassProbesNothing(dates, watchers, o);
      if rows == [] {
        assert WatchedDates(rows) == {};
      }
    } else {
      FullPassProbesEveryDate(dates, watchers, o);
    }
  }

  /** Every probe is logged with what `check_date` returned for that date. */
  lemma {:induction false} ProbeAllOutcomes(dates: seq<string>, watchers: string -> seq<int>, o: Oracle)
    ensures forall d, found :: Probed(d, found) in ProbeAll(dates, watchers, o) ==> found == CheckDate(o, d)
    decreases |dates|
  {
    if dates != [] {
      var last := dates[|dates| - 1];
      ProbeAllOutcomes(dates[..|dates| - 1], watchers, o);
      if CheckDate(o, last) {
        FanoutEvents(watchers(last), last, o.delivers);
      }
    }
  }

  lemma DateLogSent(date: string, users: seq<int>, o: Oracle)
    ensures forall u, d, ok :: Sent(u, d, ok) in DateLog(date, users, o) <==>
      d == date && u in users && CheckDate(o, d) && ok == o.delivers(u, d)
  {
    FanoutEvents(users, date, o.delivers);
  }

  lemma {:induction false} SentInProbeAll(dates: seq<string>, watchers: string -> seq<int>, o: Oracle)
    ensures forall u, d, ok :: Sent(u, d, ok) in ProbeAll(dates, watchers, o) <==>
      d in dates && u in watchers(d) && CheckDate(o, d) && ok == o.delivers(u, d)
    decreases |dates|
  {
    if dates != [] {
      var init, last := dates[..|dates| - 1], dates[|dates| - 1];
      SentInProbeAll(init, watchers, o);
      DateLogSent(last, watchers(last), o);
      assert dates == init + [last];
    }
  }

  /** The fan-out of a cycle, whatever order the queries answer in: a message
      is attempted for (u, d) exactly when (u, d) is in the table, the browser
      came up and the probe of d found tickets; the logged outcome is that
      send's own, so a failed send to one watcher has no bearing on any other. */
  lemma CycleNotifiesWatchers(rows: seq<Watch>, dates: seq<string>, watchers: string -> seq<int>, o: Oracle)
    requires ListsDates(rows, dates) && ListsWatchers(rows, watchers)
    ensures forall u, d, ok :: Sent(u, d, ok) in PassLog(dates, watchers, o) <==>
      !o.setupFails && Watch(u, d) in rows && CheckDate(o, d) && ok == o.delivers(u, d)
    ensures forall d, found :: Probed(d, found) in PassLog(dates, watchers, o) ==> found == CheckDate(o, d)
  {
    ListsDatesEmpty(rows, dates);
    if dates != [] && !o.setupFails {
      SentInProbeAll(dates, watchers, o);
      ProbeAllOutcomes(dates, watchers, o);
      forall u, d | Watch(u, d) in rows
        ensures d in dates
      {
        assert d in WatchedDates(rows);
      }
    }
  }

  /** A failed send to one watcher does not keep the message from another
      watcher of the same date whose send succeeds. */
  lemma FailedSendIsIsolated(rows: seq<Watch>, dates: seq<string>, watchers: string -> seq<int>, o: Oracle,
                             u1: int, u2: int, d: string)
    requires ListsDates(rows, dates) && ListsWatchers(rows, watchers)
    requires Sent(u1, d, false) in PassLog(dates, watchers, o)
    requires Watch(u2, d) in rows && o.delivers(u2, d)
    ensures Sent(u2, d, true) in PassLog(dates, watchers, o)
  {
    CycleNotifiesWatchers(rows, dates, watchers, o);
  }

  lemma {:induction false} FanoutSendsOnce(users: seq<int>, date: string, delivers: (int, string) -> bool)
    requires NoDuplicates(users)
    ensures NoDuplicates(Sends(Fanout(users, date, delivers)))
    ensures forall w :: w in Sends(Fanout(users, date, delivers)) ==> w.date == date && w.user in users
    decreases |users|
  {
    if users != [] {
      var init, last := users[..|users| - 1], users[|users| - 1];
      var prior := Fanout(init, date, delivers);
      FanoutSendsOnce(init, date, delivers);
      assert (prior + [Sent(last, date, delivers(last, date))])[..|prior|] == prior;
      assert users == init + [last];
      assert Watch(last, date) !in Sends(prior);
      NoDuplicatesAppend(Sends(prior), [Watch(last, date)]);
    }
  }

  lemma DateLogSends(date: string, users: seq<int>, o: Oracle)
    ensures Sends(DateLog(date, users, o)) ==
      if CheckDate(o, date) then Sends(Fanout(users, date, o.delivers)) else []
  {
    var found := CheckDate(o, date);
    var fan := if found then Fanout(users, date, o.delivers) else [];
    assert DateLog(date, users, o) == [Probed(date, found)] + fan + [Slept(PROBE_PAUSE)];
    DateEvents(date, found, fan);
    if !found {
      assert Sends(fan) == [];
    }
  }

  lemma {:induction false} ProbeAllSendsOnce(rows: seq<Watch>, dates: seq<string>, watchers: string -> seq<int>, o: Oracle)
    requires ListsWatchers(rows, watchers) && NoDuplicates(dates)
    ensures NoDuplicates(Sends(ProbeAll(dates, watchers, o)))
    ensures forall w :: w in Sends(ProbeAll(dates, watchers, o)) ==> w.date in dates
    decreases |dates|
  {
    if dates != [] {
      var init, last := dates[..|dates| - 1], dates[|dates| - 1];
      var prior := ProbeAll(init, watchers, o);
      ProbeAllSendsOnce(rows, init, watchers, o);
      SendsAppend(prior, DateLog(last, watchers(last), o));
      DateLogSends(last, watchers(last), o);
      if CheckDate(o, last) {
        FanoutSendsOnce(watchers(last), last, o.delivers);
      }
      assert dates == init + [last];
      NoDuplicatesAppend(Sends(prior), Sends(DateLog(last, watchers(last), o)));
    }
  }

  /** No (user, date) pair is messaged twice in one cycle. */
  lemma CycleSendsOnce(rows: seq<Watch>, dates: seq<string>, watchers: string -> seq<int>, o: Oracle)
    requires ListsDates(rows, dates) && ListsWatchers(rows, watchers)
    ensures NoDuplicates(Sends(PassLog(dates, watchers, o)))
  {
    SendsSingle(Slept(CHECK_INTERVAL));
    if dates != [] && o.setupFails {
      SendsAppend([CycleFailed], [Slept(CHECK_INTERVAL)]);
      SendsSingle(CycleFailed);
      assert [CycleFailed, Slept(CHECK_INTERVAL)] == [CycleFailed] + [Slept(CHECK_INTERVAL)];
    } else if dates != [] {
      ProbeAllSendsOnce(rows, dates, watchers, o);
      SendsFramed(Slept(PAGE_SETTLE), ProbeAll(dates, watchers, o), Slept(CHECK_INTERVAL));
      SendsSingle(Slept(PAGE_SETTLE));
    }
  }

  /** Every cycle ends with the full check-interval sleep; with no watches, or
      when the browser cannot be set up, that sleep is all that happens
      (apart from logging the failure). */
  lemma CycleEndsWithFullSleep(rows: seq<Watch>, dates: seq<string>, watchers: string -> seq<int>, o: Oracle)
    requires ListsDates(rows, dates)
    ensures |PassLog(dates, watchers, o)| >= 1
    ensures PassLog(dates, watchers, o)[|PassLog(dates, watchers, o)| - 1] == Slept(CHECK_INTERVAL)
    ensures rows == [] ==> PassLog(dates, watchers, o) == [Slept(CHECK_INTERVAL)]
    ensures rows != [] && o.setupFails ==> PassLog(dates, watchers, o) == [CycleFailed, Slept(CHECK_INTERVAL)]
  {
    ListsDatesEmpty(rows, dates);
  }

  /** A failed setup costs only its own cycle: the next cycle over the same
      table probes every watched date, once each. */
  lemma RecoversAfterSetupFailure(rows: seq<Watch>, failed: Oracle, next: Oracle)
    requires failed.setupFails && !next.setupFails
    ensures ListsDates(rows, Probes(CyclesLog(rows, [failed, next])))
  {
    var both := [failed, next];
    var dates, watchers := DistinctDates(rows), QueriedWatchers(rows);
    assert both[..1] == [failed] && [failed][..0] == [];
    assert CyclesLog(rows, [failed]) == CycleLog(rows, failed);
    assert CyclesLog(rows, both) == CycleLog(rows, failed) + CycleLog(rows, next);
    ProbesAppend(CycleLog(rows, failed), CycleLog(rows, next));
    CycleProbesEachDateOnce(rows, dates, watchers, failed);
    CycleProbesEachDateOnce(rows, dates, watchers, next);
  }

  /** Users 1 and 2 watch 2026-01-10, user 3 watches 2026-02-01. */
  function ExampleRows(): seq<Watch>
  {
    [Watch(1, "2026-01-10"), Watch(2, "2026-01-10"), Watch(3, "2026-02-01")]
  }

  /** Tickets exist only on 2026-01-10; the message to user 1 fails. */
  function ExampleOracle(): Oracle
  {
    Oracle(false,
           d => if d == "2026-01-10" then Returned(SearchReply([JObj(map[])])) else Returned(SearchReply([])),
           (u, d) => u != 1)
  }

  lemma ExampleFacts()
    ensures NoDuplicates(ExampleRows())
    ensures CheckDate(ExampleOracle(), "2026-01-10") && !CheckDate(ExampleOracle(), "2026-02-01")
  {
    ClassifySearchReply([JObj(map[])]);
    ClassifySearchReply([]);
    assert "2026-01-10" != "2026-02-01" by { assert "2026-01-10"[6] != "2026-02-01"[6]; }
  }

  /** In the example cycle user 2 is still notified, user 1's failure is
      logged, and user 3 hears nothing. */
  lemma ExampleCycle()
    ensures Sent(1, "2026-01-10", false) in CycleLog(ExampleRows(), ExampleOracle())
    ensures Sent(2, "2026-01-10", true) in CycleLog(ExampleRows(), ExampleOracle())
    ensures forall ok :: Sent(3, "2026-02-01", ok) !in CycleLog(ExampleRows(), ExampleOracle())
  {
    var rows, o := ExampleRows(), ExampleOracle();
    ExampleFacts();
    QueriesAreListings(rows);
    CycleNotifiesWatchers(rows, DistinctDates(rows), QueriedWatchers(rows), o);
    assert Watch(1, "2026-01-10") in rows && Watch(2, "2026-01-10") in rows;
  }
}
