/** The polling engine of poll-watch: the module-level maps of `index.js`
    gathered into one object, with `poll`, `startPolling`, the path watcher's
    operations, `watch` and the global `clear` as its methods. Timers,
    `fs.stat` and `Date.now()` are inputs: a timer is a map entry holding its
    delay, a tick is one timer firing together with the completion of the
    stat it starts, and the current time is a parameter. */
module Poller {
  import opened Base
  import opened Temperature
  import opened Paths
  import opened Listeners

  /** The number of consecutive not-found stats that is fatal. */
  const MAX_ENOENTS: nat := 25

  /** What `fs.stat` reports. */
  datatype StatResult = Ok(mtime: int) | Enoent | OtherErr(code: string)

  /** The entry `_timeouts[path]` holds: a timer still due after `delay`
      milliseconds, or a handle that schedules nothing any more (cancelled by
      `halt`, or fired without being re-armed). */
  datatype TimerState = Pending(delay: nat) | Stopped

  /** The state a path watcher keeps in its closure. */
  datatype Watcher = Watcher(listeners: seq<Callback>, lastMtime: Option<int>)

  /** An unsubscribe function: the watcher it belongs to and its callback. */
  datatype Token = Token(path: string, cb: Callback)

  /** The errors the engine throws. */
  datatype Fatal =
    | AlreadyPolling(path: string)
    | RetryExhausted(path: string, count: nat)
    | StatFailed(path: string, code: string)

  /** The result of one tick: the listener calls it made, or the error it
      threw. */
  datatype TickOutcome = Continue(deliveries: seq<Delivery>) | Failed(fatal: Fatal)

  // ---------------------------------------------------------------------
  // The error policy of a tick.

  /** What a stat result does to the not-found counter of its path. */
  datatype Verdict = Proceed | Retry(count: nat) | Exhausted(count: nat) | Unrecoverable

  function Classify(count: nat, r: StatResult): (v: Verdict)
    // only a successful stat lets the tick go on to compare mtimes
    ensures v == Proceed <==> r.Ok?
    // any error other than not-found is thrown at once
    ensures v == Unrecoverable <==> r.OtherErr?
    // a not-found result always counts, and is fatal exactly at the ceiling
    ensures r.Enoent? ==> (v.Retry? || v.Exhausted?) && v.count == count + 1
    ensures v.Exhausted? <==> r.Enoent? && count + 1 >= MAX_ENOENTS
  {
    match r
    case Ok(_) => Proceed
    case Enoent => if count + 1 < MAX_ENOENTS then Retry(count + 1) else Exhausted(count + 1)
    case OtherErr(_) => Unrecoverable
  }

  /** The not-found counter after a run of ticks on one path, or `None` once
      one of them threw. */
  function CounterAfter(count: nat, rs: seq<StatResult>): (r: Option<nat>)
    // a run that survives never leaves the counter at the ceiling
    ensures rs != [] && r.Some? ==> r.value < MAX_ENOENTS
    // each tick adds at most one to the counter
    ensures r.Some? ==> r.value <= count + |rs|
    // one unrecoverable error anywhere ends the run
    ensures (exists i :: 0 <= i < |rs| && rs[i].OtherErr?) ==> r.None?
    // a run of successes ending in one leaves the counter at zero
    ensures rs != [] && rs[|rs| - 1].Ok? && r.Some? ==> r.value == 0
    decreases |rs|
  {
    if rs == [] then Some(count)
    else match Classify(count, rs[0])
      case Proceed => CounterAfter(0, rs[1..])
      case Retry(c) => CounterAfter(c, rs[1..])
      case _ => None
  }

  /** Not-found retries are bounded: from a counter `c`, the ticks survive
      `k` consecutive not-found results exactly when `c + k` stays below the
      ceiling, and the counter then stands at `c + k`. */
  lemma {:induction false} ConsecutiveNotFound(c: nat, k: nat)
    requires c < MAX_ENOENTS
    ensures CounterAfter(c, Repeat(Enoent, k)) == if c + k < MAX_ENOENTS then Some(c + k) else None
    decreases k
  {
    if k > 0 {
      var rs := Repeat(Enoent, k);
      assert rs[0] == Enoent;
      assert rs[1..] == Repeat(Enoent, k - 1) by {
        assert Repeat(Enoent, k) == [Enoent] + Repeat(Enoent, k - 1) by {
          RepeatCons(Enoent, k);
        }
      }
      if c + 1 < MAX_ENOENTS {
        ConsecutiveNotFound(c + 1, k - 1);
      }
    }
  }

  lemma {:induction false} RepeatCons<T>(x: T, n: nat)
    requires n > 0
    ensures Repeat(x, n) == [x] + Repeat(x, n - 1)
  {
    if n > 1 {
      RepeatCons(x, n - 1);
    }
  }

  /** A successful stat forgets every earlier not-found result. */
  lemma SuccessResetsCounter(c: nat, m: int, rs: seq<StatResult>)
    ensures CounterAfter(c, [Ok(m)] + rs) == CounterAfter(0, rs)
  {
    assert ([Ok(m)] + rs)[1..] == rs;
  }

  // ---------------------------------------------------------------------
  // Unsubscribing, as a function of the listener lists and the timers, so
  // that a session's bulk unsubscribe can be stated.

  /** `halt`: `clearTimeout(_timeouts[path])`, which keeps the key. */
  function Halted(ts: map<string, TimerState>, path: string): (ts': map<string, TimerState>)
    ensures ts'.Keys == ts.Keys
    ensures path in ts ==> ts'[path] == Stopped
    ensures forall p :: p in ts && p != path ==> ts'[p] == ts[p]
  {
    if path in ts then ts[path := Stopped] else ts
  }

  /** One unsubscribe function running: its callback leaves the list, and a
      list left empty halts the path's timer. */
  function OffStep(ws: map<string, Watcher>, ts: map<string, TimerState>, tok: Token)
    : (r: (map<string, Watcher>, map<string, TimerState>))
    requires tok.path in ws
    ensures r.0.Keys == ws.Keys && r.1.Keys == ts.Keys
    // only the token's own watcher and timer can change
    ensures forall p :: p in ws && p != tok.path ==> r.0[p] == ws[p]
    ensures forall p :: p in ts && p != tok.path ==> r.1[p] == ts[p]
    // the callback's first registration leaves; the last emitted mtime stays
    ensures tok.cb in ws[tok.path].listeners ==>
      multiset(r.0[tok.path].listeners) == multiset(ws[tok.path].listeners) - multiset{tok.cb}
    ensures r.0[tok.path].lastMtime == ws[tok.path].lastMtime
    // a list left empty halts the timer; otherwise the timers are untouched
    ensures r.0[tok.path].listeners == [] && tok.path in ts ==> r.1[tok.path] == Stopped
    ensures r.0[tok.path].listeners != [] ==> r.1 == ts
  {
    var w := ws[tok.path];
    var ls := Unsubscribed(w.listeners, tok.cb);
    (ws[tok.path := w.(listeners := ls)], if ls == [] then Halted(ts, tok.path) else ts)
  }

  /** The unsubscribe functions of `toks` running in order. */
  function OffAll(ws: map<string, Watcher>, ts: map<string, TimerState>, toks: seq<Token>)
    : (r: (map<string, Watcher>, map<string, TimerState>))
    requires forall t :: t in toks ==> t.path in ws
    ensures r.0.Keys == ws.Keys && r.1.Keys == ts.Keys
    decreases |toks|
  {
    if toks == [] then (ws, ts)
    else
      var s := OffStep(ws, ts, toks[0]);
      OffAll(s.0, s.1, toks[1..])
  }

  /** Unsubscribing touches only the watchers and timers of the paths named
      by the tokens. */
  lemma {:induction false} OffAllFrame(ws: map<string, Watcher>, ts: map<string, TimerState>, toks: seq<Token>, p: string)
    requires forall t :: t in toks ==> t.path in ws
    requires forall t :: t in toks ==> t.path != p
    ensures p in ws ==> OffAll(ws, ts, toks).0[p] == ws[p]
    ensures p in ts ==> OffAll(ws, ts, toks).1[p] == ts[p]
    decreases |toks|
  {
    if toks != [] {
      var s := OffStep(ws, ts, toks[0]);
      assert forall t :: t in toks[1..] ==> t in toks;
      OffAllFrame(s.0, s.1, toks[1..], p);
    }
  }

  /** After a bulk unsubscribe, a path that was unsubscribed from and whose
      list is now empty has no pending timer: it is not polled any more. */
  lemma {:induction false} OffAllHaltsEmptied(ws: map<string, Watcher>, ts: map<string, TimerState>, toks: seq<Token>, p: string)
    requires forall t :: t in toks ==> t.path in ws
    requires exists t :: t in toks && t.path == p
    ensures var r := OffAll(ws, ts, toks);
            r.0[p].listeners == [] && p in r.1 ==> r.1[p] == Stopped
    decreases |toks|
  {
    var s := OffStep(ws, ts, toks[0]);
    assert forall t :: t in toks[1..] ==> t in toks;
    if exists t :: t in toks[1..] && t.path == p {
      OffAllHaltsEmptied(s.0, s.1, toks[1..], p);
    } else {
      assert toks[0].path == p;
      OffAllFrame(s.0, s.1, toks[1..], p);
    }
  }

  // ---------------------------------------------------------------------
  // The global clear.

  /** The paths whose timers the `forEach` of `clear` actually cancels: those
      with a timer still pending. */
  method PendingPaths(ts: map<string, TimerState>) returns (cancelled: set<string>)
    ensures cancelled == set p | p in ts && ts[p].Pending?
  {
    cancelled := {};
    var rest := ts.Keys;
    while rest != {}
      invariant rest <= ts.Keys
      invariant cancelled == set p | p in ts && p !in rest && ts[p].Pending?
      decreases rest
    {
      var p :| p in rest;
      if ts[p].Pending? {
        cancelled := cancelled + {p};
      }
      rest := rest - {p};
    }
  }

  /** The listener calls a successful stat of `m` makes: none for the
      baseline stat or an mtime that is not newer; otherwise one emit, which
      reports the mtime stored BEFORE this stat, since the store happens only
      after the emit. */
  function ObservedDeliveries(ws: map<string, Watcher>, mtimes: map<string, int>, path: string, m: int)
    : (ds: seq<Delivery>)
    requires path in ws
    ensures ds != [] ==> path in mtimes && m > mtimes[path]
    ensures path in mtimes && m > mtimes[path] ==>
      |ds| == |ws[path].listeners|
      && forall i :: 0 <= i < |ds| ==>
           ds[i] == Delivery(ws[path].listeners[i], Event(path, Some(mtimes[path]), ws[path].lastMtime))
  {
    if path in mtimes && m > mtimes[path] then
      Broadcast(ws[path].listeners, Event(path, Some(mtimes[path]), ws[path].lastMtime))
    else []
  }

  // ---------------------------------------------------------------------

  class Engine {
    /** `path.sep` of the host. */
    const sep: char

    var mtimes: map<string, int>           // _mtimes; a missing key is undefined
    var files: map<string, int>            // _files: when each path was first watched
    var intervals: map<string, nat>        // _intervals
    var timers: map<string, TimerState>    // _timeouts
    var touched: set<string>               // _touched
    var errors: map<string, nat>           // _errors
    var enoents: map<string, nat>          // _enoents
    var watchers: map<string, Watcher>     // _watchers
    var startTime: Option<int>             // _startTime

    /** Every timer belongs to a path that has a watcher: only `watch`
        (through `startPolling`) and a watcher's own `resume` arm timers. */
    predicate Valid()
      reads this
    {
      timers.Keys <= watchers.Keys
    }

    /** The state of a freshly loaded module. */
    constructor (sep: char)
      ensures Valid() && this.sep == sep
      ensures mtimes == map[] && files == map[] && intervals == map[] && timers == map[]
      ensures touched == {} && errors == map[] && enoents == map[] && watchers == map[]
      ensures startTime == None
    {
      this.sep := sep;
      mtimes, files, intervals, timers := map[], map[], map[], map[];
      touched, errors, enoents, watchers := {}, map[], map[], map[];
      startTime := None;
    }

    /** One tick of `poll`: the path's timer fires, the stat completes with
        `r` at time `now`, and the completion callback runs. */
    method Tick(path: string, now: int, r: StatResult) returns (out: TickOutcome)
      requires Valid() && path in timers && timers[path].Pending?
      modifies this
      ensures Valid()
      ensures files == old(files) && startTime == old(startTime)
      ensures watchers.Keys == old(watchers.Keys) && old(touched) <= touched
      // a successful stat: see Observe
      ensures r.Ok? ==>
        enoents == old(enoents)[path := 0] && errors == old(errors)
        && out.Continue? && out.deliveries == ObservedDeliveries(old(watchers), old(mtimes), path, r.mtime)
      // the stored mtime is the baseline or a strictly newer one; only a newer one touches the path
      ensures r.Ok? ==>
        var newer := path in old(mtimes) && r.mtime > old(mtimes)[path];
        mtimes == (if path !in old(mtimes) || newer then old(mtimes)[path := r.mtime] else old(mtimes))
        && touched == (if newer then old(touched) + {path} else old(touched))
        && watchers == (if newer then old(watchers)[path := old(watchers)[path].(lastMtime := Some(old(mtimes)[path]))]
                        else old(watchers))
      // rescheduling: exactly one pending timer, due after the new interval
      ensures r.Ok? ==>
        intervals == old(intervals)[path := NextInterval(path in touched, now, r.mtime, startTime)]
        && timers == old(timers)[path := Pending(intervals[path])]
      // a failed stat: see Refuse
      ensures !r.Ok? ==>
        errors == old(errors)[path := CountOf(old(errors), path) + 1]
        && mtimes == old(mtimes) && intervals == old(intervals)
        && touched == old(touched) && watchers == old(watchers)
      // the error policy decides the counter, the outcome and whether a retry is armed
      ensures !r.Ok? ==>
        match Classify(CountOf(old(enoents), path), r)
        case Retry(c) =>
          enoents == old(enoents)[path := c] && out == Continue([])
          && timers == old(timers)[path := Pending(RETRY_DELAY)]
        case Exhausted(c) =>
          enoents == old(enoents)[path := c] && out == Failed(RetryExhausted(path, c))
          && timers == old(timers)[path := Stopped]
        case Unrecoverable =>
          r.OtherErr? && enoents == old(enoents) && out == Failed(StatFailed(path, r.code))
          && timers == old(timers)[path := Stopped]
        case Proceed => false
    {
      timers := timers[path := Stopped];
      if r.Ok? {
        var ds := Observe(path, now, r.mtime);
        out := Continue(ds);
      } else {
        out := Refuse(path, r);
      }
    }

    /** The success branch of the stat callback. */
    method Observe(path: string, now: int, m: int) returns (ds: seq<Delivery>)
      requires Valid() && path in timers
      modifies this`enoents, this`mtimes, this`touched, this`watchers, this`intervals, this`timers
      ensures Valid() && enoents == old(enoents)[path := 0]
      ensures ds == ObservedDeliveries(old(watchers), old(mtimes), path, m)
      // first successful stat: record the baseline, emit nothing
      ensures path !in old(mtimes) ==>
        mtimes == old(mtimes)[path := m] && touched == old(touched) && watchers == old(watchers)
      // a strictly newer mtime: touched, emit with the PREVIOUS stored mtime, then store
      ensures path in old(mtimes) && m > old(mtimes)[path] ==>
        touched == old(touched) + {path} && mtimes == old(mtimes)[path := m]
        && watchers == old(watchers)[path := old(watchers)[path].(lastMtime := Some(old(mtimes)[path]))]
      // an equal or older mtime changes nothing
      ensures path in old(mtimes) && m <= old(mtimes)[path] ==>
        mtimes == old(mtimes) && touched == old(touched) && watchers == old(watchers)
      // rescheduling: exactly one pending timer, due after the new interval
      ensures intervals == old(intervals)[path := NextInterval(path in touched, now, m, startTime)]
      ensures timers == old(timers)[path := Pending(intervals[path])]
    {
      enoents := enoents[path := 0];
      if path !in mtimes {
        mtimes := mtimes[path := m];
        ds := [];
      } else if m > mtimes[path] {
        touched := touched + {path};
        ds := Emit(path);
        mtimes := mtimes[path := m];
      } else {
        ds := [];
      }
      var d := NextInterval(path in touched, now, m, startTime);
      intervals := intervals[path := d];
      timers := timers[path := Pending(d)];
    }

    /** The error branch of the stat callback. */
    method Refuse(path: string, r: StatResult) returns (out: TickOutcome)
      requires path in timers && !r.Ok?
      modifies this`errors, this`enoents, this`timers
      ensures timers.Keys == old(timers.Keys)
      ensures errors == old(errors)[path := CountOf(old(errors), path) + 1]
      ensures match Classify(CountOf(old(enoents), path), r)
        case Retry(c) =>
          enoents == old(enoents)[path := c] && out == Continue([])
          && timers == old(timers)[path := Pending(RETRY_DELAY)]
        case Exhausted(c) =>
          enoents == old(enoents)[path := c] && out == Failed(RetryExhausted(path, c))
          && timers == old(timers)
        case _ =>
          enoents == old(enoents) && out == Failed(StatFailed(path, r.code)) && timers == old(timers)
    {
      errors := errors[path := CountOf(errors, path) + 1];
      if r.Enoent? {
        var c := CountOf(enoents, path) + 1;
        enoents := enoents[path := c];
        if c < MAX_ENOENTS {
          timers := timers[path := Pending(RETRY_DELAY)];
          out := Continue([]);
        } else {
          out := Failed(RetryExhausted(path, c));
        }
      } else {
        out := Failed(StatFailed(path, r.code));
      }
    }

    /** `startPolling`: fix the global start time on first use, refuse a path
        that already has a timer entry (even a halted one), otherwise forget
        the stored mtime and arm the bootstrap timer. */
    method StartPolling(path: string, now: int) returns (err: Option<Fatal>)
      requires Valid() && path in watchers
      modifies this`startTime, this`mtimes, this`intervals, this`timers
      ensures Valid()
      // `!_startTime` also holds for a start time of 0
      ensures startTime == if old(startTime).None? || old(startTime).value == 0 then Some(now) else old(startTime)
      ensures err.Some? <==> path in old(timers)
      ensures err.Some? ==>
        err.value == AlreadyPolling(path)
        && mtimes == old(mtimes) && intervals == old(intervals) && timers == old(timers)
      ensures err.None? ==>
        mtimes == old(mtimes) - {path}
        && intervals == old(intervals)[path := BOOTSTRAP_INTERVAL]
        && timers == old(timers)[path := Pending(BOOTSTRAP_INTERVAL)]
    {
      if startTime.None? || startTime.value == 0 {
        startTime := Some(now);
      }
      if path in timers {
        return Some(AlreadyPolling(path));
      }
      mtimes := mtimes - {path};
      intervals := intervals[path := BOOTSTRAP_INTERVAL];
      timers := timers[path := Pending(intervals[path])];
      err := None;
    }

    /** The watcher's `on`: the first listener resumes polling, then the
        callback is appended; the result is its unsubscribe function. */
    method On(path: string, cb: Callback) returns (tok: Token)
      requires Valid() && path in watchers
      modifies this`watchers, this`timers
      ensures Valid() && tok == Token(path, cb)
      ensures watchers == old(watchers)[path := old(watchers)[path].(listeners := old(watchers)[path].listeners + [cb])]
      ensures timers == if old(watchers)[path].listeners == [] then old(timers)[path := Pending(RETRY_DELAY)]
                        else old(timers)
    {
      if |watchers[path].listeners| == 0 {
        Resume(path);
      }
      var w := watchers[path];
      watchers := watchers[path := w.(listeners := w.listeners + [cb])];
      tok := Token(path, cb);
    }

    /** The unsubscribe function `on` returned: `indexOf` and `splice`, then
        `halt` once the list is empty. */
    method Off(tok: Token)
      requires Valid() && tok.path in watchers
      modifies this`watchers, this`timers
      ensures Valid()
      ensures (watchers, timers) == OffStep(old(watchers), old(timers), tok)
    {
      var w := watchers[tok.path];
      var i := IndexOf(w.listeners, tok.cb);
      var ls := SpliceOne(w.listeners, i);
      watchers := watchers[tok.path := w.(listeners := ls)];
      if |ls| == 0 {
        Halt(tok.path);
      }
    }

    /** The watcher's `emit`: call every listener in order with the stored
        mtime and the last emitted one, then remember the stored mtime as the
        last emitted one. */
    method Emit(path: string) returns (ds: seq<Delivery>)
      requires path in watchers
      modifies this`watchers
      ensures ds == Broadcast(old(watchers)[path].listeners, Event(path, Lookup(mtimes, path), old(watchers)[path].lastMtime))
      ensures watchers == old(watchers)[path := old(watchers)[path].(lastMtime := Lookup(mtimes, path))]
    {
      var w := watchers[path];
      ds := Notify(w.listeners, Event(path, Lookup(mtimes, path), w.lastMtime));
      watchers := watchers[path := w.(lastMtime := Lookup(mtimes, path))];
    }

    /** The watcher's `halt`: cancel the timer but keep its entry. */
    method Halt(path: string)
      modifies this`timers
      ensures timers == Halted(old(timers), path)
    {
      if path in timers {
        timers := timers[path := Stopped];
      }
    }

    /** The watcher's `resume`: replace any timer by a 5 ms one. */
    method Resume(path: string)
      requires Valid() && path in watchers
      modifies this`timers
      ensures Valid()
      ensures timers == old(timers)[path := Pending(RETRY_DELAY)]
    {
      timers := timers[path := Pending(RETRY_DELAY)];
    }

    /** The watcher's `close`: forget the path's file entry, mtime, timer and
        interval; the watcher itself and its listeners stay. */
    method CloseWatcher(path: string)
      requires Valid()
      modifies this`files, this`mtimes, this`timers, this`intervals
      ensures Valid()
      ensures files == old(files) - {path} && mtimes == old(mtimes) - {path}
      ensures timers == old(timers) - {path} && intervals == old(intervals) - {path}
    {
      files := files - {path};
      mtimes := mtimes - {path};
      Halt(path);
      timers := timers - {path};
      intervals := intervals - {path};
    }

    /** The watcher's `clear`: drop every listener, leave the timer alone. */
    method ClearListeners(path: string)
      requires path in watchers
      modifies this`watchers
      ensures watchers == old(watchers)[path := old(watchers)[path].(listeners := [])]
    {
      watchers := watchers[path := watchers[path].(listeners := [])];
    }

    /** `watch`: normalise the path, create its watcher on first sight and,
        unless the path is excluded, start polling it. The result is the key
        of the path's one watcher. */
    method Watch(raw: string, now: int) returns (key: string)
      requires Valid()
      modifies this
      ensures Valid()
      ensures key == Trimmed(raw, sep) && key in watchers
      ensures touched == old(touched) && errors == old(errors) && enoents == old(enoents)
      // a path seen before: the same watcher, nothing else happens
      ensures key in old(watchers) ==>
        watchers == old(watchers) && files == old(files) && mtimes == old(mtimes)
        && intervals == old(intervals) && timers == old(timers) && startTime == old(startTime)
      // a new path: a watcher with no listeners and nothing emitted yet
      ensures key !in old(watchers) ==>
        watchers == old(watchers)[key := Watcher([], None)] && files == old(files)[key := now]
      // an excluded new path is never handed to startPolling
      ensures key !in old(watchers) && IsExcluded(key) ==>
        mtimes == old(mtimes) && intervals == old(intervals) && timers == old(timers)
        && startTime == old(startTime)
      // any other new path gets the bootstrap timer
      ensures key !in old(watchers) && !IsExcluded(key) ==>
        mtimes == old(mtimes) - {key}
        && intervals == old(intervals)[key := BOOTSTRAP_INTERVAL]
        && timers == old(timers)[key := Pending(BOOTSTRAP_INTERVAL)]
        && startTime == if old(startTime).None? || old(startTime).value == 0 then Some(now) else old(startTime)
    {
      key := StripTrailing(raw, sep);
      if key !in watchers {
        watchers := watchers[key := Watcher([], None)];
        files := files[key := now];
        if !IsExcluded(key) {
          var err := StartPolling(key, now);
          assert err.None?;
        }
      }
    }

    /** The global `clear`: cancel every timer and empty the mtime, file,
        interval and timer tables. Watchers, their listeners, the touched set
        and the counters survive. The result is the set of paths whose timer
        was still pending. */
    method Clear() returns (cancelled: set<string>)
      requires Valid()
      modifies this`mtimes, this`files, this`intervals, this`timers
      ensures Valid()
      ensures cancelled == set p | p in old(timers) && old(timers)[p].Pending?
      ensures mtimes == map[] && files == map[] && intervals == map[] && timers == map[]
    {
      cancelled := PendingPaths(timers);
      mtimes, files, intervals, timers := map[], map[], map[], map[];
    }
  }
}
