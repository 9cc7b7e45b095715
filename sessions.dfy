/** `createWatcher`: a session that hands out watch handles and remembers
    every unsubscribe function it handed out, so that `clear` (which `close`
    also is) can run them all. */
module Sessions {
  import opened Base
  import opened Temperature
  import opened Paths
  import opened Listeners
  import opened Poller

  /** Running `toks` after `a` is running `a + toks`. */
  lemma {:induction false} OffAllAppend(ws: map<string, Watcher>, ts: map<string, TimerState>,
                                        a: seq<Token>, t: Token)
    requires forall u :: u in a + [t] ==> u.path in ws
    ensures var r := OffAll(ws, ts, a);
            t.path in r.0 && OffAll(ws, ts, a + [t]) == OffStep(r.0, r.1, t)
    decreases |a|
  {
    if a == [] {
      assert [t][1..] == [];
    } else {
      var s := OffStep(ws, ts, a[0]);
      assert (a + [t])[1..] == a[1..] + [t];
      assert forall u :: u in a[1..] + [t] ==> u in a + [t];
      OffAllAppend(s.0, s.1, a[1..], t);
    }
  }

  /** The hazard of running a session's unsubscribe functions twice (its
      `clear` followed by its `close`, which is the same function): a path
      with the session's one callback and other listeners loses its own
      callback the first time and someone else's the second time. */
  lemma RepeatedClearRemovesForeign(ws: map<string, Watcher>, ts: map<string, TimerState>, tok: Token)
    requires tok.path in ws
    requires multiset(ws[tok.path].listeners)[tok.cb] == 1 && |ws[tok.path].listeners| >= 2
    ensures var once := OffAll(ws, ts, [tok]);
            var twice := OffAll(once.0, once.1, [tok]);
            tok.cb !in once.0[tok.path].listeners
            && |twice.0[tok.path].listeners| == |ws[tok.path].listeners| - 2
  {
    var ls := ws[tok.path].listeners;
    SecondUnsubscribeRemovesAnother(ls, tok.cb);
    assert [] + [tok] == [tok];
    OffAllAppend(ws, ts, [], tok);
    var once := OffAll(ws, ts, [tok]);
    assert once.0[tok.path].listeners == Unsubscribed(ls, tok.cb);
    OffAllAppend(once.0, once.1, [], tok);
  }

  class Session {
    const engine: Engine
    /** `_listeners` of `createWatcher`: every unsubscribe function handed out,
        in order, never emptied. */
    var offs: seq<Token>

    ghost predicate Valid()
      reads this, engine
    {
      engine.Valid() && forall t :: t in offs ==> t.path in engine.watchers
    }

    /** `createWatcher(opts)`; the options only switch logging on and off. */
    constructor (engine: Engine)
      requires engine.Valid()
      ensures Valid() && this.engine == engine && offs == []
    {
      this.engine := engine;
      offs := [];
    }

    /** `_watch`: register the path with the engine and wrap its watcher in a
        fresh handle that has not subscribed yet. */
    method Watch(raw: string, now: int) returns (h: Handle)
      requires Valid()
      modifies engine
      ensures Valid() && fresh(h)
      ensures h.session == this && h.path == Trimmed(raw, engine.sep) && h.off == None
      ensures h.path in engine.watchers && old(engine.watchers.Keys) <= engine.watchers.Keys
    {
      var key := engine.Watch(raw, now);
      h := new Handle(this, key);
    }

    /** `_clear` (also the session's `close`): run every unsubscribe function
        handed out, oldest first, and keep the list. */
    method Clear()
      requires Valid()
      modifies engine`watchers, engine`timers
      ensures Valid() && offs == old(offs)
      ensures (engine.watchers, engine.timers) == OffAll(old(engine.watchers), old(engine.timers), offs)
      ensures engine.mtimes == old(engine.mtimes) && engine.intervals == old(engine.intervals)
      ensures engine.touched == old(engine.touched) && engine.startTime == old(engine.startTime)
    {
      var i := 0;
      while i < |offs|
        invariant 0 <= i <= |offs|
        invariant engine.Valid() && engine.watchers.Keys == old(engine.watchers.Keys)
        invariant forall t :: t in offs ==> t.path in engine.watchers
        invariant forall t :: t in offs[..i] ==> t.path in old(engine.watchers)
        invariant (engine.watchers, engine.timers) == OffAll(old(engine.watchers), old(engine.timers), offs[..i])
      {
        assert offs[..i + 1] == offs[..i] + [offs[i]];
        assert offs[i] in offs;
        OffAllAppend(old(engine.watchers), old(engine.timers), offs[..i], offs[i]);
        engine.Off(offs[i]);
        i := i + 1;
      }
      assert offs[..i] == offs;
    }
  }

  /** The object `_watch` returns. */
  class Handle {
    const session: Session
    const path: string
    /** `_off`: the unsubscribe function of the latest `on`, if any. */
    var off: Option<Token>

    constructor (session: Session, path: string)
      ensures this.session == session && this.path == path && off == None
    {
      this.session := session;
      this.path := path;
      off := None;
    }

    /** `on`: subscribe through the shared watcher, remember the unsubscribe
        function both here (replacing the previous one) and in the session. */
    method On(cb: Callback) returns (tok: Token)
      requires session.Valid() && path in session.engine.watchers
      modifies this`off, session`offs, session.engine`watchers, session.engine`timers
      ensures session.Valid() && tok == Token(path, cb)
      ensures off == Some(tok) && session.offs == old(session.offs) + [tok]
      ensures var e := session.engine;
              var w := old(e.watchers)[path];
              e.watchers == old(e.watchers)[path := w.(listeners := w.listeners + [cb])]
              && e.timers == if w.listeners == [] then old(e.timers)[path := Pending(RETRY_DELAY)] else old(e.timers)
    {
      tok := session.engine.On(path, cb);
      off := Some(tok);
      session.offs := session.offs + [tok];
    }

    /** `close`: run only the latest unsubscribe function, if there is one. */
    method Close()
      requires session.Valid() && (off.Some? ==> off.value.path in session.engine.watchers)
      modifies session.engine`watchers, session.engine`timers
      ensures session.Valid()
      ensures off.Some? ==>
        (session.engine.watchers, session.engine.timers)
          == OffStep(old(session.engine.watchers), old(session.engine.timers), off.value)
      ensures off.None? ==>
        session.engine.watchers == old(session.engine.watchers)
        && session.engine.timers == old(session.engine.timers)
    {
      if off.Some? {
        session.engine.Off(off.value);
      }
    }
  }
}
