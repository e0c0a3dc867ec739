/** The browser-process enhancer: the registry of renderers, the guarded
    dispatch, and the broadcast of each dispatch's diff to every live renderer
    through that renderer's interest shape. */
module Browser {
  import opened Values
  import opened Shapes
  import opened Difference
  import opened Protocol

  /** A registered renderer (one `webContents`): its interest, its client id, the
      id of its owning window, the window it is the main contents of (`None` for
      a webview), and whether it is still live. */
  datatype Client = Client(filter: Shape, clientId: string, windowId: nat, window: Option<nat>, active: bool)

  /** The least element of a non-empty set, found by removing elements one at a
      time. */
  ghost function Least(s: set<nat>): (m: nat)
    requires s != {}
    ensures m in s && forall x :: x in s ==> m <= x
    decreases s
  {
    var y :| y in s;
    if s == {y} then y
    else
      var m := Least(s - {y});
      assert forall x :: x in s ==> x == y || x in s - {y};
      if y < m then y else m
  }

  /** The smallest element of a non-empty set. */
  function MinOf(s: set<nat>): (m: nat)
    requires s != {}
    ensures m in s && forall x :: x in s ==> m <= x
  {
    assert Least(s) in s;
    var m :| m in s && forall x :: x in s ==> m <= x;
    m
  }

  /** The keys of `clients` in the order `for ... in` visits integer keys:
      ascending. */
  function Ascending(s: set<nat>): (r: seq<nat>)
    ensures forall x :: x in r <==> x in s
    ensures forall i, j :: 0 <= i < j < |r| ==> r[i] < r[j]
    decreases |s|
  {
    if s == {} then []
    else
      var m := MinOf(s);
      [m] + Ascending(s - {m})
  }

  /** `fillShape` of both halves of the diff through one renderer's interest. */
  function Project(diff: Delta, filter: Shape): (r: Result<Data>)
    ensures filter.Whole? ==> r == Ok(Data(Some(Obj(diff.updated)), Some(Obj(diff.deleted))))
    ensures filter.Unset? ==> r == Ok(Data(None, None))
    ensures r.Throws? ==> ShapeError(r.error)
    ensures r.Throws? <==> FillShape(Obj(diff.updated), filter).Throws? || FillShape(Obj(diff.deleted), filter).Throws?
    ensures FillShape(Obj(diff.updated), filter).Ok? && FillShape(Obj(diff.deleted), filter).Ok? ==>
              r == Ok(Data(FillShape(Obj(diff.updated), filter).value, FillShape(Obj(diff.deleted), filter).value))
    ensures r.Ok? && r.value.updated.Some? ==> Within(r.value.updated.value, Obj(diff.updated))
    ensures r.Ok? && r.value.deleted.Some? ==> Within(r.value.deleted.value, Obj(diff.deleted))
  {
    match FillShape(Obj(diff.updated), filter)
    case Throws(e) => Throws(e)
    case Ok(updated) =>
      match FillShape(Obj(diff.deleted), filter)
      case Throws(e) => Throws(e)
      case Ok(deleted) => Ok(Data(updated, deleted))
  }

  /** The transfer one renderer receives: the action's `type` and `payload`,
      the projected delta, and the originating client. */
  function Message(a: Action, d: Data, origin: string): (r: Transfer)
    ensures r.action.actionType == a.actionType && r.action.payload == a.payload && r.action.data == Some(d)
    ensures r.action.source == "" && r.sourceClientId == origin
  {
    Transfer(Action(a.actionType, a.payload, "", Some(d)), origin)
  }

  /** The broadcast loop's state: the registry, what was sent so far, and the
      error that stopped it, if any. */
  datatype Sweeping = Sweeping(clients: map<nat, Client>, sent: seq<Envelope>, error: Option<Error>)

  /** One turn of the broadcast loop: an inactive renderer is skipped, a dead
      one is deactivated and skipped, a live one is sent its projection; a
      throwing projection stops the loop. */
  function Visit(acc: Sweeping, id: nat, dead: set<nat>, diff: Delta, a: Action, origin: string): (r: Sweeping)
    ensures acc.error.Some? ==> r == acc
    ensures Demoted(acc.clients, r.clients)
    ensures r.sent == acc.sent || (|r.sent| == |acc.sent| + 1 && r.sent[..|acc.sent|] == acc.sent && r.sent[|acc.sent|].to == id)
  {
    if acc.error.Some? || id !in acc.clients || !acc.clients[id].active then acc
    else if id in dead then acc.(clients := acc.clients[id := acc.clients[id].(active := false)])
    else
      match Project(diff, acc.clients[id].filter)
      case Throws(e) => acc.(error := Some(e))
      case Ok(d) => acc.(sent := acc.sent + [Envelope(id, Message(a, d, origin))])
  }

  /** The broadcast loop over `ids`, in order. */
  function Sweep(ids: seq<nat>, clients: map<nat, Client>, dead: set<nat>, diff: Delta, a: Action, origin: string): (r: Sweeping)
    ensures |r.sent| <= |ids|
    decreases |ids|
  {
    if ids == [] then Sweeping(clients, [], None)
    else Visit(Sweep(ids[..|ids| - 1], clients, dead, diff, a, origin), ids[|ids| - 1], dead, diff, a, origin)
  }

  /** `after` is `before` with some records deactivated: nothing is removed or
      added, and nothing else about a record changes. */
  ghost predicate Demoted(before: map<nat, Client>, after: map<nat, Client>) {
    after.Keys == before.Keys &&
    forall id :: id in before ==> after[id] == before[id] || after[id] == before[id].(active := false)
  }

  /** The ids, in order, that are registered, active and not dead. */
  function Live(ids: seq<nat>, clients: map<nat, Client>, dead: set<nat>): (r: seq<nat>)
    ensures forall x :: x in r ==> x in ids && x in clients && clients[x].active && x !in dead
    decreases |ids|
  {
    if ids == [] then []
    else
      var id := ids[|ids| - 1];
      Live(ids[..|ids| - 1], clients, dead) +
        (if id in clients && clients[id].active && id !in dead then [id] else [])
  }

  /** The recipients of a sequence of envelopes, in order. */
  function Recipients(sent: seq<Envelope>): (r: seq<nat>)
    ensures |r| == |sent| && forall i :: 0 <= i < |sent| ==> r[i] == sent[i].to
  {
    seq(|sent|, i requires 0 <= i < |sent| => sent[i].to)
  }

  /** The broadcast only deactivates, and only sends to renderers that were
      registered, active and not dead, each its own projection of the diff. */
  lemma {:induction false} SweepSafety(ids: seq<nat>, clients: map<nat, Client>, dead: set<nat>, diff: Delta, a: Action, origin: string)
    ensures var r := Sweep(ids, clients, dead, diff, a, origin);
            && Demoted(clients, r.clients)
            && forall e :: e in r.sent ==>
                 && e.to in ids && e.to in clients && clients[e.to].active && e.to !in dead
                 && Project(diff, clients[e.to].filter).Ok?
                 && e.transfer == Message(a, Project(diff, clients[e.to].filter).value, origin)
    decreases |ids|
  {
    if ids != [] {
      var prefix := ids[..|ids| - 1];
      SweepSafety(prefix, clients, dead, diff, a, origin);
      var acc := Sweep(prefix, clients, dead, diff, a, origin);
      var id := ids[|ids| - 1];
      if acc.error.None? && id in acc.clients && acc.clients[id].active && id !in dead {
        assert acc.clients[id] == clients[id];
      }
      forall e | e in Sweep(ids, clients, dead, diff, a, origin).sent
        ensures e.to in ids
      {
        if e in acc.sent {
          assert e.to in prefix;
        }
      }
    }
  }

  /** Once the loop has stopped on an error, later ids change nothing. */
  lemma {:induction false} SweepStops(ids: seq<nat>, i: nat, clients: map<nat, Client>, dead: set<nat>, diff: Delta, a: Action, origin: string)
    requires i <= |ids|
    requires Sweep(ids[..i], clients, dead, diff, a, origin).error.Some?
    ensures Sweep(ids, clients, dead, diff, a, origin) == Sweep(ids[..i], clients, dead, diff, a, origin)
    decreases |ids| - i
  {
    if i < |ids| {
      assert ids[..i + 1][..i] == ids[..i];
      SweepStops(ids, i + 1, clients, dead, diff, a, origin);
    } else {
      assert ids[..i] == ids;
    }
  }

  /** One more turn of the loop. */
  lemma SweepStep(ids: seq<nat>, i: nat, clients: map<nat, Client>, dead: set<nat>, diff: Delta, a: Action, origin: string)
    requires i < |ids|
    ensures Sweep(ids[..i + 1], clients, dead, diff, a, origin) == Visit(Sweep(ids[..i], clients, dead, diff, a, origin), ids[i], dead, diff, a, origin)
  {
    assert ids[..i + 1][..i] == ids[..i];
  }

  /** Ids are pairwise distinct. */
  predicate Distinct(ids: seq<nat>) {
    forall i, j :: 0 <= i < j < |ids| ==> ids[i] != ids[j]
  }

  /** A broadcast over distinct ids that runs to the end deactivates exactly
      the dead ones among the active renderers it visits and leaves every other
      record as it was. */
  lemma {:induction false} SweepDeactivates(ids: seq<nat>, clients: map<nat, Client>, dead: set<nat>, diff: Delta, a: Action, origin: string)
    requires Distinct(ids)
    requires Sweep(ids, clients, dead, diff, a, origin).error.None?
    ensures var r := Sweep(ids, clients, dead, diff, a, origin);
            && r.clients.Keys == clients.Keys
            && forall id :: id in clients ==>
                 r.clients[id] == if id in ids && clients[id].active && id in dead
                                  then clients[id].(active := false) else clients[id]
    decreases |ids|
  {
    if ids != [] {
      var prefix := ids[..|ids| - 1];
      var id := ids[|ids| - 1];
      assert Distinct(prefix);
      assert id !in prefix;
      SweepDeactivates(prefix, clients, dead, diff, a, origin);
      forall y | y in clients
        ensures y in ids <==> y in prefix || y == id
      {
        if y in ids {
          var i :| 0 <= i < |ids| && ids[i] == y;
          if i < |ids| - 1 {
            assert prefix[i] == y;
          }
        }
      }
    }
  }

  /** A broadcast over distinct ids that runs to the end sends exactly one
      message to each live renderer, in the order of the ids. */
  lemma {:induction false} SweepRecipients(ids: seq<nat>, clients: map<nat, Client>, dead: set<nat>, diff: Delta, a: Action, origin: string)
    requires Distinct(ids)
    requires Sweep(ids, clients, dead, diff, a, origin).error.None?
    ensures Recipients(Sweep(ids, clients, dead, diff, a, origin).sent) == Live(ids, clients, dead)
    decreases |ids|
  {
    if ids != [] {
      var prefix := ids[..|ids| - 1];
      var id := ids[|ids| - 1];
      var acc := Sweep(prefix, clients, dead, diff, a, origin);
      assert Distinct(prefix);
      assert id !in prefix;
      SweepRecipients(prefix, clients, dead, diff, a, origin);
      SweepDeactivates(prefix, clients, dead, diff, a, origin);
      var r := Sweep(ids, clients, dead, diff, a, origin);
      if id in clients && clients[id].active && id !in dead {
        assert acc.clients[id] == clients[id];
        assert Recipients(r.sent) == Recipients(acc.sent) + [id];
      } else {
        assert r.sent == acc.sent;
      }
    }
  }

  /** Registration as the source writes it: an active record is left alone;
      otherwise the record is written, and when the renderer is the main
      contents of a window, whatever the window mapped to is deactivated and
      the window is mapped to the new id. The deactivation runs after the
      write, so a renderer that the window already maps to deactivates the
      record it has just written. */
  function RegisteredAsWritten(clients: map<nat, Client>, windowMap: map<nat, nat>, id: nat, c: Client): (r: (map<nat, Client>, map<nat, nat>))
    requires forall w :: w in windowMap ==> windowMap[w] in clients
    ensures id in clients && clients[id].active ==> r == (clients, windowMap)
    ensures !(id in clients && clients[id].active) ==>
              && r.0.Keys == clients.Keys + {id}
              && r.0[id] == (if SelfMapped(windowMap, id, c) then c.(active := false) else c)
              && (c.window.None? ==> r.0 == clients[id := c] && r.1 == windowMap)
              && (c.window.Some? ==> r.1 == windowMap[c.window.value := id])
              && (forall x :: x in clients && x != id ==>
                    r.0[x] == if c.window.Some? && c.window.value in windowMap && windowMap[c.window.value] == x
                              then clients[x].(active := false) else clients[x])
  {
    if id in clients && clients[id].active then (clients, windowMap)
    else
      var written := clients[id := c];
      match c.window
      case None => (written, windowMap)
      case Some(w) =>
        var displaced := if w in windowMap then written[windowMap[w] := written[windowMap[w]].(active := false)] else written;
        (displaced, windowMap[w := id])
  }

  /** The window of record `c` already maps to renderer `id`. */
  predicate SelfMapped(windowMap: map<nat, nat>, id: nat, c: Client) {
    c.window.Some? && c.window.value in windowMap && windowMap[c.window.value] == id
  }

  /** Registration with the displaced renderer deactivated only when it is a
      different one: the fresh record stays active. */
  function Registered(clients: map<nat, Client>, windowMap: map<nat, nat>, id: nat, c: Client): (r: (map<nat, Client>, map<nat, nat>))
    requires forall w :: w in windowMap ==> windowMap[w] in clients
    ensures id in clients && clients[id].active ==> r == (clients, windowMap)
    ensures !(id in clients && clients[id].active) ==>
              && r.0.Keys == clients.Keys + {id}
              && r.0[id] == c
              && (c.window.None? ==> r.0 == clients[id := c] && r.1 == windowMap)
              && (c.window.Some? ==> r.1 == windowMap[c.window.value := id])
              && (forall x :: x in clients && x != id ==>
                    r.0[x] == if c.window.Some? && c.window.value in windowMap && windowMap[c.window.value] == x
                              then clients[x].(active := false) else clients[x])
  {
    if id in clients && clients[id].active then (clients, windowMap)
    else
      var written := clients[id := c];
      match c.window
      case None => (written, windowMap)
      case Some(w) =>
        var displaced :=
          if w in windowMap && windowMap[w] != id then written[windowMap[w] := written[windowMap[w]].(active := false)]
          else written;
        (displaced, windowMap[w := id])
  }

  /** The source's registration deactivates a renderer that re-registers into
      the window that already maps to it: webContents 5, the main contents of
      window 1, was deactivated (it crashed, say) and registers again. */
  lemma ReRegisterAsWrittenDeactivatesItself(f: Shape)
    ensures var clients := map[5 := Client(f, "window 1", 1, Some(1), false)];
            var again := Client(f, "window 1", 1, Some(1), true);
            var r := RegisteredAsWritten(clients, map[1 := 5], 5, again);
            5 in r.0 && !r.0[5].active
  {
  }

  /** The corrected registration keeps that renderer active. */
  lemma ReRegisterKeepsItselfActive(f: Shape)
    ensures var clients := map[5 := Client(f, "window 1", 1, Some(1), false)];
            var again := Client(f, "window 1", 1, Some(1), true);
            var r := Registered(clients, map[1 := 5], 5, again);
            5 in r.0 && r.0[5].active
  {
  }

  /** The registry's invariant: the window map and the close listeners refer
      to registered renderers, and every active renderer that is the main
      contents of a window is the one that window maps to, so a window has at
      most one live renderer. */
  ghost predicate Consistent(clients: map<nat, Client>, windowMap: map<nat, nat>, closeHooks: seq<(nat, nat)>) {
    && (forall w :: w in windowMap ==> windowMap[w] in clients)
    && (forall i :: 0 <= i < |closeHooks| ==> closeHooks[i].1 in clients)
    && (forall id :: id in clients && clients[id].active && clients[id].window.Some? ==>
          clients[id].window.value in windowMap && windowMap[clients[id].window.value] == id)
  }

  /** Registration keeps the registry consistent and never removes a record;
      a fresh record is active. */
  lemma RegisterKeepsConsistent(clients: map<nat, Client>, windowMap: map<nat, nat>, closeHooks: seq<(nat, nat)>, id: nat, c: Client)
    requires Consistent(clients, windowMap, closeHooks) && c.active
    ensures var r := Registered(clients, windowMap, id, c);
            var hooks := if (id in clients && clients[id].active) || c.window.None? then closeHooks
                         else closeHooks + [(c.window.value, id)];
            && Consistent(r.0, r.1, hooks)
            && clients.Keys <= r.0.Keys
            && id in r.0 && r.0[id].active
  {
    var r := Registered(clients, windowMap, id, c);
    if !(id in clients && clients[id].active) && c.window.Some? {
      var w := c.window.value;
      forall x | x in r.0 && r.0[x].active && r.0[x].window.Some?
        ensures r.0[x].window.value in r.1 && r.1[r.0[x].window.value] == x
      {
        if x != id && r.0[x].window.value == w {
          assert false;
        }
      }
    }
  }

  /** The source's registration keeps the registry consistent too and never
      removes a record; the fresh record is active unless its window already
      mapped to it. */
  lemma RegisterAsWrittenKeepsConsistent(clients: map<nat, Client>, windowMap: map<nat, nat>, closeHooks: seq<(nat, nat)>, id: nat, c: Client)
    requires Consistent(clients, windowMap, closeHooks) && c.active
    ensures var r := RegisteredAsWritten(clients, windowMap, id, c);
            var hooks := if (id in clients && clients[id].active) || c.window.None? then closeHooks
                         else closeHooks + [(c.window.value, id)];
            && Consistent(r.0, r.1, hooks)
            && clients.Keys <= r.0.Keys
            && id in r.0
            && (r.0[id].active <==> (id in clients && clients[id].active) || !SelfMapped(windowMap, id, c))
  {
    var r := RegisteredAsWritten(clients, windowMap, id, c);
    if !(id in clients && clients[id].active) && c.window.Some? {
      var w := c.window.value;
      forall x | x in r.0 && r.0[x].active && r.0[x].window.Some?
        ensures r.0[x].window.value in r.1 && r.1[r.0[x].window.value] == x
      {
        if x != id && r.0[x].window.value == w {
          assert false;
        }
      }
    }
  }

  /** Deactivating records keeps the registry consistent. */
  lemma DemotedKeepsConsistent(clients: map<nat, Client>, after: map<nat, Client>, windowMap: map<nat, nat>, closeHooks: seq<(nat, nat)>)
    requires Consistent(clients, windowMap, closeHooks) && Demoted(clients, after)
    ensures Consistent(after, windowMap, closeHooks)
  {
    forall id | id in after && after[id].active && after[id].window.Some?
      ensures after[id].window.value in windowMap && windowMap[after[id].window.value] == id
    {
      assert after[id] == clients[id];
    }
  }

  /** Two renderers register in turn as the main contents of the same window:
      the first is deactivated, the second is active, and no broadcast sends
      to the first. */
  lemma SecondConnectionReplacesFirst(
    clients: map<nat, Client>, windowMap: map<nat, nat>, first: nat, second: nat, c1: Client, c2: Client,
    ids: seq<nat>, dead: set<nat>, diff: Delta, a: Action, origin: string)
    requires forall w :: w in windowMap ==> windowMap[w] in clients
    requires first != second && c1.active && c2.active && c1.window.Some? && c2.window == c1.window
    requires !(first in clients && clients[first].active) && !(second in clients && clients[second].active)
    ensures var r1 := RegisteredAsWritten(clients, windowMap, first, c1);
            var r2 := RegisteredAsWritten(r1.0, r1.1, second, c2);
            && !r2.0[first].active && r2.0[second].active
            && forall e :: e in Sweep(ids, r2.0, dead, diff, a, origin).sent ==> e.to != first
  {
    var r1 := RegisteredAsWritten(clients, windowMap, first, c1);
    var r2 := RegisteredAsWritten(r1.0, r1.1, second, c2);
    SweepSafety(ids, r2.0, dead, diff, a, origin);
  }

  /** The broadcast loop of `store.dispatch`: each id in turn, stopping at the
      first projection that throws. */
  method SweepLoop(ids: seq<nat>, clients: map<nat, Client>, dead: set<nat>, diff: Delta, a: Action, origin: string)
    returns (r: Sweeping)
    ensures r == Sweep(ids, clients, dead, diff, a, origin)
  {
    var registry, sent, failed := clients, [], None;
    var i := 0;
    while i < |ids| && failed.None?
      invariant 0 <= i <= |ids|
      invariant Sweeping(registry, sent, failed) == Sweep(ids[..i], clients, dead, diff, a, origin)
    {
      var id := ids[i];
      SweepStep(ids, i, clients, dead, diff, a, origin);
      if id in registry && registry[id].active {
        if id in dead {
          registry := registry[id := registry[id].(active := false)];
        } else {
          match Project(diff, registry[id].filter)
          case Throws(e) =>
            failed := Some(e);
          case Ok(d) =>
            sent := sent + [Envelope(id, Message(a, d, origin))];
        }
      }
      i := i + 1;
    }
    if failed.Some? {
      SweepStops(ids, i, clients, dead, diff, a, origin);
    } else {
      assert ids[..i] == ids;
    }
    return Sweeping(registry, sent, failed);
  }

  /** The browser store after the enhancer has wrapped it. `senderClientId` is
      "" for `null`; `outbox` is every transfer sent so far; `listenerFlushes`
      counts the calls to `callListeners`; `closeHooks` are the window `closed`
      listeners, each a (window, webContents) pair. */
  class BrowserStore {
    const currentSource: string
    const reducer: (Tree, Option<Action>) -> Result<Tree>
    const hooks: Hooks
    var state: Tree
    var clients: map<nat, Client>
    var windowMap: map<nat, nat>
    var closeHooks: seq<(nat, nat)>
    var senderClientId: string
    var isDispatching: bool
    var outbox: seq<Envelope>
    var listenerFlushes: nat

    ghost predicate Valid()
      reads this`clients, this`windowMap, this`closeHooks, this`isDispatching
    {
      Consistent(clients, windowMap, closeHooks) && !isDispatching
    }

    /** `currentSource` is `sourceName || 'main_process'`. */
    constructor (sourceName: string, reducer: (Tree, Option<Action>) -> Result<Tree>, hooks: Hooks, initial: Tree)
      ensures Valid()
      ensures currentSource == Or(sourceName, "main_process")
      ensures this.reducer == reducer && this.hooks == hooks && state == initial
      ensures clients == map[] && windowMap == map[] && closeHooks == [] && outbox == []
      ensures senderClientId == "" && listenerFlushes == 0
    {
      currentSource := Or(sourceName, "main_process");
      this.reducer := reducer;
      this.hooks := hooks;
      state := initial;
      clients := map[];
      windowMap := map[];
      closeHooks := [];
      senderClientId := "";
      isDispatching := false;
      outbox := [];
      listenerFlushes := 0;
    }

    /** `unregisterRenderer`: the record stays, marked inactive. */
    method Unregister(id: nat)
      requires Valid() && id in clients
      modifies this`clients
      ensures Valid()
      ensures clients == old(clients)[id := old(clients)[id].(active := false)]
    {
      clients := clients[id := clients[id].(active := false)];
      DemotedKeepsConsistent(old(clients), clients, windowMap, closeHooks);
    }

    /** The register-renderer handler as written: the record is written, then
        whatever renderer the window mapped to is deactivated, which is the
        renderer itself when the window already mapped to it; a renderer that
        is the main contents of a window also gets a `closed` listener on that
        window. */
    method Register(id: nat, filter: Shape, clientId: string, windowId: nat, window: Option<nat>)
      requires Valid()
      modifies this`clients, this`windowMap, this`closeHooks
      ensures Valid()
      ensures old(id in clients && clients[id].active) ==>
                clients == old(clients) && windowMap == old(windowMap) && closeHooks == old(closeHooks)
      ensures !old(id in clients && clients[id].active) ==>
                && (clients, windowMap) == RegisteredAsWritten(old(clients), old(windowMap), id, Client(filter, clientId, windowId, window, true))
                && closeHooks == old(closeHooks) + (if window.Some? then [(window.value, id)] else [])
      ensures old(clients).Keys <= clients.Keys && id in clients
      ensures clients[id].active <==>
                old(id in clients && clients[id].active) || !SelfMapped(old(windowMap), id, Client(filter, clientId, windowId, window, true))
    {
      if id in clients && clients[id].active {
        return;
      }
      var c := Client(filter, clientId, windowId, window, true);
      RegisterAsWrittenKeepsConsistent(clients, windowMap, closeHooks, id, c);
      var r := RegisteredAsWritten(clients, windowMap, id, c);
      clients, windowMap := r.0, r.1;
      if window.Some? {
        closeHooks := closeHooks + [(window.value, id)];
      }
    }

    /** The window's `closed` event: each of its listeners, in the order they
        were added, deactivates its renderer. */
    method WindowClosed(w: nat)
      requires Valid()
      modifies this`clients
      ensures Valid()
      ensures Demoted(old(clients), clients)
      ensures forall id :: id in clients ==>
                clients[id] == if (w, id) in closeHooks then old(clients)[id].(active := false) else old(clients)[id]
    {
      var registry := clients;
      var i := 0;
      while i < |closeHooks|
        invariant 0 <= i <= |closeHooks|
        invariant clients == old(clients)
        invariant registry.Keys == clients.Keys
        invariant forall id :: id in registry ==>
                    registry[id] == if (w, id) in closeHooks[..i] then clients[id].(active := false) else clients[id]
      {
        if closeHooks[i].0 == w {
          var id := closeHooks[i].1;
          registry := registry[id := registry[id].(active := false)];
        }
        assert closeHooks[..i + 1] == closeHooks[..i] + [closeHooks[i]];
        i := i + 1;
      }
      assert closeHooks[..i] == closeHooks;
      DemotedKeepsConsistent(clients, registry, windowMap, closeHooks);
      clients := registry;
    }

    /** The action with its `source` stamped: `action.source || currentSource`. */
    function Stamped(a: Action): (r: Action)
      ensures a.source != "" ==> r.source == a.source
      ensures a.source == "" ==> r.source == currentSource
      ensures r.actionType == a.actionType && r.payload == a.payload && r.data == a.data
    {
      a.(source := Or(a.source, currentSource))
    }

    /** The underlying reducer applied to `a`. */
    function Reduction(a: Action): Tree -> Result<Tree> {
      (s: Tree) => reducer(s, Some(a))
    }

    /** The guarded reduction of the stamped action from `before`. */
    function Run(before: Tree, a: Action): (r: (Tree, Outcome))
      ensures r.1.Completed? ==> reducer(before, Some(Stamped(a))) == Ok(r.0)
      ensures r.1.Threw? ==> r.0 == before || hooks.postThrows(Stamped(a))
      ensures !hooks.preThrows(Stamped(a)) && reducer(before, Some(Stamped(a))).Ok? ==>
                r.0 == reducer(before, Some(Stamped(a))).value
    {
      Guarded(hooks, Reduction(Stamped(a)), before, Stamped(a))
    }

    /** `doDispatch`: the pre-hook, the reduction and the post-hook, each of
        which may throw; `isDispatching` is back to false on every exit. */
    method DoDispatch(action: Action) returns (outcome: Outcome)
      requires !isDispatching
      modifies this`state, this`isDispatching
      ensures !isDispatching
      ensures (state, outcome) == Guarded(hooks, Reduction(action), old(state), action)
    {
      isDispatching := true;
      if hooks.preThrows(action) {
        isDispatching := false;
        return Threw(CallbackThrew);
      }
      match reducer(state, Some(action))
      case Throws(e) =>
        isDispatching := false;
        return Threw(e);
      case Ok(s) =>
        state := s;
        isDispatching := false;
        outcome := if hooks.postThrows(action) then Threw(CallbackThrew) else Completed;
    }

    /** The broadcast step of `store.dispatch`. */
    method Broadcast(diff: Delta, a: Action, origin: string, dead: set<nat>) returns (failed: Option<Error>)
      requires Valid()
      modifies this`clients, this`outbox
      ensures Valid()
      ensures var sweep := Sweep(Ascending(old(clients).Keys), old(clients), dead, diff, a, origin);
              clients == sweep.clients && outbox == old(outbox) + sweep.sent && failed == sweep.error
    {
      var ids := Ascending(clients.Keys);
      var r := SweepLoop(ids, clients, dead, diff, a, origin);
      SweepSafety(ids, clients, dead, diff, a, origin);
      DemotedKeepsConsistent(clients, r.clients, windowMap, closeHooks);
      clients, outbox, failed := r.clients, outbox + r.sent, r.error;
    }

    /** `store.dispatch` of a falsy action: it goes straight to the underlying
        dispatch, then `senderClientId` is cleared and the listeners run once;
        an exception skips both. */
    method DispatchFalsy() returns (r: Result<Option<Action>>)
      requires Valid()
      modifies this`state, this`senderClientId, this`listenerFlushes
      ensures Valid()
      ensures reducer(old(state), None).Throws? ==>
                && r == Throws(reducer(old(state), None).error) && state == old(state)
                && senderClientId == old(senderClientId) && listenerFlushes == old(listenerFlushes)
      ensures reducer(old(state), None).Ok? ==>
                && r == Ok(None) && state == reducer(old(state), None).value
                && senderClientId == "" && listenerFlushes == old(listenerFlushes) + 1
    {
      match reducer(state, None)
      case Throws(e) =>
        return Throws(e);
      case Ok(s) =>
        state := s;
      senderClientId := "";
      listenerFlushes := listenerFlushes + 1;
      return Ok(None);
    }

    /** What `store.dispatch` does once the reduction has completed: the diff of
        the state is broadcast under `origin`, the renderer being served or else
        this process; then `senderClientId` is cleared and the
        listeners run once, unless the broadcast threw. */
    method Publish(diff: Delta, a: Action, origin: string, dead: set<nat>) returns (r: Result<Option<Action>>)
      requires Valid()
      modifies this`clients, this`outbox, this`senderClientId, this`listenerFlushes
      ensures Valid()
      ensures var sweep := Sweep(Ascending(old(clients).Keys), old(clients), dead, diff, a, origin);
              && clients == sweep.clients && outbox == old(outbox) + sweep.sent
              && (sweep.error.Some? ==>
                    r == Throws(sweep.error.value) && senderClientId == old(senderClientId)
                    && listenerFlushes == old(listenerFlushes))
              && (sweep.error.None? ==>
                    r == Ok(Some(a)) && senderClientId == "" && listenerFlushes == old(listenerFlushes) + 1)
    {
      var failed := Broadcast(diff, a, origin, dead);
      if failed.Some? {
        return Throws(failed.value);
      }
      senderClientId := "";
      listenerFlushes := listenerFlushes + 1;
      return Ok(Some(a));
    }

    /** `store.dispatch` of an action: its `source` is stamped if unset, the
        guarded reduction runs, and the diff of the state is broadcast, named
        after the renderer being served or else this process. Then
        `senderClientId` is cleared and the listeners run once. An exception
        skips everything after it. */
    method Dispatch(action: Action, dead: set<nat>) returns (r: Result<Option<Action>>)
      requires Valid()
      modifies this`state, this`isDispatching, this`clients, this`outbox, this`senderClientId, this`listenerFlushes
      ensures Valid()
      ensures state == Run(old(state), action).0
      ensures Run(old(state), action).1.Threw? ==>
                && r == Throws(Run(old(state), action).1.error)
                && clients == old(clients) && outbox == old(outbox)
                && senderClientId == old(senderClientId) && listenerFlushes == old(listenerFlushes)
      ensures Run(old(state), action).1.Completed? ==>
                var sweep := Sweep(Ascending(old(clients).Keys), old(clients), dead,
                                   ObjectDifference(old(state), state), Stamped(action), Or(old(senderClientId), currentSource));
                && clients == sweep.clients && outbox == old(outbox) + sweep.sent
                && (sweep.error.Some? ==>
                      r == Throws(sweep.error.value) && senderClientId == old(senderClientId)
                      && listenerFlushes == old(listenerFlushes))
                && (sweep.error.None? ==>
                      r == Ok(Some(Stamped(action))) && senderClientId == "" && listenerFlushes == old(listenerFlushes) + 1)
    {
      var a := Stamped(action);
      var prevState := state;
      var outcome := DoDispatch(a);
      if outcome.Threw? {
        return Throws(outcome.error);
      }
      r := Publish(ObjectDifference(prevState, state), a, Or(senderClientId, currentSource), dead);
    }

    /** The renderer-dispatch handler: the forwarded action is dispatched on
        behalf of `clientId`, so every transfer it broadcasts names that client
        as its origin. When the dispatch throws, `senderClientId` keeps that
        client id. */
    method HandleRendererDispatch(action: Option<Action>, clientId: string, dead: set<nat>) returns (r: Result<Option<Action>>)
      requires Valid()
      modifies this`state, this`isDispatching, this`clients, this`outbox, this`senderClientId, this`listenerFlushes
      ensures Valid()
      ensures r.Ok? ==> senderClientId == ""
      ensures r.Throws? ==> senderClientId == clientId
      ensures action.None? ==>
                && clients == old(clients) && outbox == old(outbox)
                && state == (if reducer(old(state), None).Ok? then reducer(old(state), None).value else old(state))
                && r == (if reducer(old(state), None).Ok? then Ok(None) else Throws(reducer(old(state), None).error))
      ensures action.Some? ==> state == Run(old(state), action.value).0
      ensures action.Some? && Run(old(state), action.value).1.Threw? ==>
                clients == old(clients) && outbox == old(outbox) && r == Throws(Run(old(state), action.value).1.error)
      ensures action.Some? && Run(old(state), action.value).1.Completed? ==>
                var sweep := Sweep(Ascending(old(clients).Keys), old(clients), dead,
                                   ObjectDifference(old(state), state), Stamped(action.value), Or(clientId, currentSource));
                && clients == sweep.clients && outbox == old(outbox) + sweep.sent
                && r == (if sweep.error.Some? then Throws(sweep.error.value) else Ok(Some(Stamped(action.value))))
      ensures |old(outbox)| <= |outbox|
      ensures forall e :: e in outbox[|old(outbox)|..] ==> e.transfer.sourceClientId == Or(clientId, currentSource)
    {
      senderClientId := clientId;
      if action.None? {
        r := DispatchFalsy();
        return;
      }
      r := Dispatch(action.value, dead);
      if Run(old(state), action.value).1.Completed? {
        SweepSafety(Ascending(old(clients).Keys), old(clients), dead,
                    ObjectDifference(old(state), state), Stamped(action.value), Or(clientId, currentSource));
      }
      assert outbox[..|old(outbox)|] == old(outbox);
    }

    /** The renderer-dispatch handler with `senderClientId` cleared on every
        exit, as a `finally` would: whatever the dispatch does, the next
        dispatch of this process's own is broadcast under its own source. */
    method HandleRendererDispatchReset(action: Option<Action>, clientId: string, dead: set<nat>) returns (r: Result<Option<Action>>)
      requires Valid()
      modifies this`state, this`isDispatching, this`clients, this`outbox, this`senderClientId, this`listenerFlushes
      ensures Valid()
      ensures senderClientId == ""
      ensures action.None? ==>
                && clients == old(clients) && outbox == old(outbox)
                && state == (if reducer(old(state), None).Ok? then reducer(old(state), None).value else old(state))
                && r == (if reducer(old(state), None).Ok? then Ok(None) else Throws(reducer(old(state), None).error))
      ensures action.Some? ==> state == Run(old(state), action.value).0
      ensures action.Some? && Run(old(state), action.value).1.Threw? ==>
                clients == old(clients) && outbox == old(outbox) && r == Throws(Run(old(state), action.value).1.error)
      ensures action.Some? && Run(old(state), action.value).1.Completed? ==>
                var sweep := Sweep(Ascending(old(clients).Keys), old(clients), dead,
                                   ObjectDifference(old(state), state), Stamped(action.value), Or(clientId, currentSource));
                && clients == sweep.clients && outbox == old(outbox) + sweep.sent
                && r == (if sweep.error.Some? then Throws(sweep.error.value) else Ok(Some(Stamped(action.value))))
      ensures |old(outbox)| <= |outbox|
      ensures forall e :: e in outbox[|old(outbox)|..] ==> e.transfer.sourceClientId == Or(clientId, currentSource)
    {
      r := HandleRendererDispatch(action, clientId, dead);
      senderClientId := "";
    }
  }
}
