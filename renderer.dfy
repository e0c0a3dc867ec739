/** The renderer-process enhancer: the replica store that bootstraps from the
    browser store's state, forwards its own actions to the browser, and applies
    the deltas the browser broadcasts. */
module Renderer {
  import opened Values
  import opened Shapes
  import opened Filter
  import opened Merge
  import opened Difference
  import opened Sync
  import opened Protocol
  import opened Browser

  /** The enhancer's options: the interest shape, whether state outside it is
      dropped, whether local actions are reduced locally at once, the dispatch
      callbacks, the state transformer, and the source name ("" when unset). */
  datatype Options = Options(
    filter: Shape,
    excludeUnfilteredState: bool,
    synchronous: bool,
    hooks: Hooks,
    transform: Option<Value> -> Option<Value>,
    sourceName: string)

  /** The options when none are given. */
  const Defaults: Options :=
    Options(Whole, false, true, Hooks(a => false, a => false), v => v, "")

  /** The reducer the application passes in; `None` is `undefined`. */
  type Reducer = (Option<Value>, Option<Action>) -> Result<Value>

  /** What the renderer sends to the browser process. */
  datatype Outgoing =
    | RegisterRenderer(filter: Shape, clientId: string)
    | RendererDispatch(action: Action, clientId: string)

  /** `{type: null}`, the action the reducer is probed with for its default
      state. */
  const InitProbe: Action := Action("", None, "", None)

  // ----- Client identity -----

  /** The decimal digit `d`. */
  function DigitChar(d: nat): (c: char)
    requires d < 10
    ensures '0' <= c <= '9' && (c as int) - ('0' as int) == d
  {
    (('0' as int) + d) as char
  }

  /** The decimal numeral of `n`, as a template literal prints it. */
  function Numeral(n: nat): (s: string)
    ensures |s| >= 1 && forall i :: 0 <= i < |s| ==> '0' <= s[i] <= '9'
    decreases n
  {
    if n < 10 then [DigitChar(n)] else Numeral(n / 10) + [DigitChar(n % 10)]
  }

  /** The number a numeral denotes. */
  function NumeralValue(s: string): nat
    requires |s| >= 1 && forall i :: 0 <= i < |s| ==> '0' <= s[i] <= '9'
    decreases |s|
  {
    var last := (s[|s| - 1] as int) - ('0' as int);
    if |s| == 1 then last else NumeralValue(s[..|s| - 1]) * 10 + last
  }

  /** Reading back a printed numeral gives the number. */
  lemma {:induction false} NumeralRoundTrip(n: nat)
    ensures NumeralValue(Numeral(n)) == n
    decreases n
  {
    if n >= 10 {
      NumeralRoundTrip(n / 10);
      var s := Numeral(n);
      assert s[..|s| - 1] == Numeral(n / 10);
    }
  }

  /** `process.guestInstanceId || remote.getCurrentWindow().id`; a guest
      instance id of 0 stands for none. */
  function RendererId(guestInstanceId: nat, windowId: nat): nat {
    if guestInstanceId != 0 then guestInstanceId else windowId
  }

  /** `webview <id>` inside a webview, `window <id>` otherwise. */
  function ClientId(guestInstanceId: nat, windowId: nat): (s: string)
    ensures |s| > 7 && s[0] == 'w'
    ensures guestInstanceId != 0 ==> s == "webview " + Numeral(guestInstanceId)
    ensures guestInstanceId == 0 ==> s == "window " + Numeral(windowId)
  {
    var id := Numeral(RendererId(guestInstanceId, windowId));
    if guestInstanceId != 0 then "webview " + id else "window " + id
  }

  /** Two renderers share a client id exactly when they are of the same kind and
      have the same renderer id. */
  lemma ClientIdsDistinct(g1: nat, w1: nat, g2: nat, w2: nat)
    ensures ClientId(g1, w1) == ClientId(g2, w2) <==>
            (g1 != 0) == (g2 != 0) && RendererId(g1, w1) == RendererId(g2, w2)
  {
    var s1, s2 := ClientId(g1, w1), ClientId(g2, w2);
    var n1, n2 := Numeral(RendererId(g1, w1)), Numeral(RendererId(g2, w2));
    assert s1[1] == (if g1 != 0 then 'e' else 'i');
    assert s2[1] == (if g2 != 0 then 'e' else 'i');
    if s1 == s2 {
      if g1 != 0 {
        assert n1 == s1[8..] && n2 == s2[8..];
      } else {
        assert n1 == s1[7..] && n2 == s2[7..];
      }
      NumeralRoundTrip(RendererId(g1, w1));
      NumeralRoundTrip(RendererId(g2, w2));
    }
  }

  // ----- Bootstrap -----

  /** The preload: the browser state, projected through the interest when
      unfiltered state is excluded, then transformed. */
  function Preload(browserState: Tree, opts: Options): (r: Result<Option<Value>>)
    ensures !opts.excludeUnfilteredState ==> r == Ok(opts.transform(Some(Obj(browserState))))
    ensures opts.excludeUnfilteredState && FillShape(Obj(browserState), opts.filter).Ok? ==>
              r == Ok(opts.transform(FillShape(Obj(browserState), opts.filter).value))
    ensures r.Throws? <==> opts.excludeUnfilteredState && FillShape(Obj(browserState), opts.filter).Throws?
    ensures r.Throws? ==> ShapeError(r.error)
  {
    var filtered := if opts.excludeUnfilteredState then FillShape(Obj(browserState), opts.filter) else Ok(Some(Obj(browserState)));
    match filtered
    case Throws(e) => Throws(e)
    case Ok(f) => Ok(opts.transform(f))
  }

  /** The state the replica is created with: the preload merged into the given
      initial state, or into the reducer's default when that is falsy. `None`
      for `browserStore` is a browser process without an enhanced store. */
  function InitialState(browserStore: Option<Tree>, initialState: Option<Value>, reducer: Reducer, opts: Options): (r: Result<Value>)
    ensures browserStore.None? ==> r == Throws(NoBrowserStore)
    ensures browserStore.Some? && Preload(browserStore.value, opts).Throws? ==> r == Throws(Preload(browserStore.value, opts).error)
  {
    match browserStore
    case None => Throws(NoBrowserStore)
    case Some(browserState) =>
      match Preload(browserState, opts)
      case Throws(e) => Throws(e)
      case Ok(preload) =>
        var base := if initialState.Some? && Truthy(initialState.value) then Ok(initialState.value) else reducer(None, Some(InitProbe));
        match base
        case Throws(e) => Throws(e)
        case Ok(b) => if b.Null? && !IsEmpty(preload) then Throws(PropertyOfNull) else Ok(ObjectMerge(b, preload))
  }

  /** Bootstrap fails exactly when the store is missing, the projection throws,
      the reducer is needed and throws, or a non-empty preload meets a `null`
      base; otherwise it is the merge of the preload into the base. */
  lemma BootstrapOutcome(browserState: Tree, initialState: Option<Value>, reducer: Reducer, opts: Options)
    requires Preload(browserState, opts).Ok?
    ensures var preload := Preload(browserState, opts).value;
            var given := initialState.Some? && Truthy(initialState.value);
            var r := InitialState(Some(browserState), initialState, reducer, opts);
            && (given ==> r == Ok(ObjectMerge(initialState.value, preload)))
            && (!given && reducer(None, Some(InitProbe)).Throws? ==> r == Throws(reducer(None, Some(InitProbe)).error))
            && (!given && reducer(None, Some(InitProbe)).Ok? ==>
                  var b := reducer(None, Some(InitProbe)).value;
                  r == if b.Null? && !IsEmpty(preload) then Throws(PropertyOfNull) else Ok(ObjectMerge(b, preload)))
  {
  }

  /** Every key path of a non-empty object preload is in the initial state,
      with the preload's leaves, when neither side holds a Date; with nothing
      to preload the base is kept. */
  lemma PreloadWins(browserState: Tree, initialState: Option<Value>, reducer: Reducer, opts: Options)
    requires Preload(browserState, opts).Ok?
    requires InitialState(Some(browserState), initialState, reducer, opts).Ok?
    requires var preload := Preload(browserState, opts).value;
             preload.Some? ==> DateFree(preload.value)
    requires initialState.Some? && Truthy(initialState.value) ==> DateFree(initialState.value)
    requires !(initialState.Some? && Truthy(initialState.value)) && reducer(None, Some(InitProbe)).Ok? ==>
               DateFree(reducer(None, Some(InitProbe)).value)
    ensures var preload := Preload(browserState, opts).value;
            var r := InitialState(Some(browserState), initialState, reducer, opts).value;
            && (preload.Some? && preload.value.Obj? && !IsEmpty(preload) ==> Extends(r, preload.value))
            && (IsEmpty(preload) && initialState.Some? && Truthy(initialState.value) ==> r == initialState.value)
  {
    var preload := Preload(browserState, opts).value;
    var given := initialState.Some? && Truthy(initialState.value);
    var b := if given then initialState.value else reducer(None, Some(InitProbe)).value;
    if preload.Some? && preload.value.Obj? && !IsEmpty(preload) {
      IncomingSurvives(b, preload.value);
    }
  }

  /** With the default options the replica starts from the browser state
      merged into its own initial state, and for Date-free trees holds all of
      the browser state. */
  lemma DefaultBootstrap(browserState: Tree, initial: Tree, reducer: Reducer)
    requires browserState != map[] && DateFree(Obj(browserState)) && DateFree(Obj(initial))
    ensures InitialState(Some(browserState), Some(Obj(initial)), reducer, Defaults)
            == Ok(ObjectMerge(Obj(initial), Some(Obj(browserState))))
    ensures Extends(InitialState(Some(browserState), Some(Obj(initial)), reducer, Defaults).value, Obj(browserState))
  {
    IncomingSurvives(Obj(initial), Obj(browserState));
  }

  // ----- The replica's reducer -----

  /** The delta branch of `parsedReducer`: both halves of `action.data` are
      transformed, the deletions subtracted and the updates merged. */
  function DeltaReduce(opts: Options, state: Value, action: Action): (r: Result<Value>)
    ensures action.data.None? ==> r == Throws(MissingDelta)
    ensures action.data.Some? ==>
              r == ApplyDelta(state, opts.transform(action.data.value.deleted), opts.transform(action.data.value.updated))
  {
    match action.data
    case None => Throws(MissingDelta)
    case Some(d) =>
      var deleted := opts.transform(d.deleted);
      var updated := opts.transform(d.updated);
      ApplyDelta(state, deleted, updated)
  }

  /** The action as `parsedReducer` leaves it. With the update flag up it
      overwrites both halves of `action.data` with their transformed values on
      the action object itself, so every later reader of that action (the
      post-dispatch callback, the forwarded message, the caller of
      `store.dispatch`) sees the transformed halves. */
  function AsReduced(opts: Options, flag: bool, a: Action): (r: Action)
    ensures r.actionType == a.actionType && r.payload == a.payload && r.source == a.source
    ensures !flag || a.data.None? ==> r == a
    ensures flag && a.data.Some? ==>
              r.data == Some(Data(opts.transform(a.data.value.updated), opts.transform(a.data.value.deleted)))
  {
    if flag && a.data.Some? then
      var d := a.data.value;
      a.(data := Some(d.(deleted := opts.transform(d.deleted), updated := opts.transform(d.updated))))
    else a
  }

  /** The halves the reduced action carries afterwards are exactly the ones
      the delta branch applied. */
  lemma AsReducedCarriesApplied(opts: Options, state: Value, a: Action)
    requires a.data.Some?
    ensures var d := AsReduced(opts, true, a).data;
            d.Some? && DeltaReduce(opts, state, a) == ApplyDelta(state, d.value.deleted, d.value.updated)
  {
  }

  /** Without a transformer the in-place rewrite leaves the action as it was. */
  lemma AsReducedIdentity(opts: Options, flag: bool, a: Action)
    requires Identity(opts)
    ensures AsReduced(opts, flag, a) == a
  {
    if flag && a.data.Some? {
      var d := a.data.value;
      assert opts.transform(d.deleted) == d.deleted && opts.transform(d.updated) == d.updated;
    }
  }

  /** The ordinary branch of `parsedReducer`: the application's reducer, then
      the projection through the interest when unfiltered state is excluded. */
  function NormalReduce(opts: Options, reducer: Reducer, state: Value, action: Option<Action>): (r: Result<Option<Value>>)
    ensures reducer(Some(state), action).Throws? ==> r == Throws(reducer(Some(state), action).error)
    ensures reducer(Some(state), action).Ok? && !opts.excludeUnfilteredState ==> r == Ok(Some(reducer(Some(state), action).value))
    ensures reducer(Some(state), action).Ok? && opts.excludeUnfilteredState ==> r == FillShape(reducer(Some(state), action).value, opts.filter)
    ensures reducer(Some(state), action).Ok? && r.Ok? && r.value.Some? ==> Within(r.value.value, reducer(Some(state), action).value)
  {
    match reducer(Some(state), action)
    case Throws(e) => Throws(e)
    case Ok(reduced) => if opts.excludeUnfilteredState then FillShape(reduced, opts.filter) else Ok(Some(reduced))
  }

  /** `parsedReducer(state, action)` with the update flag as it stood: an
      `undefined` state is the initial state; reading `data` of an `undefined`
      action throws. */
  function Reduced(opts: Options, reducer: Reducer, initial: Value, flag: bool, state: Option<Value>, action: Option<Action>): (r: Result<Option<Value>>)
    ensures flag && action.None? ==> r == Throws(PropertyOfNull)
    ensures flag && action.Some? && action.value.data.None? ==> r == Throws(MissingDelta)
    ensures flag && action.Some? && DeltaReduce(opts, state.GetOr(initial), action.value).Ok? ==>
              r == Ok(Some(DeltaReduce(opts, state.GetOr(initial), action.value).value))
    ensures flag && action.Some? && DeltaReduce(opts, state.GetOr(initial), action.value).Throws? ==>
              r == Throws(DeltaReduce(opts, state.GetOr(initial), action.value).error)
    ensures !flag ==> r == NormalReduce(opts, reducer, state.GetOr(initial), action)
  {
    var s := state.GetOr(initial);
    if flag then
      match action
      case None => Throws(PropertyOfNull)
      case Some(a) =>
        match DeltaReduce(opts, s, a)
        case Throws(e) => Throws(e)
        case Ok(v) => Ok(Some(v))
    else NormalReduce(opts, reducer, s, action)
  }

  /** The replica's part of a dispatch. */
  datatype Attempt = Attempt(flag: bool, state: Option<Value>, outcome: Outcome)

  /** `doDispatch` on the replica: the pre-hook, the underlying dispatch (which
      clears the update flag before it reduces), the post-hook; the first to
      throw ends it. The post-hook sees the action as the reducer left it. */
  function Attempted(opts: Options, reducer: Reducer, initial: Value, flag: bool, state: Option<Value>, a: Action): (r: Attempt)
    ensures opts.hooks.preThrows(a) ==> r == Attempt(flag, state, Threw(CallbackThrew))
    ensures !opts.hooks.preThrows(a) ==> !r.flag
    ensures r.outcome.Completed? <==>
              && !opts.hooks.preThrows(a) && Reduced(opts, reducer, initial, flag, state, Some(a)).Ok?
              && !opts.hooks.postThrows(AsReduced(opts, flag, a))
    ensures r.state == state || Reduced(opts, reducer, initial, flag, state, Some(a)) == Ok(r.state)
    ensures !opts.hooks.preThrows(a) && Reduced(opts, reducer, initial, flag, state, Some(a)).Ok? ==>
              r.state == Reduced(opts, reducer, initial, flag, state, Some(a)).value
    ensures !opts.hooks.preThrows(a) && Reduced(opts, reducer, initial, flag, state, Some(a)).Throws? ==>
              r == Attempt(false, state, Threw(Reduced(opts, reducer, initial, flag, state, Some(a)).error))
  {
    if opts.hooks.preThrows(a) then Attempt(flag, state, Threw(CallbackThrew))
    else
      match Reduced(opts, reducer, initial, flag, state, Some(a))
      case Throws(e) => Attempt(false, state, Threw(e))
      case Ok(v) => Attempt(false, v, if opts.hooks.postThrows(AsReduced(opts, flag, a)) then Threw(CallbackThrew) else Completed)
  }

  /** Whether the replica applies a broadcast: always when asynchronous,
      otherwise only when another client caused it. */
  predicate Applies(opts: Options, clientId: string, t: Transfer) {
    !opts.synchronous || t.sourceClientId != clientId
  }

  // ----- The replica store -----

  /** The replica store after the enhancer has wrapped it. `state` is `None`
      while the redux state is `undefined`; `sent` is everything sent to the
      browser process; `listenerFlushes` counts the calls to `callListeners`. */
  class RendererStore {
    const opts: Options
    const reducer: Reducer
    const initial: Value
    const clientId: string
    const currentSource: string
    var state: Option<Value>
    var updateFlag: bool
    var isDispatching: bool
    var sent: seq<Outgoing>
    var listenerFlushes: nat

    /** Every message to the browser names this client, and every forwarded
        action carries this process's source. */
    ghost predicate Valid()
      reads this
    {
      && !isDispatching
      && clientId != "" && currentSource != ""
      && forall i :: 0 <= i < |sent| ==>
           sent[i].clientId == clientId && (sent[i].RendererDispatch? ==> sent[i].action.source == currentSource)
    }

    /** The store as created: the initial state, the update flag down, and the
        registration sent. */
    constructor (opts: Options, reducer: Reducer, initial: Value, guestInstanceId: nat, windowId: nat)
      ensures Valid()
      ensures this.opts == opts && this.reducer == reducer && this.initial == initial
      ensures clientId == ClientId(guestInstanceId, windowId)
      ensures currentSource == Or(opts.sourceName, clientId)
      ensures state == Some(initial) && !updateFlag && listenerFlushes == 0
      ensures sent == [RegisterRenderer(opts.filter, clientId)]
    {
      this.opts := opts;
      this.reducer := reducer;
      this.initial := initial;
      var id := ClientId(guestInstanceId, windowId);
      clientId := id;
      currentSource := Or(opts.sourceName, id);
      state := Some(initial);
      updateFlag := false;
      isDispatching := false;
      sent := [RegisterRenderer(opts.filter, id)];
      listenerFlushes := 0;
    }

    /** The underlying `store.dispatch`: the state becomes what
        `parsedReducer` returns, and stays as it was when that throws. The
        update flag is down afterwards either way. */
    method Reduce(action: Option<Action>) returns (outcome: Outcome)
      modifies this`state, this`updateFlag
      ensures !updateFlag
      ensures var res := Reduced(opts, reducer, initial, old(updateFlag), old(state), action);
              && (res.Throws? ==> outcome == Threw(res.error) && state == old(state))
              && (res.Ok? ==> outcome == Completed && state == res.value)
    {
      var flag := updateFlag;
      updateFlag := false;
      var s := state.GetOr(initial);
      var res: Result<Option<Value>>;
      if flag {
        if action.None? {
          res := Throws(PropertyOfNull);
        } else {
          match DeltaReduce(opts, s, action.value)
          case Throws(e) =>
            res := Throws(e);
          case Ok(v) =>
            res := Ok(Some(v));
        }
      } else {
        res := NormalReduce(opts, reducer, s, action);
      }
      match res
      case Throws(e) =>
        outcome := Threw(e);
      case Ok(v) =>
        state := v;
        outcome := Completed;
    }

    /** `doDispatch`: `isDispatching` is back to false on every exit.
        `acted` is the caller's action object afterwards: rewritten by the
        reducer when the update flag was up and the reducer was reached. */
    method DoDispatch(a: Action) returns (outcome: Outcome, acted: Action)
      requires !isDispatching
      modifies this`state, this`updateFlag, this`isDispatching
      ensures !isDispatching
      ensures Attempt(updateFlag, state, outcome) == Attempted(opts, reducer, initial, old(updateFlag), old(state), a)
      ensures acted == if opts.hooks.preThrows(a) then a else AsReduced(opts, old(updateFlag), a)
    {
      isDispatching := true;
      if opts.hooks.preThrows(a) {
        isDispatching := false;
        return Threw(CallbackThrew), a;
      }
      acted := AsReduced(opts, updateFlag, a);
      outcome := Reduce(Some(a));
      if outcome.Completed? && opts.hooks.postThrows(acted) {
        outcome := Threw(CallbackThrew);
      }
      isDispatching := false;
    }

    /** `store.dispatch` on the replica: a falsy action goes straight to the
        underlying dispatch; any other action is stamped with this process's
        source, reduced locally first when synchronous, and forwarded to the
        browser. The listeners then run once. An exception skips everything
        after it. */
    method Dispatch(action: Option<Action>) returns (r: Result<Option<Action>>)
      requires Valid()
      modifies this`state, this`updateFlag, this`isDispatching, this`sent, this`listenerFlushes
      ensures Valid()
      ensures action.None? ==>
                var res := Reduced(opts, reducer, initial, old(updateFlag), old(state), None);
                && sent == old(sent) && !updateFlag
                && (res.Throws? ==> r == Throws(res.error) && state == old(state) && listenerFlushes == old(listenerFlushes))
                && (res.Ok? ==> r == Ok(None) && state == res.value && listenerFlushes == old(listenerFlushes) + 1)
      ensures action.Some? && !opts.synchronous ==>
                var a := action.value.(source := currentSource);
                && state == old(state) && updateFlag == old(updateFlag)
                && sent == old(sent) + [RendererDispatch(a, clientId)]
                && r == Ok(Some(a)) && listenerFlushes == old(listenerFlushes) + 1
      ensures action.Some? && opts.synchronous ==>
                var a := action.value.(source := currentSource);
                var run := Attempted(opts, reducer, initial, old(updateFlag), old(state), a);
                && updateFlag == run.flag && state == run.state
                && (run.outcome.Threw? ==>
                      r == Throws(run.outcome.error) && sent == old(sent) && listenerFlushes == old(listenerFlushes))
                && (run.outcome.Completed? ==>
                      var acted := AsReduced(opts, old(updateFlag), a);
                      r == Ok(Some(acted)) && sent == old(sent) + [RendererDispatch(acted, clientId)]
                      && listenerFlushes == old(listenerFlushes) + 1)
    {
      if action.None? {
        var outcome := Reduce(None);
        if outcome.Threw? {
          return Throws(outcome.error);
        }
        listenerFlushes := listenerFlushes + 1;
        return Ok(None);
      }
      var a := action.value.(source := currentSource);
      if opts.synchronous {
        var outcome, acted := DoDispatch(a);
        if outcome.Threw? {
          return Throws(outcome.error);
        }
        a := acted;
      }
      sent := sent + [RendererDispatch(a, clientId)];
      listenerFlushes := listenerFlushes + 1;
      return Ok(Some(a));
    }

    /** The browser-dispatch handler: a broadcast the replica applies raises
        the update flag and is dispatched, and the listeners then run once; a
        synchronous replica ignores the echo of its own actions. */
    method OnBroadcast(t: Transfer) returns (outcome: Outcome)
      requires Valid()
      modifies this`state, this`updateFlag, this`isDispatching, this`listenerFlushes
      ensures Valid()
      ensures !Applies(opts, clientId, t) ==>
                && outcome == Completed && state == old(state) && updateFlag == old(updateFlag)
                && listenerFlushes == old(listenerFlushes)
      ensures Applies(opts, clientId, t) ==>
                && Attempt(updateFlag, state, outcome) == Attempted(opts, reducer, initial, true, old(state), t.action)
                && listenerFlushes == old(listenerFlushes) + (if outcome.Completed? then 1 else 0)
    {
      if !Applies(opts, clientId, t) {
        return Completed;
      }
      updateFlag := true;
      var acted;
      outcome, acted := DoDispatch(t.action);
      if outcome.Completed? {
        listenerFlushes := listenerFlushes + 1;
      }
    }
  }

  /** Creating a replica: the bootstrap state, or the error that stops it. */
  method Enhance(browserStore: Option<Tree>, initialState: Option<Value>, reducer: Reducer, opts: Options, guestInstanceId: nat, windowId: nat)
    returns (r: Result<RendererStore>)
    ensures var boot := InitialState(browserStore, initialState, reducer, opts);
            && (boot.Throws? ==> r == Throws(boot.error))
            && (boot.Ok? ==>
                  && r.Ok? && fresh(r.value) && r.value.Valid()
                  && r.value.state == Some(boot.value) && r.value.clientId == ClientId(guestInstanceId, windowId)
                  && r.value.sent == [RegisterRenderer(opts.filter, ClientId(guestInstanceId, windowId))])
  {
    match InitialState(browserStore, initialState, reducer, opts)
    case Throws(e) =>
      return Throws(e);
    case Ok(initial) =>
      var store := new RendererStore(opts, reducer, initial, guestInstanceId, windowId);
      return Ok(store);
  }

  // ----- The replica and the browser together -----

  /** A transformer that changes nothing. */
  ghost predicate Identity(opts: Options) {
    forall v :: opts.transform(v) == v
  }

  /** With no transformer, applying a broadcast delta is the patch of the
      replica's state by the diff it carries. */
  lemma DeltaIsPatch(opts: Options, state: Value, d: Delta, a: Action, origin: string)
    requires Identity(opts)
    ensures DeltaReduce(opts, state, Message(a, Data(Some(Obj(d.updated)), Some(Obj(d.deleted))), origin).action)
            == Patch(state, d)
  {
  }

  /** A replica interested in everything, with no transformer and no throwing
      callbacks, that holds the browser's old state ends up holding its new
      state once it applies the broadcast of the change. */
  lemma WholeReplicaConverges(opts: Options, reducer: Reducer, initial: Value, before: Tree, after: Tree, a: Action, origin: string)
    requires Identity(opts) && DateFree(Obj(before)) && DateFree(Obj(after))
    ensures var d := ObjectDifference(before, after);
            var t := Message(a, Project(d, Whole).value, origin);
            && Reduced(opts, reducer, initial, true, Some(Obj(before)), Some(t.action)) == Ok(Some(Obj(after)))
            && (!opts.hooks.preThrows(t.action) && !opts.hooks.postThrows(t.action) ==>
                  Attempted(opts, reducer, initial, true, Some(Obj(before)), t.action) == Attempt(false, Some(Obj(after)), Completed))
  {
    var d := ObjectDifference(before, after);
    var t := Message(a, Project(d, Whole).value, origin);
    DeltaIsPatch(opts, Obj(before), d, a, origin);
    RoundTrip(before, after);
  }

  /** The same broadcast applied again changes nothing. */
  lemma RedeliveryHarmless(opts: Options, reducer: Reducer, initial: Value, before: Tree, after: Tree, a: Action, origin: string)
    requires Identity(opts)
    ensures var d := ObjectDifference(before, after);
            var t := Message(a, Project(d, Whole).value, origin);
            Reduced(opts, reducer, initial, true, Some(Obj(after)), Some(t.action)) == Ok(Some(Obj(after)))
  {
    var d := ObjectDifference(before, after);
    DeltaIsPatch(opts, Obj(after), d, a, origin);
    ReapplyChangesNothing(before, after);
  }

  /** When the browser broadcasts the change a replica forwarded, a synchronous
      replica ignores every copy addressed to it, since the broadcast names it
      as the origin, and every replica with another client id applies its copy. */
  lemma OwnEchoIgnored(
    opts: Options, guestInstanceId: nat, windowId: nat, browserSource: string,
    ids: seq<nat>, clients: map<nat, Client>, dead: set<nat>, diff: Delta, a: Action)
    requires opts.synchronous
    ensures var me := ClientId(guestInstanceId, windowId);
            forall e :: e in Sweep(ids, clients, dead, diff, a, Or(me, browserSource)).sent ==>
              && !Applies(opts, me, e.transfer)
              && forall other :: other != me ==> Applies(opts, other, e.transfer)
  {
    var me := ClientId(guestInstanceId, windowId);
    SweepSafety(ids, clients, dead, diff, a, Or(me, browserSource));
  }

  /** A pre-dispatch callback that throws on a broadcast leaves the update flag
      raised, so the replica's next local action is taken for a delta: without
      `data`, it throws. This is the code's behaviour, reported here only; the
      model keeps it. */
  lemma StaleFlagAfterThrowingCallback(opts: Options, reducer: Reducer, initial: Value, state: Option<Value>, broadcast: Action, local: Action)
    requires opts.hooks.preThrows(broadcast) && !opts.hooks.preThrows(local) && local.data.None?
    ensures var first := Attempted(opts, reducer, initial, true, state, broadcast);
            && first.flag
            && Attempted(opts, reducer, initial, first.flag, first.state, local).outcome == Threw(MissingDelta)
  {
  }

  // ----- A forwarded action that throws -----

  /** The browser's reducer in the scenarios below: `boom` throws, anything
      else sets `n` to 1. */
  function BoomReducer(s: Tree, a: Option<Action>): Result<Tree> {
    if a.Some? && a.value.actionType == "boom" then Throws(CallbackThrew) else Ok(map["n" := Num(1)])
  }

  /** A browser store with renderer 3, the main contents of window 1, as
      `window 3`, interested in everything. */
  method BoomStore() returns (store: BrowserStore)
    ensures fresh(store) && store.Valid()
    ensures store.currentSource == "main_process" && store.state == map[] && store.outbox == []
    ensures store.reducer == BoomReducer && store.hooks == Hooks(a => false, a => false)
    ensures store.clients == map[3 := Client(Whole, "window 3", 1, Some(1), true)] && store.senderClientId == ""
  {
    store := new BrowserStore("", BoomReducer, Hooks(a => false, a => false), map[]);
    store.Register(3, Whole, "window 3", 1, Some(1));
  }

  /** A broadcast of the browser's own dispatch, from a registry holding
      renderer 3 only, reaches renderer 3 alone. */
  lemma OnlyRendererThree(clients: map<nat, Client>, diff: Delta, a: Action, origin: string)
    requires clients == map[3 := Client(Whole, "window 3", 1, Some(1), true)]
    ensures Sweep(Ascending(clients.Keys), clients, {}, diff, a, origin)
            == Sweeping(clients, [Envelope(3, Message(a, Project(diff, Whole).value, origin))], None)
  {
    assert MinOf({3}) == 3;
    assert Ascending({3}) == [3] + Ascending({});
    assert Ascending(clients.Keys) == [3];
    assert [3][..0] == [];
  }

  /** The browser's state goes from `{}` to `{n: 1}`. */
  lemma BoomDifference()
    ensures ObjectDifference(map[], map["n" := Num(1)]) == Delta(map["n" := Num(1)], map[])
  {
    var d := ObjectDifference(map[], map["n" := Num(1)]);
    Difference.KeyFate(map[], map["n" := Num(1)], "n");
    SingleKey(d.updated, "n", Num(1));
  }

  /** As written: renderer `window 3` forwards `boom`, whose reduction throws,
      so `senderClientId` stays `window 3`; the browser's next own dispatch is
      then broadcast under `window 3`, and that synchronous renderer takes it
      for the echo of its own action and drops it. */
  method StaleSenderSwallowsBroadcast() returns (t: Transfer)
    ensures t.sourceClientId == "window 3"
    ensures t.action.data == Some(Data(Some(Obj(map["n" := Num(1)])), Some(Empty)))
    ensures !Applies(Defaults, "window 3", t)
  {
    var store := BoomStore();
    var boom := Action("boom", None, "", None);
    assert store.Run(map[], boom).1.Threw? by {
      assert store.Stamped(boom).actionType == "boom";
    }
    var r1 := store.HandleRendererDispatch(Some(boom), "window 3", {});
    assert store.senderClientId == "window 3";
    t := Broadcasted(store, "window 3");
  }

  /** Corrected: with `senderClientId` cleared on every exit, the same
      sequence broadcasts the browser's own dispatch under `main_process`, and
      the renderer applies it. */
  method ResetSenderDeliversBroadcast() returns (t: Transfer)
    ensures t.sourceClientId == "main_process"
    ensures t.action.data == Some(Data(Some(Obj(map["n" := Num(1)])), Some(Empty)))
    ensures Applies(Defaults, "window 3", t)
  {
    var store := BoomStore();
    var boom := Action("boom", None, "", None);
    assert store.Run(map[], boom).1.Threw? by {
      assert store.Stamped(boom).actionType == "boom";
    }
    var r1 := store.HandleRendererDispatchReset(Some(boom), "window 3", {});
    assert store.senderClientId == "";
    t := Broadcasted(store, "main_process");
  }

  /** The browser dispatches `tick` on its own, from the state `BoomStore`
      starts in: renderer 3 receives `{n: 1}` under `Or(senderClientId,
      currentSource)`. */
  method Broadcasted(store: BrowserStore, origin: string) returns (t: Transfer)
    requires store.Valid() && store.currentSource == "main_process" && store.state == map[] && store.outbox == []
    requires store.reducer == BoomReducer && store.hooks == Hooks(a => false, a => false)
    requires store.clients == map[3 := Client(Whole, "window 3", 1, Some(1), true)]
    requires origin == Or(store.senderClientId, "main_process")
    modifies store`state, store`isDispatching, store`clients, store`outbox, store`senderClientId, store`listenerFlushes
    ensures t.sourceClientId == origin
    ensures t.action.data == Some(Data(Some(Obj(map["n" := Num(1)])), Some(Empty)))
  {
    var tick := Action("tick", None, "", None);
    assert store.Run(map[], tick) == (map["n" := Num(1)], Completed) by {
      var a := store.Stamped(tick);
      assert a.actionType == "tick";
      assert store.Reduction(a)(map[]) == BoomReducer(map[], Some(a)) == Ok(map["n" := Num(1)]);
      assert !store.hooks.preThrows(a) && !store.hooks.postThrows(a);
    }
    BoomDifference();
    var d := Delta(map["n" := Num(1)], map[]);
    OnlyRendererThree(store.clients, d, store.Stamped(tick), origin);
    ghost var before := store.clients;
    ghost var sender := store.senderClientId;
    var r := store.Dispatch(tick, {});
    assert store.state == map["n" := Num(1)];
    assert ObjectDifference(map[], store.state) == d;
    assert store.outbox == [] + Sweep(Ascending(before.Keys), before, {}, d, store.Stamped(tick), Or(sender, store.currentSource)).sent;
    assert store.outbox == [Envelope(3, Message(store.Stamped(tick), Project(d, Whole).value, origin))];
    t := store.outbox[0].transfer;
  }
}
