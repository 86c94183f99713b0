/** The protocol operation dispatcher (plugin_run_protoop_internal): a reentrant call mechanism over one
  * shared set of argument buffers, proved equal to a lexically scoped semantics that has no shared state. */
module Protoop {
  import opened Wrappers

  const PROTOOPARGS_MAX := 16
  const NO_PARAM := 65535
  const TOO_MANY_ARGUMENTS := 0x428

  type Index = i: nat | i < 16
  type Args = s: seq<nat> | |s| <= 16

  datatype Anchor = Replace | Extern | Pre | Post
  datatype Key = Key(op: nat, param: nat)

  /** What is plugged at one operation and parameter; plugins are identified by numbers. */
  datatype Entry = Entry(intern: bool, pre: seq<nat>, replace: Option<nat>, core: bool, post: seq<nat>)

  /** `parametrable` holds every registered operation. */
  datatype Registry = Registry(parametrable: map<nat, bool>, entries: map<Key, Entry>)

  /** What a body does to the connection while it runs. Any run of any pluglet is such a list. */
  datatype Act =
    | Look
    | Overwrite(i: Index, v: nat)
    | SetOutput(i: Index, v: nat)
    | SaveOutputs(vs: Args)
    | Invoke(call: Call)

  datatype Body = Body(acts: seq<Act>)

  /** One call: the arguments it is made with and what its observers and implementation then do. */
  datatype Call = Call(op: nat, param: nat, inputs: seq<nat>, callerIsIntern: bool, wantsOutputs: bool,
                       pre: seq<Body>, main: Body, status: nat, post: seq<Body>)

  /** Everything a body can read of the call it serves. */
  datatype View = View(plugin: Option<nat>, op: Option<nat>, anchor: Anchor, inputs: seq<nat>, outputs: seq<nat>)

  /** The entry a call reaches: its own parameter's, or the default one. */
  function Resolve(r: Registry, call: Call): Option<Key> {
    if call.op !in r.parametrable then None
    else if r.parametrable[call.op] && Key(call.op, call.param) in r.entries then Some(Key(call.op, call.param))
    else if Key(call.op, NO_PARAM) in r.entries then Some(Key(call.op, NO_PARAM))
    else None
  }

  /** The body of observer `k`; one that is not listed does nothing. */
  function Script(bodies: seq<Body>, k: nat): Body {
    if k < |bodies| then bodies[k] else Body([])
  }

  // ----- The lexically scoped semantics -----

  /** A body's own view after one of its acts; a nested call leaves it alone. */
  function Own(v: View, act: Act): View {
    match act
    case Look => v
    case Overwrite(i, x) => if i < |v.inputs| then v.(inputs := v.inputs[i := x]) else v
    case SetOutput(i, x) =>
      if i < |v.outputs| then v.(outputs := v.outputs[i := x])
      else if i == |v.outputs| then v.(outputs := v.outputs + [x])
      else v
    case SaveOutputs(vs) => v.(outputs := vs)
    case Invoke(_) => v
  }

  function After(v: View, acts: seq<Act>): View
    decreases |acts|
  {
    if acts == [] then v else Own(After(v, acts[..|acts| - 1]), acts[|acts| - 1])
  }

  function AtObserver(v: View, plugin: nat, anchor: Anchor): View {
    v.(plugin := Some(plugin), anchor := anchor)
  }

  /** The view after the first `k` observers of a list. */
  function Observed(v: View, plugins: seq<nat>, bodies: seq<Body>, anchor: Anchor, k: nat): View
    requires k <= |plugins|
    decreases k
  {
    if k == 0 then v
    else
      var before := Observed(v, plugins, bodies, anchor, k - 1);
      After(AtObserver(before, plugins[k - 1], anchor), Script(bodies, k - 1).acts)
  }

  /** The view a callee starts from: its own arguments, no outputs. */
  function Entered(call: Call, plugin: Option<nat>, anchor: Anchor): View {
    View(plugin, Some(call.op), anchor, call.inputs, [])
  }

  /** The implementation runs for its plugin, or for none in the core; the core keeps the anchor it finds. */
  function AtMain(v: View, e: Entry): View {
    match e.replace
    case Some(p) => AtObserver(v, p, Replace)
    case None => v.(plugin := None)
  }

  /** The view once the implementation has run, and once all bodies have. */
  function Performed(v: View, e: Entry, call: Call): View {
    After(AtMain(Observed(v, e.pre, call.pre, Pre, |e.pre|), e), call.main.acts)
  }

  function Final(v: View, e: Entry, call: Call): View {
    Observed(Performed(v, e, call), e.post, call.post, Post, |e.post|)
  }

  /** All that is looked at while the first `n` acts of a body run, in order, nested calls included. */
  function BodyLog(r: Registry, v: View, body: Body, n: nat): seq<View>
    requires n <= |body.acts|
    decreases body, n
  {
    if n == 0 then []
    else
      BodyLog(r, v, body, n - 1) + ActLog(r, After(v, body.acts[..n - 1]), body.acts[n - 1])
  }

  function ActLog(r: Registry, v: View, act: Act): seq<View>
    decreases act
  {
    match act
    case Look => [v]
    case Invoke(c) => CallLog(r, c, v.plugin, v.anchor)
    case _ => []
  }

  function ObserverLog(r: Registry, v: View, plugins: seq<nat>, bodies: seq<Body>, anchor: Anchor, k: nat): seq<View>
    requires k <= |plugins|
    decreases bodies, 1, k
  {
    if k == 0 then []
    else
      var before := Observed(v, plugins, bodies, anchor, k - 1);
      ObserverLog(r, v, plugins, bodies, anchor, k - 1)
      + ScriptLog(r, AtObserver(before, plugins[k - 1], anchor), bodies, k - 1)
  }

  function ScriptLog(r: Registry, v: View, bodies: seq<Body>, k: nat): seq<View>
    decreases bodies, 0
  {
    if k < |bodies| then BodyLog(r, v, bodies[k], |bodies[k].acts|) else []
  }

  function CallLog(r: Registry, call: Call, plugin: Option<nat>, anchor: Anchor): seq<View>
    decreases call, 1
  {
    match Resolve(r, call)
    case None => []
    case Some(key) =>
      if |call.inputs| > PROTOOPARGS_MAX || key !in r.entries then []
      else
        ServeLog(r, Entered(call, plugin, anchor), r.entries[key], call)
  }

  function ServeLog(r: Registry, v: View, e: Entry, call: Call): seq<View>
    decreases call, 0
  {
    ObserverLog(r, v, e.pre, call.pre, Pre, |e.pre|)
    + BodyLog(r, AtMain(Observed(v, e.pre, call.pre, Pre, |e.pre|), e), call.main, |call.main.acts|)
    + ObserverLog(r, Performed(v, e, call), e.post, call.post, Post, |e.post|)
  }

  // ----- When a call completes -----

  /** The call and all it leads to reach a registered entry of the right side, with an implementation,
    * that is not already on the call stack. */
  predicate Completes(r: Registry, call: Call, stack: set<Key>)
    decreases call, 1
  {
    |call.inputs| > PROTOOPARGS_MAX
    || match Resolve(r, call)
       case None => false
       case Some(key) =>
         key in r.entries
         && var e := r.entries[key];
            && call.callerIsIntern == e.intern
            && key !in stack
            && Served(r, e, call, stack + {key})
  }

  predicate Served(r: Registry, e: Entry, call: Call, stack: set<Key>)
    decreases call, 0
  {
    && AllComplete(r, call.pre, |e.pre|, stack)
    && (e.replace.Some? || e.core)
    && BodyCompletes(r, call.main, |call.main.acts|, stack)
    && AllComplete(r, call.post, |e.post|, stack)
  }

  predicate BodyCompletes(r: Registry, body: Body, n: nat, stack: set<Key>)
    requires n <= |body.acts|
    decreases body, n
  {
    n == 0
    || (BodyCompletes(r, body, n - 1, stack)
        && (body.acts[n - 1].Invoke? ==> Completes(r, body.acts[n - 1].call, stack)))
  }

  /** The first `k` observer bodies complete. */
  predicate AllComplete(r: Registry, bodies: seq<Body>, k: nat, stack: set<Key>)
    decreases bodies, 1, k
  {
    k == 0
    || (AllComplete(r, bodies, k - 1, stack)
        && ScriptCompletes(r, bodies, k - 1, stack))
  }

  predicate ScriptCompletes(r: Registry, bodies: seq<Body>, k: nat, stack: set<Key>)
    decreases bodies, 0
  {
    k < |bodies| ==> BodyCompletes(r, bodies[k], |bodies[k].acts|, stack)
  }

  // ----- The dispatcher -----

  method Copy(a: array<nat>, s: seq<nat>)
    requires |s| <= a.Length
    modifies a
    ensures a[..|s|] == s && a[|s|..] == old(a[|s|..])
  {
    for i := 0 to |s|
      invariant a[..i] == s[..i] && a[|s|..] == old(a[|s|..])
    {
      a[i] := s[i];
    }
  }

  class Context {
    const inputv: array<nat>
    const outputv: array<nat>
    var inputc: nat
    var outputcCallee: nat
    var currentPlugin: Option<nat>
    var currentProtoop: Option<nat>
    var currentAnchor: Anchor
    var previousPluginInReplace: Option<nat>
    var protoopOutput: nat
    var running: set<Key>
    ghost var log: seq<View>

    predicate Valid()
      reads this
    {
      && inputv.Length == PROTOOPARGS_MAX && outputv.Length == PROTOOPARGS_MAX && inputv != outputv
      && inputc <= PROTOOPARGS_MAX && outputcCallee <= PROTOOPARGS_MAX
    }

    ghost function Shown(): View
      requires Valid()
      reads this, inputv, outputv
    {
      View(currentPlugin, currentProtoop, currentAnchor, inputv[..inputc], outputv[..outputcCallee])
    }

    /** One act other than a nested call. */
    method Act(act: Act)
      requires Valid() && !act.Invoke?
      modifies this`outputcCallee, this`log, inputv, outputv
      ensures Valid() && Shown() == Own(old(Shown()), act)
      ensures log == old(log) + if act.Look? then [old(Shown())] else []
    {
      match act
      case Look => log := log + [Shown()];
      case Overwrite(i, v) => inputv[i] := v;
      case SetOutput(i, v) =>
        if i <= outputcCallee {
          outputv[i] := v;
          if i == outputcCallee {
            outputcCallee := outputcCallee + 1;
          }
        }
      case SaveOutputs(vs) =>
        Copy(outputv, vs);
        outputcCallee := |vs|;
    }

    method Step(r: Registry, act: Act) returns (ok: bool)
      requires Valid()
      modifies this, inputv, outputv
      ensures ok <==> (act.Invoke? ==> Completes(r, act.call, old(running)))
      ensures ok ==> Valid() && running == old(running) && Shown() == Own(old(Shown()), act)
      ensures ok ==> log == old(log) + ActLog(r, old(Shown()), act)
      decreases act
    {
      if act.Invoke? {
        var done, _, _ := Run(r, act.call);
        return done;
      }
      Act(act);
      return true;
    }

    method Exec(r: Registry, body: Body) returns (ok: bool)
      requires Valid()
      modifies this, inputv, outputv
      ensures ok <==> BodyCompletes(r, body, |body.acts|, old(running))
      ensures ok ==> Valid() && running == old(running) && Shown() == After(old(Shown()), body.acts)
      ensures ok ==> log == old(log) + BodyLog(r, old(Shown()), body, |body.acts|)
      decreases body, 0
    {
      ghost var v, stack, before := Shown(), running, log;
      for n := 0 to |body.acts|
        invariant Valid() && running == stack
        invariant BodyCompletes(r, body, n, stack)
        invariant Shown() == After(v, body.acts[..n])
        invariant log == before + BodyLog(r, v, body, n)
      {
        AfterNext(v, body.acts, n);
        ok := Step(r, body.acts[n]);
        if !ok {
          NeverCompletes(r, body, n + 1, |body.acts|, stack);
          return;
        }
        assert BodyLog(r, v, body, n + 1) == BodyLog(r, v, body, n) + ActLog(r, After(v, body.acts[..n]), body.acts[n]);
      }
      assert body.acts[..|body.acts|] == body.acts;
      return true;
    }

    method ObserveOne(r: Registry, plugin: nat, anchor: Anchor, bodies: seq<Body>, k: nat) returns (ok: bool)
      requires Valid()
      modifies this, inputv, outputv
      ensures ok <==> ScriptCompletes(r, bodies, k, old(running))
      ensures ok ==> Valid() && running == old(running)
      ensures ok ==> Shown() == After(AtObserver(old(Shown()), plugin, anchor), Script(bodies, k).acts)
      ensures ok ==> log == old(log) + ScriptLog(r, AtObserver(old(Shown()), plugin, anchor), bodies, k)
      decreases bodies, 0
    {
      currentPlugin := Some(plugin);
      currentAnchor := anchor;
      ok := true;
      if k < |bodies| {
        ok := Exec(r, bodies[k]);
      }
    }

    /** The loop over an observer list. */
    method Observe(r: Registry, plugins: seq<nat>, bodies: seq<Body>, anchor: Anchor) returns (ok: bool)
      requires Valid()
      modifies this, inputv, outputv
      ensures ok <==> AllComplete(r, bodies, |plugins|, old(running))
      ensures ok ==> Valid() && running == old(running)
      ensures ok ==> Shown() == Observed(old(Shown()), plugins, bodies, anchor, |plugins|)
      ensures ok ==> log == old(log) + ObserverLog(r, old(Shown()), plugins, bodies, anchor, |plugins|)
      decreases bodies, 1
    {
      ghost var v, stack, before := Shown(), running, log;
      for k := 0 to |plugins|
        invariant Valid() && running == stack
        invariant AllComplete(r, bodies, k, stack)
        invariant Shown() == Observed(v, plugins, bodies, anchor, k)
        invariant log == before + ObserverLog(r, v, plugins, bodies, anchor, k)
      {
        ok := ObserveOne(r, plugins[k], anchor, bodies, k);
        if !ok {
          NoneCompletes(r, bodies, k + 1, |plugins|, stack);
          return;
        }
      }
      return true;
    }

    /** Puts the caller's arguments and context back. */
    method Restore(inputs: Args, outputs: Args, plugin: Option<nat>, op: Option<nat>, anchor: Anchor)
      requires inputv.Length == PROTOOPARGS_MAX && outputv.Length == PROTOOPARGS_MAX && inputv != outputv
      modifies this`inputc, this`outputcCallee, this`currentPlugin, this`currentProtoop, this`currentAnchor
      modifies inputv, outputv
      ensures Valid() && Shown() == View(plugin, op, anchor, inputs, outputs)
    {
      Copy(inputv, inputs);
      Copy(outputv, outputs);
      inputc, outputcCallee := |inputs|, |outputs|;
      currentPlugin, currentProtoop, currentAnchor := plugin, op, anchor;
    }

    /** Gives the callee its arguments and an empty list of outputs. */
    method Enter(inputs: Args)
      requires Valid()
      modifies this`inputc, this`outputcCallee, inputv
      ensures Valid() && Shown() == old(Shown()).(inputs := inputs, outputs := [])
    {
      Copy(inputv, inputs);
      inputc, outputcCallee := |inputs|, 0;
    }

    /** The replacing pluglet, or else the core operation. */
    method Perform(r: Registry, e: Entry, body: Body) returns (ok: bool)
      requires Valid()
      modifies this, inputv, outputv
      ensures ok <==> (e.replace.Some? || e.core) && BodyCompletes(r, body, |body.acts|, old(running))
      ensures ok ==> Valid() && running == old(running)
      ensures ok ==> Shown() == After(AtMain(old(Shown()), e), body.acts)
      ensures ok ==> log == old(log) + BodyLog(r, AtMain(old(Shown()), e), body, |body.acts|)
      ensures ok && e.replace.Some? ==> previousPluginInReplace == e.replace
      decreases body, 1
    {
      if e.replace.Some? {
        currentPlugin := e.replace;
        currentAnchor := Replace;
        ok := Exec(r, body);
        previousPluginInReplace := currentPlugin;
        SamePlugin(AtMain(old(Shown()), e), body.acts);
      } else if e.core {
        currentPlugin := None;
        ok := Exec(r, body);
      } else {
        ok := false;
      }
    }

    /** Observers before, then the implementation. */
    method Advance(r: Registry, e: Entry, call: Call) returns (ok: bool)
      requires Valid()
      modifies this, inputv, outputv
      ensures ok <==>
        && AllComplete(r, call.pre, |e.pre|, old(running)) && (e.replace.Some? || e.core)
        && BodyCompletes(r, call.main, |call.main.acts|, old(running))
      ensures ok ==> Valid() && running == old(running) && Shown() == Performed(old(Shown()), e, call)
      ensures ok ==>
        log == old(log) + (ObserverLog(r, old(Shown()), e.pre, call.pre, Pre, |e.pre|)
          + BodyLog(r, AtMain(Observed(old(Shown()), e.pre, call.pre, Pre, |e.pre|), e), call.main, |call.main.acts|))
      decreases call, 0
    {
      ghost var before := log;
      ok := Observe(r, e.pre, call.pre, Pre);
      if !ok {
        return;
      }
      ghost var v, middle := Shown(), log;
      ok := Perform(r, e, call.main);
      Appended(before, middle[|before|..], BodyLog(r, AtMain(v, e), call.main, |call.main.acts|));
    }

    /** Observers before, implementation, observers after. */
    method Serve(r: Registry, e: Entry, call: Call) returns (ok: bool)
      requires Valid()
      modifies this, inputv, outputv
      ensures ok <==> Served(r, e, call, old(running))
      ensures ok ==> Valid() && running == old(running) && protoopOutput == 0
      ensures ok ==> Shown() == Final(old(Shown()), e, call)
      ensures ok ==> log == old(log) + ServeLog(r, old(Shown()), e, call)
      decreases call, 1
    {
      ghost var before := log;
      ok := Advance(r, e, call);
      if !ok {
        return;
      }
      ghost var v, middle := Shown(), log;
      if e.post != [] {
        protoopOutput := call.status;
      }
      ok := Observe(r, e.post, call.post, Post);
      protoopOutput := 0;
      Appended(before, middle[|before|..], ObserverLog(r, v, e.post, call.post, Post, |e.post|));
    }

    /** One protocol operation call. It completes exactly when the call tree reaches only entries it may run
      * and none twice along a path. Then the caller's whole view and the call stack are as before, the outputs
      * are those its own bodies saved, and every body saw what the lexically scoped semantics shows it. */
    method Run(r: Registry, call: Call) returns (ok: bool, status: nat, outputs: seq<nat>)
      requires Valid()
      modifies this, inputv, outputv
      ensures ok <==> Completes(r, call, old(running))
      ensures ok ==> Valid() && Shown() == old(Shown()) && running == old(running)
      ensures ok ==> log == old(log) + CallLog(r, call, old(currentPlugin), old(currentAnchor))
      ensures ok && |call.inputs| > PROTOOPARGS_MAX ==> status == TOO_MANY_ARGUMENTS && outputs == []
      ensures ok && |call.inputs| <= PROTOOPARGS_MAX ==>
        var key := Resolve(r, call).value;
        && status == call.status && protoopOutput == 0
        && previousPluginInReplace == r.entries[key].replace
        && outputs == if call.wantsOutputs
                      then Final(Entered(call, old(currentPlugin), old(currentAnchor)), r.entries[key], call).outputs
                      else []
      decreases call, 2
    {
      hide Served;
      hide ServeLog;
      hide Final;
      if |call.inputs| > PROTOOPARGS_MAX {
        return true, TOO_MANY_ARGUMENTS, [];
      }
      ghost var start := Shown();
      var oldPlugin, oldProtoop, oldAnchor := currentPlugin, currentProtoop, currentAnchor;
      var callerInputs: Args, callerOutputs: Args := inputv[..inputc], outputv[..outputcCallee];
      Enter(call.inputs);
      status, outputs := call.status, [];

      var found := Resolve(r, call);
      if found.None? || found.value !in r.entries {
        return false, 0, [];
      }
      var key := found.value;
      var e := r.entries[key];
      if call.callerIsIntern != e.intern || key in running {
        return false, 0, [];
      }
      running := running + {key};
      currentProtoop := Some(call.op);
      assert Shown() == Entered(call, oldPlugin, oldAnchor);

      ok := Serve(r, e, call);
      if !ok {
        return false, 0, [];
      }
      if call.wantsOutputs {
        outputs := outputv[..outputcCallee];
      }
      Restore(callerInputs, callerOutputs, oldPlugin, oldProtoop, oldAnchor);
      running := running - {key};
      previousPluginInReplace := e.replace;
    }
  }

  // ----- Lemmas -----

  lemma Appended<T>(a: seq<T>, b: seq<T>, c: seq<T>)
    ensures a + b + c == a + (b + c)
  {
  }

  /** No act changes the plugin, the operation or the anchor. */
  lemma {:induction false} SamePlugin(v: View, acts: seq<Act>)
    ensures var w := After(v, acts); w.plugin == v.plugin && w.op == v.op && w.anchor == v.anchor
    decreases |acts|
  {
    if acts != [] {
      SamePlugin(v, acts[..|acts| - 1]);
    }
  }

  lemma AfterNext(v: View, acts: seq<Act>, n: nat)
    requires n < |acts|
    ensures After(v, acts[..n + 1]) == Own(After(v, acts[..n]), acts[n])
  {
    assert acts[..n + 1][..n] == acts[..n];
  }

  lemma {:induction false} NeverCompletes(r: Registry, body: Body, n: nat, m: nat, stack: set<Key>)
    requires n <= m <= |body.acts| && !BodyCompletes(r, body, n, stack)
    ensures !BodyCompletes(r, body, m, stack)
  {
    if n < m {
      NeverCompletes(r, body, n, m - 1, stack);
    }
  }

  lemma {:induction false} NoneCompletes(r: Registry, bodies: seq<Body>, n: nat, m: nat, stack: set<Key>)
    requires n <= m && !AllComplete(r, bodies, n, stack)
    ensures !AllComplete(r, bodies, m, stack)
  {
    if n < m {
      NoneCompletes(r, bodies, n, m - 1, stack);
    }
  }

  lemma {:induction false} ActCompletes(r: Registry, body: Body, i: nat, n: nat, stack: set<Key>)
    requires i < n <= |body.acts| && BodyCompletes(r, body, n, stack) && body.acts[i].Invoke?
    ensures Completes(r, body.acts[i].call, stack)
  {
    if i < n - 1 {
      ActCompletes(r, body, i, n - 1, stack);
    }
  }

  lemma {:induction false} ObserverCompletes(r: Registry, bodies: seq<Body>, i: nat, k: nat, stack: set<Key>)
    requires i < k && i < |bodies| && AllComplete(r, bodies, k, stack)
    ensures BodyCompletes(r, bodies[i], |bodies[i].acts|, stack)
  {
    if i < k - 1 {
      ObserverCompletes(r, bodies, i, k - 1, stack);
    }
  }

  /** The body is one that the call runs. */
  predicate RunsBody(r: Registry, call: Call, body: Body) {
    match Resolve(r, call)
    case None => false
    case Some(key) =>
      key in r.entries
      && var e := r.entries[key];
         || body == call.main
         || (exists i :: 0 <= i < |call.pre| && i < |e.pre| && call.pre[i] == body)
         || (exists i :: 0 <= i < |call.post| && i < |e.post| && call.post[i] == body)
  }

  ghost predicate Invokes(r: Registry, outer: Call, inner: Call) {
    exists body: Body :: RunsBody(r, outer, body) && Invoke(inner) in body.acts
  }

  /** Every call of a completing call tree completes, with its caller added to the stack. */
  lemma InnerCompletes(r: Registry, outer: Call, inner: Call, stack: set<Key>)
    requires |outer.inputs| <= PROTOOPARGS_MAX && Completes(r, outer, stack) && Invokes(r, outer, inner)
    ensures Completes(r, inner, stack + {Resolve(r, outer).value})
  {
    var key := Resolve(r, outer).value;
    var e, above := r.entries[key], stack + {key};
    var body: Body :| RunsBody(r, outer, body) && Invoke(inner) in body.acts;
    assert BodyCompletes(r, body, |body.acts|, above) by {
      if body != outer.main {
        if i :| 0 <= i < |outer.pre| && i < |e.pre| && outer.pre[i] == body {
          ObserverCompletes(r, outer.pre, i, |e.pre|, above);
        } else {
          var i :| 0 <= i < |outer.post| && i < |e.post| && outer.post[i] == body;
          ObserverCompletes(r, outer.post, i, |e.post|, above);
        }
      }
    }
    var i :| 0 <= i < |body.acts| && body.acts[i] == Invoke(inner);
    ActCompletes(r, body, i, |body.acts|, above);
  }

  /** The entries the calls of a chain run. */
  function Keys(r: Registry, chain: seq<Call>): (keys: set<Key>)
    requires forall c :: c in chain ==> Resolve(r, c).Some?
    ensures forall c :: c in chain ==> Resolve(r, c).value in keys
  {
    if chain == [] then {} else {Resolve(r, chain[0]).value} + Keys(r, chain[1..])
  }

  ghost predicate Nested(r: Registry, chain: seq<Call>) {
    && (forall c :: c in chain ==> Resolve(r, c).Some? && |c.inputs| <= PROTOOPARGS_MAX)
    && (forall i :: 0 <= i < |chain| - 1 ==> Invokes(r, chain[i], chain[i + 1]))
  }

  /** Calls nested in one another in a completing run reach distinct entries, none of them on the stack
    * before, so the nesting is never deeper than the number of registered entries. */
  lemma {:induction false} NestingIsBounded(r: Registry, chain: seq<Call>, stack: set<Key>)
    requires chain != [] && Nested(r, chain) && Completes(r, chain[0], stack) && stack <= r.entries.Keys
    ensures |Keys(r, chain)| == |chain| && Keys(r, chain) !! stack && Keys(r, chain) <= r.entries.Keys
    ensures |stack| + |chain| <= |r.entries|
    decreases |chain|
  {
    var key := Resolve(r, chain[0]).value;
    if |chain| == 1 {
      assert Keys(r, chain) == {key} by {
        assert chain[1..] == [];
      }
    } else {
      assert Invokes(r, chain[0], chain[0 + 1]);
      InnerCompletes(r, chain[0], chain[1], stack);
      forall i | 0 <= i < |chain[1..]| - 1
        ensures Invokes(r, chain[1..][i], chain[1..][i + 1])
      {
        assert Invokes(r, chain[i + 1], chain[i + 1 + 1]);
      }
      NestingIsBounded(r, chain[1..], stack + {key});
    }
    Fits(stack, Keys(r, chain), r.entries.Keys);
    assert |r.entries.Keys| == |r.entries|;
  }

  lemma Fits<T>(a: set<T>, b: set<T>, whole: set<T>)
    requires a !! b && a <= whole && b <= whole
    ensures |a| + |b| <= |whole|
  {
    var rest := whole - a - b;
    assert whole == a + b + rest;
  }
}
