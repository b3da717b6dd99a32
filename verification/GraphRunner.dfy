/** Conditional edges (pkg/graph/definition.go), and the runner of a graph (pkg/graph/runner.go). */
module GraphRunner {
  import opened Wrappers

  // ---- definition.go ----

  datatype Edge<!N, !V> = Edge(cond: Option<V -> bool>, to: N)

  type Edges<!N(==), !V> = map<N, seq<Edge<N, V>>>

  function EdgesFrom<N(==), V>(edges: Edges<N, V>, node: N): seq<Edge<N, V>> {
    if node in edges then edges[node] else []
  }

  predicate Taken<N, V>(e: Edge<N, V>, out: V) { e.cond.None? || e.cond.value(out) }

  /** Where the edges lead whose condition holds, in the order in which they were added. */
  function Targets<N, V>(es: seq<Edge<N, V>>, out: V): seq<N>
    decreases |es|
  {
    if es == [] then []
    else
      var before := Targets(es[..|es| - 1], out);
      if Taken(es[|es| - 1], out) then before + [es[|es| - 1].to] else before
  }

  function Successors<N(==), V>(edges: Edges<N, V>, node: N, out: V): seq<N> {
    Targets(EdgesFrom(edges, node), out)
  }

  class Definition<N(==), V> {
    var edges: Edges<N, V>

    constructor ()
      ensures edges == map[]
    {
      edges := map[];
    }

    method AddEdge(from: N, to: N)
      modifies this
      ensures edges == old(edges)[from := EdgesFrom(old(edges), from) + [Edge(None, to)]]
    {
      edges := edges[from := EdgesFrom(edges, from) + [Edge(None, to)]];
    }

    method AddConditionalEdge(from: N, cond: V -> bool, to: N)
      modifies this
      ensures edges == old(edges)[from := EdgesFrom(old(edges), from) + [Edge(Some(cond), to)]]
    {
      edges := edges[from := EdgesFrom(edges, from) + [Edge(Some(cond), to)]];
    }

    method NextNodes(node: N, out: V) returns (next: seq<N>)
      ensures next == Successors(edges, node, out)
    {
      next := [];
      var es := EdgesFrom(edges, node);
      for i := 0 to |es|
        invariant next == Targets(es[..i], out)
      {
        assert es[..i + 1][..i] == es[..i];
        if es[i].cond.None? || es[i].cond.value(out) {
          next := next + [es[i].to];
        }
      }
      assert es[..|es|] == es;
    }
  }

  // ---- runner.go ----

  datatype Frame<N, V> = Frame(node: N, input: V, depth: nat)

  /** One executed step, as the onStep callback sees it; the index counts from 1. */
  datatype Entry<N, V> = Entry(index: nat, frame: Frame<N, V>, out: V)

  datatype NodeError<E> = Cancelled | Failed(error: E)

  datatype RunError<N, E> = MaxSteps(limit: nat) | NodeStopped(node: N, cause: NodeError<E>) | RunCancelled

  /** Attempts made and cancellation checks made so far: the clock by which the outside world acts. */
  datatype Clock = Clock(attempts: nat, checks: nat)

  /**
   What a run depends on besides its start: the graph, the nodes, the context and the retry policy. Nodes
   may be impure: what an attempt gives may depend on how many attempts came before it.
   */
  datatype Env<!N(==), !V, !E> = Env(
    edges: Edges<N, V>,
    exec: (N, V, nat) -> Result<V, E>,
    cancelled: nat -> bool,
    maxAttempts: int,
    shouldRetry: Option<(E, N, int) -> bool>)

  function MaxAttempts(n: int): nat { if n <= 0 then 1 else n }

  function StepLimit(n: int): nat { if n <= 0 then 64 else n }

  datatype Tried<V, E> = Tried(result: Result<V, NodeError<E>>, clock: Clock)

  /** Attempt number `attempt` and those after it. */
  function Try<N(==), V, E>(env: Env<N, V, E>, node: N, input: V, attempt: nat, clock: Clock): Tried<V, E>
    requires 1 <= attempt <= MaxAttempts(env.maxAttempts)
    decreases MaxAttempts(env.maxAttempts) - attempt
  {
    var c1 := clock.(checks := clock.checks + 1);
    if env.cancelled(clock.checks) then Tried(Err(Cancelled), c1)
    else
      var c2 := c1.(attempts := c1.attempts + 1);
      match env.exec(node, input, clock.attempts)
      case Ok(out) => Tried(Ok(out), c2)
      case Err(e) =>
        if env.shouldRetry.None? || !env.shouldRetry.value(e, node, attempt) || attempt == MaxAttempts(env.maxAttempts)
        then Tried(Err(Failed(e)), c2)
        else Try(env, node, input, attempt + 1, c2)
  }

  datatype Outcome<N, V, E> = Outcome(log: seq<Entry<N, V>>, error: Option<RunError<N, E>>, clock: Clock)

  function Follow<N, V>(next: seq<N>, out: V, depth: nat): seq<Frame<N, V>> {
    seq(|next|, i requires 0 <= i < |next| => Frame(next[i], out, depth))
  }

  /** The rest of a run: `step` steps were executed and the queue is what is left to do. */
  function Drain<N(==), V, E>(env: Env<N, V, E>, queue: seq<Frame<N, V>>, step: nat, limit: nat,
      clock: Clock): Outcome<N, V, E>
    requires step <= limit
    decreases limit - step
  {
    if queue == [] then Outcome([], None, clock)
    else
      var c1 := clock.(checks := clock.checks + 1);
      if env.cancelled(clock.checks) then Outcome([], Some(RunCancelled), c1)
      else if step == limit then Outcome([], Some(MaxSteps(limit)), c1)
      else
        var f := queue[0];
        var t := Try(env, f.node, f.input, 1, c1);
        match t.result
        case Err(e) => Outcome([], Some(NodeStopped(f.node, e)), t.clock)
        case Ok(out) =>
          var next := queue[1..] + Follow(Successors(env.edges, f.node, out), out, f.depth + 1);
          var rest := Drain(env, next, step + 1, limit, t.clock);
          Outcome([Entry(step + 1, f, out)] + rest.log, rest.error, rest.clock)
  }

  /** A whole run. */
  function RunOf<N(==), V, E>(env: Env<N, V, E>, start: N, seed: V, stepLimit: int): Outcome<N, V, E> {
    Drain(env, [Frame(start, seed, 0)], 0, StepLimit(stepLimit), Clock(0, 0))
  }

  method ExecuteWithRetry<N(==), V, E>(env: Env<N, V, E>, node: N, input: V, clock: Clock)
      returns (r: Result<V, NodeError<E>>, now: Clock)
    ensures Tried(r, now) == Try(env, node, input, 1, clock)
  {
    now := clock;
    var max := MaxAttempts(env.maxAttempts);
    var attempt := 1;
    var lastErr: Option<E> := None;
    while attempt <= max
      invariant 1 <= attempt <= max + 1
      invariant attempt <= max ==> Try(env, node, input, attempt, now) == Try(env, node, input, 1, clock)
      invariant attempt == max + 1 ==>
                lastErr.Some? && Tried(Err(Failed(lastErr.value)), now) == Try(env, node, input, 1, clock)
      decreases max + 1 - attempt
    {
      var isDone := env.cancelled(now.checks);
      now := now.(checks := now.checks + 1);
      if isDone { return Err(Cancelled), now; }
      var out := env.exec(node, input, now.attempts);
      now := now.(attempts := now.attempts + 1);
      match out {
        case Ok(v) => return Ok(v), now;
        case Err(e) =>
          lastErr := Some(e);
          if env.shouldRetry.None? || !env.shouldRetry.value(e, node, attempt) {
            return Err(Failed(e)), now;
          }
      }
      attempt := attempt + 1;
    }
    r := Err(Failed(lastErr.value));
  }

  /** One turn of the loop. */
  lemma DrainStep<N, V, E>(env: Env<N, V, E>, queue: seq<Frame<N, V>>, step: nat, limit: nat, clock: Clock)
    requires step <= limit && queue != []
    ensures var o := Drain(env, queue, step, limit, clock);
            var c1 := clock.(checks := clock.checks + 1);
            if env.cancelled(clock.checks) then o == Outcome([], Some(RunCancelled), c1)
            else if step == limit then o == Outcome([], Some(MaxSteps(limit)), c1)
            else
              var f := queue[0];
              var t := Try(env, f.node, f.input, 1, c1);
              match t.result
              case Err(e) => o == Outcome([], Some(NodeStopped(f.node, e)), t.clock)
              case Ok(out) =>
                var next := queue[1..] + Follow(Successors(env.edges, f.node, out), out, f.depth + 1);
                var rest := Drain(env, next, step + 1, limit, t.clock);
                o == Outcome([Entry(step + 1, f, out)] + rest.log, rest.error, rest.clock)
  {
    hide Try, Successors;
  }

  /** Runs the graph; `lastOut` is the output of the last executed node, `log` what onStep was told. */
  method Run<N(==), V, E>(
    def: Definition<N, V>, start: N, seed: V, stepLimit: int, env: Env<N, V, E>)
    returns (lastOut: Option<V>, error: Option<RunError<N, E>>, log: seq<Entry<N, V>>)
    requires env.edges == def.edges
    ensures var o := RunOf(env, start, seed, stepLimit);
            && log == o.log && error == o.error
            && lastOut == if log == [] then None else Some(log[|log| - 1].out)
  {
    hide Try, Successors, Drain, StepLimit, Follow;
    var limit := StepLimit(stepLimit);
    var queue := [Frame(start, seed, 0)];
    lastOut, log := None, [];
    var step, clock := 0, Clock(0, 0);
    ghost var o := RunOf(env, start, seed, stepLimit);
    while |queue| > 0
      invariant step == |log| <= limit
      invariant var rest := Drain(env, queue, step, limit, clock);
                log + rest.log == o.log && rest.error == o.error
      invariant lastOut == if log == [] then None else Some(log[|log| - 1].out)
      decreases limit - step
    {
      DrainStep(env, queue, step, limit, clock);
      var isDone := env.cancelled(clock.checks);
      clock := clock.(checks := clock.checks + 1);
      if isDone { return lastOut, Some(RunCancelled), log; }
      if step >= limit { return lastOut, Some(MaxSteps(limit)), log; }
      var f := queue[0];
      var tail := queue[1..];
      var r, now := ExecuteWithRetry(env, f.node, f.input, clock);
      match r {
        case Err(e) => return lastOut, Some(NodeStopped(f.node, e)), log;
        case Ok(out) =>
          lastOut := Some(out);
          step := step + 1;
          var next := def.NextNodes(f.node, out);
          queue := tail + Follow(next, out, f.depth + 1);
          clock := now;
          log := log + [Entry(step, f, out)];
      }
    }
    DrainEmpty(env, step, limit, clock);
    error := None;
  }

  lemma DrainEmpty<N, V, E>(env: Env<N, V, E>, step: nat, limit: nat, clock: Clock)
    requires step <= limit
    ensures Drain(env, [], step, limit, clock) == Outcome([], None, clock)
  {
  }

  // ---- the frames that were tried ----

  /** The frames on which a node was tried: those executed, and the one at which a node stopped the run. */
  function Attempted<N(==), V, E>(env: Env<N, V, E>, queue: seq<Frame<N, V>>, step: nat, limit: nat,
      clock: Clock): seq<Frame<N, V>>
    requires step <= limit
    decreases limit - step
  {
    if queue == [] || env.cancelled(clock.checks) || step == limit then []
    else
      var f := queue[0];
      var t := Try(env, f.node, f.input, 1, clock.(checks := clock.checks + 1));
      if t.result.Err? then [f]
      else
        var out := t.result.value;
        [f] + Attempted(env, queue[1..] + Follow(Successors(env.edges, f.node, out), out, f.depth + 1), step + 1,
            limit, t.clock)
  }

  lemma AttemptedStep<N, V, E>(env: Env<N, V, E>, queue: seq<Frame<N, V>>, step: nat, limit: nat, clock: Clock)
    requires step <= limit
    ensures var tries := Attempted(env, queue, step, limit, clock);
            if queue == [] || env.cancelled(clock.checks) || step == limit then tries == []
            else
              var f := queue[0];
              var t := Try(env, f.node, f.input, 1, clock.(checks := clock.checks + 1));
              if t.result.Err? then tries == [f]
              else
                var out := t.result.value;
                var next := queue[1..] + Follow(Successors(env.edges, f.node, out), out, f.depth + 1);
                tries == [f] + Attempted(env, next, step + 1, limit, t.clock)
  {
    hide Try, Successors;
  }

  /** They are the frames of the log, and one more exactly if a node stopped the run. */
  lemma {:induction false} AttemptedLog<N, V, E>(env: Env<N, V, E>, queue: seq<Frame<N, V>>, step: nat, limit: nat,
      clock: Clock)
    requires step <= limit
    ensures var o := Drain(env, queue, step, limit, clock);
            var tries := Attempted(env, queue, step, limit, clock);
            && |tries| == |o.log| + (if o.error.Some? && o.error.value.NodeStopped? then 1 else 0)
            && (forall j | 0 <= j < |o.log| :: tries[j] == o.log[j].frame)
            && (o.error.Some? && o.error.value.NodeStopped? ==> tries[|o.log|].node == o.error.value.node)
    decreases limit - step
  {
    hide Try, Successors;
    if queue != [] && !env.cancelled(clock.checks) && step < limit {
      var f := queue[0];
      var t := Try(env, f.node, f.input, 1, clock.(checks := clock.checks + 1));
      if t.result.Ok? {
        var out := t.result.value;
        var next := queue[1..] + Follow(Successors(env.edges, f.node, out), out, f.depth + 1);
        AttemptedLog(env, next, step + 1, limit, t.clock);
        DrainStep(env, queue, step, limit, clock);
      }
    }
  }

  // ---- other limits ----

  /** A run that ends without error is what any limit it keeps to gives; a smaller one cuts it. */
  lemma {:induction false} DrainLimits<N, V, E>(env: Env<N, V, E>, queue: seq<Frame<N, V>>, step: nat, l: nat, m: nat,
      clock: Clock)
    requires step <= l && step <= m && Drain(env, queue, step, m, clock).error.None?
    ensures var a, b := Drain(env, queue, step, l, clock), Drain(env, queue, step, m, clock);
            && (|b.log| <= l - step ==> a == b)
            && (|b.log| > l - step ==> a.error == Some(MaxSteps(l)) && a.log == b.log[..l - step])
    decreases l - step
  {
    hide Try, Successors;
    if queue == [] {
      DrainEmpty(env, step, l, clock);
      DrainEmpty(env, step, m, clock);
    } else {
      DrainStep(env, queue, step, l, clock);
      DrainStep(env, queue, step, m, clock);
      hide Drain;
      if step < l {
        var f := queue[0];
        var t := Try(env, f.node, f.input, 1, clock.(checks := clock.checks + 1));
        var out := t.result.value;
        DrainLimits(env, queue[1..] + Follow(Successors(env.edges, f.node, out), out, f.depth + 1), step + 1, l, m,
            t.clock);
      }
    }
  }

  // ---- retries ----

  /** Attempt i + 1 was made and failed, and the policy asked for another. */
  ghost predicate FailedAt<N, V, E>(env: Env<N, V, E>, node: N, input: V, clock: Clock, i: nat) {
    && !env.cancelled(clock.checks + i)
    && env.exec(node, input, clock.attempts + i).Err?
    && env.shouldRetry.Some?
    && env.shouldRetry.value(env.exec(node, input, clock.attempts + i).error, node, i + 1)
  }

  /**
   Attempt k + 1 is the last: it succeeds, or it fails and uses up the attempts or the policy asks for no
   other, or the context is found cancelled before it.
   */
  ghost predicate LastAttempt<N, V, E>(env: Env<N, V, E>, node: N, input: V, clock: Clock, k: nat, max: nat,
      t: Tried<V, E>) {
    if env.cancelled(clock.checks + k) then
      t == Tried(Err(Cancelled), Clock(clock.attempts + k, clock.checks + k + 1))
    else
      && t.clock == Clock(clock.attempts + k + 1, clock.checks + k + 1)
      && match env.exec(node, input, clock.attempts + k)
         case Ok(v) => t.result == Ok(v)
         case Err(e) =>
           && t.result == Err(Failed(e))
           && (k + 1 == max || env.shouldRetry.None? || !env.shouldRetry.value(e, node, k + 1))
  }

  /**
   Executing a node makes attempts until one is the last; all before it failed and the policy asked for
   another each time. As many are allowed as the policy says, one if it says none.
   */
  lemma {:induction false} RetryExactly<N, V, E>(env: Env<N, V, E>, node: N, input: V, clock: Clock) returns (k: nat)
    ensures var max := if env.maxAttempts <= 0 then 1 else env.maxAttempts;
            && k < max
            && (forall i | 0 <= i < k :: FailedAt(env, node, input, clock, i))
            && LastAttempt(env, node, input, clock, k, max, Try(env, node, input, 1, clock))
  {
    k := RetryFrom(env, node, input, 1, clock);
  }

  lemma {:induction false} RetryFrom<N, V, E>(env: Env<N, V, E>, node: N, input: V, attempt: nat, first: Clock)
      returns (k: nat)
    requires 1 <= attempt <= MaxAttempts(env.maxAttempts)
    requires forall i | 0 <= i < attempt - 1 :: FailedAt(env, node, input, first, i)
    ensures k < MaxAttempts(env.maxAttempts) && forall i | 0 <= i < k :: FailedAt(env, node, input, first, i)
    ensures LastAttempt(env, node, input, first, k, MaxAttempts(env.maxAttempts),
                Try(env, node, input, attempt, Clock(first.attempts + attempt - 1, first.checks + attempt - 1)))
    decreases MaxAttempts(env.maxAttempts) - attempt
  {
    k := attempt - 1;
    TryOnce(env, node, input, attempt, first);
    hide Try, FailedAt, LastAttempt, MaxAttempts;
    if attempt < MaxAttempts(env.maxAttempts) && FailedAt(env, node, input, first, k) {
      k := RetryFrom(env, node, input, attempt + 1, first);
    }
  }

  lemma TryOnce<N, V, E>(env: Env<N, V, E>, node: N, input: V, attempt: nat, first: Clock)
    requires 1 <= attempt <= MaxAttempts(env.maxAttempts)
    ensures var k := attempt - 1;
            var t := Try(env, node, input, attempt, Clock(first.attempts + k, first.checks + k));
            if attempt < MaxAttempts(env.maxAttempts) && FailedAt(env, node, input, first, k) then
              t == Try(env, node, input, attempt + 1, Clock(first.attempts + attempt, first.checks + attempt))
            else
              LastAttempt(env, node, input, first, k, MaxAttempts(env.maxAttempts), t)
  {
  }

  // ---- every run is breadth first ----

  /** The frames that a step is due to be followed by: one for each edge whose condition its output meets, in order. */
  function DueAfter<N, V>(es: seq<Edge<N, V>>, out: V, depth: nat): seq<Frame<N, V>>
    decreases |es|
  {
    if es == [] then []
    else
      (if es[0].cond.Some? && !es[0].cond.value(out) then [] else [Frame(es[0].to, out, depth + 1)])
      + DueAfter(es[1..], out, depth)
  }

  /** What the executed steps make due, one step after the other. */
  function Due<N(==), V>(edges: Edges<N, V>, log: seq<Entry<N, V>>): seq<Frame<N, V>>
    decreases |log|
  {
    if log == [] then []
    else
      var e := log[0];
      DueAfter(if e.frame.node in edges then edges[e.frame.node] else [], e.out, e.frame.depth)
      + Due(edges, log[1..])
  }

  lemma {:induction false} TargetsFront<N, V>(es: seq<Edge<N, V>>, rest: seq<Edge<N, V>>, out: V)
    ensures Targets(es + rest, out) == Targets(es, out) + Targets(rest, out)
    decreases |rest|
  {
    if rest == [] {
      assert es + rest == es;
    } else {
      var n := |rest| - 1;
      assert (es + rest)[..|es + rest| - 1] == es + rest[..n];
      TargetsFront(es, rest[..n], out);
    }
  }

  /** The successors of a step, as frames, are what it makes due. */
  lemma {:induction false} FollowIsDue<N, V>(es: seq<Edge<N, V>>, out: V, depth: nat)
    ensures Follow(Targets(es, out), out, depth + 1) == DueAfter(es, out, depth)
    decreases |es|
  {
    if es != [] {
      assert es == [es[0]] + es[1..];
      TargetsFront([es[0]], es[1..], out);
      assert [es[0]][..0] == [];
      FollowIsDue(es[1..], out, depth);
    }
  }

  lemma {:induction false} DueMore<N, V>(edges: Edges<N, V>, log: seq<Entry<N, V>>, e: Entry<N, V>)
    ensures Due(edges, log + [e]) ==
            Due(edges, log) + Follow(Successors(edges, e.frame.node, e.out), e.out, e.frame.depth + 1)
    decreases |log|
  {
    hide Targets, DueAfter;
    if log == [] {
      assert (log + [e])[1..] == [];
      FollowIsDue(EdgesFrom(edges, e.frame.node), e.out, e.frame.depth);
    } else {
      assert (log + [e])[1..] == log[1..] + [e] && (log + [e])[0] == log[0];
      DueMore(edges, log[1..], e);
    }
  }

  lemma StillDue<N, V>(edges: Edges<N, V>, first: Frame<N, V>, done: seq<Entry<N, V>>, queue: seq<Frame<N, V>>,
      e: Entry<N, V>)
    requires queue != [] && e.frame == queue[0] && [first] + Due(edges, done) == Frames(done) + queue
    ensures var kids := Follow(Successors(edges, e.frame.node, e.out), e.out, e.frame.depth + 1);
            [first] + Due(edges, done + [e]) == Frames(done + [e]) + (queue[1..] + kids)
  {
    hide Successors, Due, Follow;
    var kids := Follow(Successors(edges, e.frame.node, e.out), e.out, e.frame.depth + 1);
    DueMore(edges, done, e);
    assert Frames(done + [e]) == Frames(done) + [e.frame];
    assert queue == [e.frame] + queue[1..];
    assert [first] + Due(edges, done + [e]) == ([first] + Due(edges, done)) + kids;
    assert Frames(done) + [e.frame] + queue[1..] == Frames(done) + queue;
  }

  /** The steps executed what is due, in order, and how a run with these steps may end. */
  ghost predicate InDueOrder<N, V, E>(edges: Edges<N, V>, first: Frame<N, V>, log: seq<Entry<N, V>>,
      error: Option<RunError<N, E>>, limit: nat) {
    var due := [first] + Due(edges, log);
    && Frames(log) <= due
    && (error.None? <==> Frames(log) == due)
    && (error.Some? && error.value.MaxSteps? ==> error.value.limit == limit == |log|)
    && (error.Some? && error.value.NodeStopped? ==> error.value.node == due[|log|].node)
  }

  lemma EndsInOrder<N, V, E>(edges: Edges<N, V>, first: Frame<N, V>, done: seq<Entry<N, V>>, queue: seq<Frame<N, V>>,
      error: Option<RunError<N, E>>, limit: nat)
    requires [first] + Due(edges, done) == Frames(done) + queue
    requires error.None? <==> queue == []
    requires error.Some? && error.value.MaxSteps? ==> error.value.limit == limit == |done|
    requires error.Some? && error.value.NodeStopped? ==> error.value.node == queue[0].node
    ensures InDueOrder(edges, first, done, error, limit)
  {
    hide Due;
    assert (Frames(done) + queue)[..|done|] == Frames(done);
  }

  /** `done` are the steps before, and the queue is what they made due and was not executed yet. */
  lemma {:induction false} DrainDue<N, V, E>(env: Env<N, V, E>, first: Frame<N, V>, done: seq<Entry<N, V>>,
      queue: seq<Frame<N, V>>, limit: nat, clock: Clock)
    requires |done| <= limit && [first] + Due(env.edges, done) == Frames(done) + queue
    requires forall j | 0 <= j < |done| :: done[j].index == j + 1
    ensures var o := Drain(env, queue, |done|, limit, clock);
            && InDueOrder(env.edges, first, done + o.log, o.error, limit)
            && forall j | 0 <= j < |done + o.log| :: (done + o.log)[j].index == j + 1
    decreases limit - |done|
  {
    hide Try, Successors, Due, Follow, Drain, Frames, InDueOrder;
    assert done + [] == done;
    if queue == [] {
      DrainEmpty(env, |done|, limit, clock);
      EndsInOrder(env.edges, first, done, queue, Drain(env, queue, |done|, limit, clock).error, limit);
    } else {
      DrainStep(env, queue, |done|, limit, clock);
      var o := Drain(env, queue, |done|, limit, clock);
      var t := Try(env, queue[0].node, queue[0].input, 1, clock.(checks := clock.checks + 1));
      if env.cancelled(clock.checks) || |done| == limit || t.result.Err? {
        EndsInOrder(env.edges, first, done, queue, o.error, limit);
      } else {
        var e := Entry(|done| + 1, queue[0], t.result.value);
        var next := queue[1..] + Follow(Successors(env.edges, e.frame.node, e.out), e.out, e.frame.depth + 1);
        StillDue(env.edges, first, done, queue, e);
        DrainDue(env, first, done + [e], next, limit, t.clock);
        var rest := Drain(env, next, |done| + 1, limit, t.clock);
        assert done + ([e] + rest.log) == (done + [e]) + rest.log;
      }
    }
  }

  /** What a node gave at some time. */
  ghost predicate Gave<N, V, E>(env: Env<N, V, E>, node: N, input: V, out: V) {
    exists t: nat :: env.exec(node, input, t) == Ok(out)
  }

  /** Every executed step's output is what its node gave for its input. */
  lemma {:induction false} DrainGave<N, V, E>(env: Env<N, V, E>, queue: seq<Frame<N, V>>, step: nat, limit: nat,
      clock: Clock)
    requires step <= limit
    ensures forall e | e in Drain(env, queue, step, limit, clock).log :: Gave(env, e.frame.node, e.frame.input, e.out)
    decreases limit - step
  {
    hide Try, Successors, Drain, FailedAt, Follow;
    if queue == [] {
      DrainEmpty(env, step, limit, clock);
    } else {
      DrainStep(env, queue, step, limit, clock);
      if !env.cancelled(clock.checks) && step < limit {
        var f := queue[0];
        var c1 := clock.(checks := clock.checks + 1);
        var t := Try(env, f.node, f.input, 1, c1);
        if t.result.Ok? {
          var k := RetryExactly(env, f.node, f.input, c1);
          assert Gave(env, f.node, f.input, t.result.value);
          var next := queue[1..] + Follow(Successors(env.edges, f.node, t.result.value), t.result.value, f.depth + 1);
          DrainGave(env, next, step + 1, limit, t.clock);
        }
      }
    }
  }

  /**
   Whatever the nodes and the context do, a run executes what is due in the order in which it became
   due, that is, the start and then, step by step, the targets of the taken edges in the order of the
   edges, each with the output that led to it; a run without error executes all of it, and one that is
   cut at the limit (64 if none is given) executed that many steps and left something to do.
   */
  lemma RunIsBreadthFirst<N, V, E>(env: Env<N, V, E>, start: N, seed: V, stepLimit: int)
    ensures var o := RunOf(env, start, seed, stepLimit);
            && InDueOrder(env.edges, Frame(start, seed, 0), o.log, o.error, if stepLimit <= 0 then 64 else stepLimit)
            && (forall j | 0 <= j < |o.log| ::
                  o.log[j].index == j + 1 && Gave(env, o.log[j].frame.node, o.log[j].frame.input, o.log[j].out))
  {
    hide Drain, Gave, InDueOrder;
    var first := Frame(start, seed, 0);
    DrainGave(env, [first], 0, StepLimit(stepLimit), Clock(0, 0));
    var none: seq<Entry<N, V>> := [];
    assert [first] + Due(env.edges, none) == Frames(none) + [first];
    DrainDue(env, first, none, [first], StepLimit(stepLimit), Clock(0, 0));
    var o := RunOf(env, start, seed, stepLimit);
    assert none + o.log == o.log;
  }

  // ---- retries are bounded ----

  lemma {:induction false} TryBounded<N, V, E>(env: Env<N, V, E>, node: N, input: V, attempt: nat, clock: Clock)
    requires 1 <= attempt <= MaxAttempts(env.maxAttempts)
    ensures clock.attempts <= Try(env, node, input, attempt, clock).clock.attempts
    ensures Try(env, node, input, attempt, clock).clock.attempts <= clock.attempts
            + MaxAttempts(env.maxAttempts) - attempt + 1
    decreases MaxAttempts(env.maxAttempts) - attempt
  {
    if attempt < MaxAttempts(env.maxAttempts) {
      TryBounded(env, node, input, attempt + 1, Clock(clock.attempts + 1, clock.checks + 1));
    }
  }

  lemma {:induction false} DrainBounded<N, V, E>(env: Env<N, V, E>, queue: seq<Frame<N, V>>, step: nat, limit: nat,
      clock: Clock)
    requires step <= limit
    ensures var o := Drain(env, queue, step, limit, clock);
            && |o.log| <= limit - step
            && o.clock.attempts <= clock.attempts + (limit - step) * MaxAttempts(env.maxAttempts)
    decreases limit - step
  {
    hide Try, Successors;
    var m := MaxAttempts(env.maxAttempts);
    Distribute(limit - step, m);
    if queue != [] && step < limit {
      DrainStep(env, queue, step, limit, clock);
      hide Drain, MaxAttempts;
      var f := queue[0];
      var c1 := clock.(checks := clock.checks + 1);
      TryBounded(env, f.node, f.input, 1, c1);
      var t := Try(env, f.node, f.input, 1, c1);
      if t.result.Ok? {
        var out := t.result.value;
        DrainBounded(env, queue[1..] + Follow(Successors(env.edges, f.node, out), out, f.depth + 1), step + 1, limit,
            t.clock);
      }
    }
  }

  lemma Distribute(n: nat, m: nat)
    ensures n * m >= 0 && (n > 0 ==> n * m == (n - 1) * m + m && (n - 1) * m >= 0)
  {
  }

  /** Whatever the nodes and the context do, at most limit * MaxAttempts attempts are made. */
  lemma RunBounded<N, V, E>(env: Env<N, V, E>, start: N, seed: V, stepLimit: int)
    ensures var o := RunOf(env, start, seed, stepLimit);
            && |o.log| <= StepLimit(stepLimit)
            && o.clock.attempts <= StepLimit(stepLimit) * MaxAttempts(env.maxAttempts)
  {
    DrainBounded(env, [Frame(start, seed, 0)], 0, StepLimit(stepLimit), Clock(0, 0));
  }

  // ---- a run is the graph in level order ----

  /** Nodes that never fail and always give the same, in a context that is never cancelled. */
  ghost predicate Steady<N(!new), V(!new), E>(env: Env<N, V, E>, f: (N, V) -> V) {
    && (forall n, v, t :: env.exec(n, v, t) == Ok(f(n, v)))
    && (forall t :: !env.cancelled(t))
  }

  /** The frames that a frame gives rise to. */
  function Kids<N(==), V>(edges: Edges<N, V>, f: (N, V) -> V, fr: Frame<N, V>): seq<Frame<N, V>> {
    var out := f(fr.node, fr.input);
    Follow(Successors(edges, fr.node, out), out, fr.depth + 1)
  }

  function KidsAll<N(==), V>(edges: Edges<N, V>, f: (N, V) -> V, frs: seq<Frame<N, V>>): seq<Frame<N, V>>
    decreases |frs|
  {
    if frs == [] then [] else Kids(edges, f, frs[0]) + KidsAll(edges, f, frs[1..])
  }

  /** The frames of distance d from the start. */
  function LevelAt<N(==), V>(edges: Edges<N, V>, f: (N, V) -> V, start: Frame<N, V>, d: nat): seq<Frame<N, V>>
    decreases d
  {
    if d == 0 then [start] else KidsAll(edges, f, LevelAt(edges, f, start, d - 1))
  }

  /** The first n levels, one after the other. */
  function LevelOrder<N(==), V>(edges: Edges<N, V>, f: (N, V) -> V, start: Frame<N, V>, n: nat): seq<Frame<N, V>>
    decreases n
  {
    if n == 0 then [] else LevelOrder(edges, f, start, n - 1) + LevelAt(edges, f, start, n - 1)
  }

  /** The first k frames that draining a queue executes. */
  function Trace<N(==), V>(edges: Edges<N, V>, f: (N, V) -> V, queue: seq<Frame<N, V>>, k: nat): (r: seq<Frame<N, V>>)
    ensures |r| <= k
    decreases k
  {
    if k == 0 || queue == [] then []
    else [queue[0]] + Trace(edges, f, queue[1..] + Kids(edges, f, queue[0]), k - 1)
  }

  ghost function Frames<N, V>(log: seq<Entry<N, V>>): seq<Frame<N, V>> {
    seq(|log|, i requires 0 <= i < |log| => log[i].frame)
  }

  /** With steady nodes a run executes the trace of its queue, one attempt a step. */
  lemma {:induction false} DrainTrace<N(!new), V(!new), E>(
    env: Env<N, V, E>, f: (N, V) -> V, queue: seq<Frame<N, V>>, step: nat, limit: nat, clock: Clock)
    requires Steady(env, f) && step <= limit
    ensures var o := Drain(env, queue, step, limit, clock);
            && Frames(o.log) == Trace(env.edges, f, queue, limit - step)
            && (forall i | 0 <= i < |o.log| ::
                  o.log[i].index == step + i + 1 && o.log[i].out == f(o.log[i].frame.node, o.log[i].frame.input))
            && (o.error == if |Trace(env.edges, f, queue, limit - step + 1)| > limit - step
                then Some(MaxSteps(limit)) else None)
    decreases limit - step
  {
    hide Try, Successors;
    if queue != [] && step < limit {
      var fr := queue[0];
      var next := queue[1..] + Kids(env.edges, f, fr);
      var now := Clock(clock.attempts + 1, clock.checks + 2);
      SteadyTry(env, f, fr.node, fr.input, clock.(checks := clock.checks + 1));
      DrainTrace(env, f, next, step + 1, limit, now);
      var o := Drain(env, queue, step, limit, clock);
      var rest := Drain(env, next, step + 1, limit, now);
      assert o.log == [Entry(step + 1, fr, f(fr.node, fr.input))] + rest.log;
      assert Frames(o.log) == [fr] + Frames(rest.log);
    }
  }

  lemma SteadyTry<N(!new), V(!new), E>(env: Env<N, V, E>, f: (N, V) -> V, node: N, input: V, clock: Clock)
    requires Steady(env, f)
    ensures Try(env, node, input, 1, clock) == Tried(Ok(f(node, input)), Clock(clock.attempts + 1, clock.checks + 1))
  {
  }

  /** The front of the queue is executed first; what it gives rise to lines up behind the rest. */
  lemma {:induction false} TraceFront<N, V>(edges: Edges<N, V>, f: (N, V) -> V, a: seq<Frame<N, V>>,
      b: seq<Frame<N, V>>, k: nat)
    ensures Trace(edges, f, a + b, k) ==
            if k <= |a| then a[..k] else a + Trace(edges, f, b + KidsAll(edges, f, a), k - |a|)
    decreases |a|
  {
    hide Kids, Trace;
    TraceNone(edges, f, a + b);
    if a == [] {
      assert a + b == b && b + [] == b;
    } else if k > 0 {
      var rest := a[1..];
      var kids := Kids(edges, f, a[0]);
      assert (a + b)[1..] + kids == rest + (b + kids);
      TraceFront(edges, f, rest, b + kids, k - 1);
      assert (b + kids) + KidsAll(edges, f, rest) == b + KidsAll(edges, f, a);
      TraceOne(edges, f, a + b, k);
      assert (a + b)[0] == a[0];
      if k <= |a| {
        assert a[..k] == [a[0]] + rest[..k - 1];
      } else {
        var more := Trace(edges, f, b + KidsAll(edges, f, a), k - |a|);
        assert [a[0]] + (rest + more) == a + more;
      }
    }
  }

  lemma TraceOne<N, V>(edges: Edges<N, V>, f: (N, V) -> V, queue: seq<Frame<N, V>>, k: nat)
    requires k > 0 && queue != []
    ensures Trace(edges, f, queue, k) == [queue[0]] + Trace(edges, f, queue[1..] + Kids(edges, f, queue[0]), k - 1)
  {
  }

  lemma TraceNone<N, V>(edges: Edges<N, V>, f: (N, V) -> V, queue: seq<Frame<N, V>>)
    ensures Trace(edges, f, queue, 0) == []
  {
  }

  lemma TraceEmpty<N, V>(edges: Edges<N, V>, f: (N, V) -> V, k: nat)
    ensures Trace(edges, f, [], k) == []
  {
  }

  /** Draining the start executes level after level. */
  lemma {:induction false} TraceLevels<N, V>(edges: Edges<N, V>, f: (N, V) -> V, start: Frame<N, V>, n: nat, k: nat)
    ensures var all := LevelOrder(edges, f, start, n);
            Trace(edges, f, [start], k) ==
            if k <= |all| then all[..k] else all + Trace(edges, f, LevelAt(edges, f, start, n), k - |all|)
    decreases n
  {
    hide KidsAll, Trace, LevelOrder, LevelAt;
    LevelStep(edges, f, start, n);
    if n > 0 {
      TraceLevels(edges, f, start, n - 1, k);
      var before, level := LevelOrder(edges, f, start, n - 1), LevelAt(edges, f, start, n - 1);
      var all := before + level;
      if k <= |before| {
        assert all[..k] == before[..k];
      } else {
        var kids := KidsAll(edges, f, level);
        TraceFront(edges, f, level, [], k - |before|);
        assert level + [] == level && [] + kids == kids;
        assert k - |before| - |level| == k - |all|;
        Joined(before, level, if k <= |all| then [] else Trace(edges, f, kids, k - |all|), k);
      }
    } else {
      assert [] + Trace(edges, f, [start], k) == Trace(edges, f, [start], k);
      TraceNone(edges, f, [start]);
    }
  }

  lemma Joined<T>(a: seq<T>, b: seq<T>, c: seq<T>, k: nat)
    requires |a| <= k
    ensures (a + b) + c == a + (b + c)
    ensures k <= |a + b| ==> (a + b)[..k] == a + b[..k - |a|]
  {
  }

  lemma LevelStep<N, V>(edges: Edges<N, V>, f: (N, V) -> V, start: Frame<N, V>, n: nat)
    ensures if n == 0 then LevelOrder(edges, f, start, 0) == [] && LevelAt(edges, f, start, 0) == [start]
            else
              && LevelOrder(edges, f, start, n) == LevelOrder(edges, f, start, n - 1) + LevelAt(edges, f, start, n - 1)
              && LevelAt(edges, f, start, n) == KidsAll(edges, f, LevelAt(edges, f, start, n - 1))
  {
  }

  /** Levels either stay non-empty or are empty from some point on. */
  lemma {:induction false} LevelsEnd<N, V>(edges: Edges<N, V>, f: (N, V) -> V, start: Frame<N, V>, n: nat)
    requires |LevelOrder(edges, f, start, n)| < n
    ensures LevelAt(edges, f, start, n) == []
    decreases n
  {
    if LevelAt(edges, f, start, n - 1) != [] {
      LevelsEnd(edges, f, start, n - 1);
    }
  }

  /** Levels beyond an empty one add nothing. */
  lemma {:induction false} NothingBeyond<N, V>(edges: Edges<N, V>, f: (N, V) -> V, start: Frame<N, V>, n: nat, m: nat)
    requires n <= m && LevelAt(edges, f, start, n) == []
    ensures LevelAt(edges, f, start, m) == [] && LevelOrder(edges, f, start, m) == LevelOrder(edges, f, start, n)
    decreases m
  {
    if n < m { NothingBeyond(edges, f, start, n, m - 1); }
  }

  /** A frame's depth is its level. */
  lemma {:induction false} DepthIsLevel<N, V>(edges: Edges<N, V>, f: (N, V) -> V, start: Frame<N, V>, d: nat)
    requires start.depth == 0
    ensures forall i | 0 <= i < |LevelAt(edges, f, start, d)| :: LevelAt(edges, f, start, d)[i].depth == d
    decreases d
  {
    if d > 0 {
      DepthIsLevel(edges, f, start, d - 1);
      KidsDepth(edges, f, LevelAt(edges, f, start, d - 1), d - 1);
    }
  }

  lemma {:induction false} KidsDepth<N, V>(edges: Edges<N, V>, f: (N, V) -> V, frs: seq<Frame<N, V>>, d: nat)
    requires forall i | 0 <= i < |frs| :: frs[i].depth == d
    ensures forall i | 0 <= i < |KidsAll(edges, f, frs)| :: KidsAll(edges, f, frs)[i].depth == d + 1
    decreases |frs|
  {
    if frs != [] { KidsDepth(edges, f, frs[1..], d); }
  }

  /**
   A run is the graph in level order, cycles and fan-out included. limit + 1 levels hold either more
   than limit frames or all there are; the run executes them in order, as many as the limit allows,
   and reports ErrMaxSteps exactly when there are more.
   */
  lemma RunIsLevelOrder<N(!new), V(!new), E>(env: Env<N, V, E>, f: (N, V) -> V, start: N, seed: V, stepLimit: int)
    requires Steady(env, f)
    ensures var limit := StepLimit(stepLimit);
            var all := LevelOrder(env.edges, f, Frame(start, seed, 0), limit + 1);
            var o := RunOf(env, start, seed, stepLimit);
            && Frames(o.log) == (if |all| <= limit then all else all[..limit])
            && (o.error == if |all| <= limit then None else Some(MaxSteps(limit)))
            && (forall i | 0 <= i < |o.log| ::
                  o.log[i].index == i + 1 && o.log[i].out == f(o.log[i].frame.node, o.log[i].frame.input))
            && (|all| <= limit ==> forall m | m > limit :: LevelOrder(env.edges, f, Frame(start, seed, 0), m) == all)
  {
    hide Trace, LevelOrder, LevelAt, Drain;
    var limit := StepLimit(stepLimit);
    var first := Frame(start, seed, 0);
    var all := LevelOrder(env.edges, f, first, limit + 1);
    DrainTrace(env, f, [first], 0, limit, Clock(0, 0));
    TraceLevels(env.edges, f, first, limit + 1, limit);
    TraceLevels(env.edges, f, first, limit + 1, limit + 1);
    if |all| <= limit {
      LevelsEnd(env.edges, f, first, limit + 1);
      forall m | m > limit
        ensures LevelOrder(env.edges, f, first, m) == all
      {
        NothingBeyond(env.edges, f, first, limit + 1, m);
      }
      TraceEmpty(env.edges, f, limit - |all|);
      TraceEmpty(env.edges, f, limit + 1 - |all|);
      assert all[..|all|] == all;
    }
  }
}
